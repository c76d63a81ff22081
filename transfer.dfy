/**
 * The file processor's transfer engine: the worker object that reads a file
 * into memory and writes a buffer back to disk in 64 KiB chunks, emitting
 * progress signals and honouring a cooperative stop flag at chunk boundaries.
 *
 * The file system, the elapsed-time timer and the Qt event pump are inputs:
 *  - a `SourceFile` says whether the file exists and opens, its reported
 *    size, its contents and where (if anywhere) a read comes back empty;
 *  - a sequence of `WriteResult`s gives what each `write` call returns;
 *  - a sequence of booleans says, for each `processEvents()` call in order,
 *    whether a queued `cancelOperation` runs inside it;
 *  - `elapsed` is the timer reading taken at the end of a successful run.
 * Emitted signals are appended to an event log, in emission order.
 */
module Transfer {

  newtype Byte = b: int | 0 <= b < 256

  /** Bytes requested per read and offered per write: 64 KiB. */
  const ChunkSize: nat := 0x10000

  datatype Option<T> = None | Some(value: T)

  /** Why a read or a save was abandoned. */
  datatype Failure = NotFound | CannotOpen | IoFailure

  /** The worker's signals. */
  datatype Event =
    | ReadProgress(bytes: int, total: int)
    | ReadFinished(data: seq<Byte>)
    | ReadError(reason: Failure)
    | StartRead(running: bool)
    | StoptRead(running: bool)
    | StartWrite(running: bool)
    | StopWrite(running: bool)
    | SetRotationDirection(clockwise: bool)
    | SaveProgress(bytes: int, total: int)
    | SaveFinished
    | SaveError(reason: Failure)
    | CancelOperationSignal

  /**
   * Everything the worker keeps between calls: the two flags, the last
   * recorded duration, the two persisting progress counters (function-local
   * statics in the worker's read and save loops) and the signals so far.
   */
  datatype WorkerState = WorkerState(
    stop: bool,
    start: bool,
    lastOperationTime: int,
    lastReadPercent: int,
    lastSavePercent: int,
    events: seq<Event>)

  /** A read (by index, from 0) that returns no bytes; `ioError` says whether the file then reports an error. */
  datatype ReadFault = NoFault | EmptyChunkAt(index: nat, ioError: bool)

  /** The source file as the worker sees it; `size` is the size reported before opening. */
  datatype SourceFile = SourceFile(found: bool, opens: bool, size: nat, contents: seq<Byte>, fault: ReadFault)

  type Positive = n: int | n >= 1 witness 1

  /** What one `write` call returns: a count of accepted bytes (at most the chunk's length), or -1. */
  datatype WriteResult = Accepted(count: Positive) | Rejected

  /** How a chunk loop ended: ran out of input, saw the stop flag, or hit an I/O error. */
  datatype Ending = Finished | Cancelled | Failed

  /** The read loop's variables when it ends. */
  datatype ReadRun = ReadRun(data: seq<Byte>, progress: seq<Event>, ending: Ending, stop: bool, lastPercent: int)

  /** The save loop's variables when it ends; `stored` is what the destination file holds. */
  datatype SaveRun = SaveRun(stored: seq<Byte>, written: nat, progress: seq<Event>, ending: Ending, stop: bool, lastPercent: int)

  /** The destination file afterwards (`None`: never opened) and the worker's new state. */
  datatype SaveOutcome = SaveOutcome(worker: WorkerState, file: Option<seq<Byte>>)

  function Min(a: int, b: int): int { if a <= b then a else b }

  function Last<T>(s: seq<T>): T
    requires |s| > 0
  {
    s[|s| - 1]
  }

  function Rest<T>(s: seq<T>): seq<T> { if s == [] then [] else s[1..] }

  /** Integer percentage of `bytes` out of `total`. */
  function Percent(bytes: int, total: int): int
    requires total > 0
  {
    bytes * 100 / total
  }

  /** Whether a queued `cancelOperation` runs inside the next `processEvents()` call. */
  function CancelDelivered(cancels: seq<bool>): bool { |cancels| > 0 && cancels[0] }

  /** What the `index`-th `read(ChunkSize)` call returns when `pos` bytes have been read. */
  function ReadChunk(file: SourceFile, index: nat, pos: nat): (chunk: seq<Byte>)
    requires pos < |file.contents|
    ensures pos + |chunk| <= |file.contents|
  {
    if file.fault.EmptyChunkAt? && file.fault.index == index then []
    else file.contents[pos .. pos + Min(ChunkSize, |file.contents| - pos)]
  }

  /**
   * A read returns the next bytes of the file, at most a chunk, a whole chunk
   * unless the file ends first, and nothing exactly at the faulty read.
   */
  lemma ReadChunkFacts(file: SourceFile, index: nat, pos: nat)
    requires pos < |file.contents|
    ensures var chunk := ReadChunk(file, index, pos);
      && |chunk| <= ChunkSize && chunk == file.contents[pos .. pos + |chunk|]
      && (chunk == [] <==> file.fault.EmptyChunkAt? && file.fault.index == index)
      && (chunk != [] && pos + ChunkSize <= |file.contents| ==> |chunk| == ChunkSize)
  {
  }

  /** Whether the file reports an error after the `index`-th read. */
  predicate ErrorAfterRead(file: SourceFile, index: nat)
  {
    file.fault == EmptyChunkAt(index, true)
  }

  /** Whether an empty read falls inside the file, so the loop meets it unless stopped first. */
  predicate FaultWithin(file: SourceFile)
  {
    file.fault.EmptyChunkAt? && file.fault.index * ChunkSize < |file.contents|
  }

  /**
   * What the progress step after a chunk does: the signals it emits (none or
   * one), the cancel answers left, the stop flag and the persisting counter.
   */
  datatype Report = Report(emitted: seq<Event>, cancels: seq<bool>, stop: bool, lastPercent: int)

  /**
   * The read loop's progress step once `total` bytes of `size` are in: with a
   * known size, a changed percentage or a complete read emits one signal,
   * stores the percentage and runs processEvents(), where a queued cancel
   * raises the stop flag.
   */
  function ReadReport(total: int, size: int, cancels: seq<bool>, stop: bool, lastPercent: int): Report
  {
    if size > 0 && (Percent(total, size) != lastPercent || total == size) then
      Report([ReadProgress(total, size)], Rest(cancels), stop || CancelDelivered(cancels), Percent(total, size))
    else
      Report([], cancels, stop, lastPercent)
  }

  /** The save loop's progress step: as for a read, but the size is never zero here. */
  function SaveReport(total: int, size: int, cancels: seq<bool>, stop: bool, lastPercent: int): Report
    requires size > 0
  {
    if Percent(total, size) != lastPercent || total == size then
      Report([SaveProgress(total, size)], Rest(cancels), stop || CancelDelivered(cancels), Percent(total, size))
    else
      Report([], cancels, stop, lastPercent)
  }

  /**
   * The read loop, one chunk per call: `data` is the buffer so far, `index`
   * the number of reads made, `progress` the progress signals emitted, and
   * `stop`, `lastPercent` the worker's flag and persisting counter.
   */
  function ReadLoop(file: SourceFile, cancels: seq<bool>, index: nat, data: seq<Byte>,
                    progress: seq<Event>, stop: bool, lastPercent: int): ReadRun
    requires |data| <= |file.contents|
    decreases |file.contents| - |data|
  {
    if |data| == |file.contents| then ReadRun(data, progress, Finished, stop, lastPercent)
    else
      var chunk := ReadChunk(file, index, |data|);
      if chunk == [] then
        ReadRun(data, progress, if ErrorAfterRead(file, index) then Failed else Finished, stop, lastPercent)
      else if stop then
        ReadRun(data, progress, Cancelled, false, lastPercent)
      else
        var r := ReadReport(|data| + |chunk|, file.size, cancels, stop, lastPercent);
        ReadLoop(file, r.cancels, index + 1, data + chunk, progress + r.emitted, r.stop, r.lastPercent)
  }

  /** The read loop started from the worker's state, with an empty buffer. */
  function ReadRunFor(w: WorkerState, file: SourceFile, cancels: seq<bool>): ReadRun
  {
    ReadLoop(file, cancels, 0, [], [], w.stop, w.lastReadPercent)
  }

  const ReadHeader: seq<Event> := [StartRead(true), SetRotationDirection(true)]

  function ReadTrailer(run: ReadRun): seq<Event>
  {
    match run.ending
    case Finished => [ReadFinished(run.data), StoptRead(false)]
    case Cancelled => [ReadFinished(run.data), StoptRead(false), CancelOperationSignal]
    case Failed => [ReadError(IoFailure)]
  }

  /** The worker's state after `readFile`. */
  function ReadFileSpec(w: WorkerState, file: SourceFile, cancels: seq<bool>, elapsed: nat): WorkerState
  {
    if !file.found then w.(events := w.events + [ReadError(NotFound)])
    else if !file.opens then w.(events := w.events + [ReadError(CannotOpen)])
    else
      var run := ReadRunFor(w, file, cancels);
      var w' := w.(stop := run.stop, start := true, lastReadPercent := run.lastPercent,
                   events := w.events + ReadHeader + run.progress + ReadTrailer(run));
      if run.ending == Finished then w'.(lastOperationTime := elapsed, start := false) else w'
  }

  /** What the next `write` returns for a chunk of `len` bytes; once `writes` runs out every write is whole. */
  function WriteReturn(writes: seq<WriteResult>, len: nat): (n: int)
    requires len >= 1
    ensures n == -1 || 1 <= n <= len
    ensures n == -1 <==> writes != [] && writes[0] == Rejected
  {
    if writes == [] then len
    else match writes[0]
      case Rejected => -1
      case Accepted(count) => Min(count, len)
  }

  /**
   * The save loop, one chunk per call: `written` is the count of bytes
   * accounted for, `stored` what the file holds, the rest as in `ReadLoop`.
   */
  function SaveLoop(data: seq<Byte>, writes: seq<WriteResult>, cancels: seq<bool>, written: nat,
                    stored: seq<Byte>, progress: seq<Event>, stop: bool, lastPercent: int): SaveRun
    requires written <= |data|
    decreases |data| - written
  {
    if written == |data| then SaveRun(stored, written, progress, Finished, stop, lastPercent)
    else
      var chunk := data[written .. written + Min(ChunkSize, |data| - written)];
      var n := WriteReturn(writes, |chunk|);
      if n == -1 then SaveRun(stored, written, progress, Failed, stop, lastPercent)
      else
        var stored' := stored + chunk[..n];
        if stop then SaveRun(stored', written, progress, Cancelled, false, lastPercent)
        else
          var r := SaveReport(written + n, |data|, cancels, stop, lastPercent);
          SaveLoop(data, Rest(writes), r.cancels, written + n, stored', progress + r.emitted, r.stop, r.lastPercent)
  }

  /** The save loop started from the worker's state, on a freshly truncated file. */
  function SaveRunFor(w: WorkerState, data: seq<Byte>, writes: seq<WriteResult>, cancels: seq<bool>): SaveRun
  {
    SaveLoop(data, writes, cancels, 0, [], [], w.stop, w.lastSavePercent)
  }

  const SaveHeader: seq<Event> := [StartWrite(true), SetRotationDirection(false)]

  function SaveTrailer(run: SaveRun, data: seq<Byte>): seq<Event>
  {
    match run.ending
    case Finished => [SaveFinished, StopWrite(false)]
    case Cancelled => [ReadFinished(data), StoptRead(false), CancelOperationSignal]
    case Failed => [SaveError(IoFailure)]
  }

  /** The worker's state and the destination file after `saveFile`. */
  function SaveFileSpec(w: WorkerState, writable: bool, data: seq<Byte>, writes: seq<WriteResult>,
                        cancels: seq<bool>, elapsed: nat): SaveOutcome
  {
    if !writable then SaveOutcome(w.(events := w.events + [SaveError(CannotOpen)]), None)
    else
      var run := SaveRunFor(w, data, writes, cancels);
      var w' := w.(stop := run.stop, start := true, lastSavePercent := run.lastPercent,
                   events := w.events + SaveHeader + run.progress + SaveTrailer(run, data));
      SaveOutcome(if run.ending == Finished then w'.(lastOperationTime := elapsed, start := false) else w',
                  Some(run.stored))
  }

  /**
   * The worker object. Its fields are the C++ members plus the two
   * function-local static counters (the program creates a single worker)
   * and the log of emitted signals.
   */
  class FileWorker {
    var stop: bool
    var start: bool
    var lastOperationTime: int
    var lastReadPercent: int
    var lastSavePercent: int
    var events: seq<Event>

    function State(): WorkerState
      reads this
    {
      WorkerState(stop, start, lastOperationTime, lastReadPercent, lastSavePercent, events)
    }

    constructor ()
      ensures State() == WorkerState(false, false, 0, 0, 0, [])
    {
      stop, start, lastOperationTime := false, false, 0;
      lastReadPercent, lastSavePercent := 0, 0;
      events := [];
    }

    function GetLastOperationTime(): int
      reads this
    {
      lastOperationTime
    }

    /** Raises the stop flag, but only while an operation has started; nothing else changes. */
    method CancelOperation()
      modifies this`stop
      ensures stop == (old(stop) || start)
    {
      if !start {
        return;
      }
      stop := true;
    }

    /**
     * The read loop's progress step: with a known size, a changed percentage
     * or a complete read emits `readProgress`, stores the percentage, and runs
     * processEvents(), which consumes the next cancel answer.
     */
    method ReportReadProgress(totalBytesRead: int, fileSize: int, pending: seq<bool>) returns (rest: seq<bool>)
      requires start
      modifies this`events, this`lastReadPercent, this`stop
      ensures var r := ReadReport(totalBytesRead, fileSize, pending, old(stop), old(lastReadPercent));
        && rest == r.cancels && stop == r.stop && lastReadPercent == r.lastPercent
        && events == old(events) + r.emitted
    {
      rest := pending;
      if fileSize > 0 {
        var currentPercent := totalBytesRead * 100 / fileSize;
        if currentPercent != lastReadPercent || totalBytesRead == fileSize {
          events := events + [ReadProgress(totalBytesRead, fileSize)];
          lastReadPercent := currentPercent;
          // processEvents(): a queued cancelOperation may run here
          if CancelDelivered(rest) {
            CancelOperation();
          }
          rest := Rest(rest);
        }
      }
    }

    /** The save loop's progress step, as for a read; the size is positive inside the loop. */
    method ReportSaveProgress(totalBytesWritten: int, totalBytes: int, pending: seq<bool>) returns (rest: seq<bool>)
      requires start && totalBytes > 0
      modifies this`events, this`lastSavePercent, this`stop
      ensures var r := SaveReport(totalBytesWritten, totalBytes, pending, old(stop), old(lastSavePercent));
        && rest == r.cancels && stop == r.stop && lastSavePercent == r.lastPercent
        && events == old(events) + r.emitted
    {
      rest := pending;
      var currentPercent := totalBytesWritten * 100 / totalBytes;
      if currentPercent != lastSavePercent || totalBytesWritten == totalBytes {
        events := events + [SaveProgress(totalBytesWritten, totalBytes)];
        lastSavePercent := currentPercent;
        // processEvents(): a queued cancelOperation may run here
        if CancelDelivered(rest) {
          CancelOperation();
        }
        rest := Rest(rest);
      }
    }

    /**
     * The read loop of `readFile` on an opened file: chunks are appended and
     * progress reported until the input runs out, an empty read, or the stop
     * flag seen at a chunk boundary. An I/O error or a stop emits its closing
     * signals here, as the source returns from inside the loop.
     */
    method ReadChunks(file: SourceFile, cancels: seq<bool>) returns (data: seq<Byte>, ending: Ending)
      requires start
      modifies this`events, this`stop, this`lastReadPercent
      ensures var run := ReadLoop(file, cancels, 0, [], [], old(stop), old(lastReadPercent));
        && data == run.data && ending == run.ending && stop == run.stop && lastReadPercent == run.lastPercent
        && events == old(events) + run.progress + (if ending == Finished then [] else ReadTrailer(run))
    {
      var fileSize := file.size;
      data := [];
      var totalBytesRead := 0;
      var index := 0;
      var pending := cancels;
      ghost var progress: seq<Event> := [];
      ghost var run := ReadLoop(file, cancels, 0, [], [], stop, lastReadPercent);

      while totalBytesRead < |file.contents|
        invariant totalBytesRead == |data| <= |file.contents|
        invariant events == old(events) + progress
        invariant ReadLoop(file, pending, index, data, progress, stop, lastReadPercent) == run
        decreases |file.contents| - totalBytesRead
      {
        var chunk := ReadChunk(file, index, totalBytesRead);
        if chunk == [] {
          if ErrorAfterRead(file, index) {
            events := events + [ReadError(IoFailure)];
            return data, Failed;
          }
          break;
        }
        if stop {
          stop := false;
          events := events + [ReadFinished(data), StoptRead(false), CancelOperationSignal];
          return data, Cancelled;
        }
        data := data + chunk;
        totalBytesRead := totalBytesRead + |chunk|;
        index := index + 1;
        ghost var r := ReadReport(totalBytesRead, fileSize, pending, stop, lastReadPercent);
        pending := ReportReadProgress(totalBytesRead, fileSize, pending);
        progress := progress + r.emitted;
      }
      return data, Finished;
    }

    method ReadFile(file: SourceFile, cancels: seq<bool>, elapsed: nat)
      modifies this
      ensures State() == ReadFileSpec(old(State()), file, cancels, elapsed)
    {
      if !file.found {
        events := events + [ReadError(NotFound)];
        return;
      }
      if !file.opens {
        events := events + [ReadError(CannotOpen)];
        return;
      }
      events := events + [StartRead(true), SetRotationDirection(true)];
      start := true;
      var data, ending := ReadChunks(file, cancels);
      if ending == Finished {
        lastOperationTime := elapsed;
        events := events + [ReadFinished(data), StoptRead(false)];
        start := false;
      }
    }

    /**
     * The write loop of `saveFile` on an opened, truncated destination:
     * chunks are offered until all of `data` is accounted for, a write
     * fails, or the stop flag is seen after a write. A failure or a stop
     * emits its closing signals here, as the source returns from inside the
     * loop; `stored` is what the destination then holds.
     */
    method WriteChunks(data: seq<Byte>, writes: seq<WriteResult>, cancels: seq<bool>)
      returns (stored: seq<Byte>, ending: Ending)
      requires start
      modifies this`events, this`stop, this`lastSavePercent
      ensures var run := SaveLoop(data, writes, cancels, 0, [], [], old(stop), old(lastSavePercent));
        && stored == run.stored && ending == run.ending && stop == run.stop && lastSavePercent == run.lastPercent
        && events == old(events) + run.progress + (if ending == Finished then [] else SaveTrailer(run, data))
    {
      var totalBytes := |data|;
      stored := [];
      var totalBytesWritten := 0;
      var results := writes;
      var pending := cancels;
      ghost var progress: seq<Event> := [];
      ghost var run := SaveLoop(data, writes, cancels, 0, [], [], stop, lastSavePercent);

      while totalBytesWritten < totalBytes
        invariant 0 <= totalBytesWritten <= totalBytes
        invariant events == old(events) + progress
        invariant SaveLoop(data, results, pending, totalBytesWritten, stored, progress, stop, lastSavePercent) == run
        decreases totalBytes - totalBytesWritten
      {
        var bytesToWrite := Min(ChunkSize, totalBytes - totalBytesWritten);
        var chunk := data[totalBytesWritten .. totalBytesWritten + bytesToWrite];
        var bytesWritten := WriteReturn(results, |chunk|);
        results := Rest(results);
        if bytesWritten == -1 {
          events := events + [SaveError(IoFailure)];
          return stored, Failed;
        }
        stored := stored + chunk[..bytesWritten];
        if stop {
          stop := false;
          events := events + [ReadFinished(data), StoptRead(false), CancelOperationSignal];
          return stored, Cancelled;
        }
        totalBytesWritten := totalBytesWritten + bytesWritten;
        ghost var r := SaveReport(totalBytesWritten, totalBytes, pending, stop, lastSavePercent);
        pending := ReportSaveProgress(totalBytesWritten, totalBytes, pending);
        progress := progress + r.emitted;
      }
      return stored, Finished;
    }

    method SaveFile(writable: bool, data: seq<Byte>, writes: seq<WriteResult>, cancels: seq<bool>, elapsed: nat)
      returns (file: Option<seq<Byte>>)
      modifies this
      ensures SaveOutcome(State(), file) == SaveFileSpec(old(State()), writable, data, writes, cancels, elapsed)
    {
      if !writable {
        events := events + [SaveError(CannotOpen)];
        return None;
      }
      events := events + [StartWrite(true), SetRotationDirection(false)];
      start := true;
      var stored, ending := WriteChunks(data, writes, cancels);
      if ending == Finished {
        lastOperationTime := elapsed;
        events := events + [SaveFinished, StopWrite(false)];
        start := false;
      }
      return Some(stored);
    }
  }
}

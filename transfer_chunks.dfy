/**
 * Which progress signals a transfer emits, stated over the byte counts at
 * chunk boundaries alone, with no file contents, faults or cancels: the
 * converse of the bounds in `TransferFacts`, namely that every chunk whose
 * percentage moves is reported.
 */
module TransferChunks {
  import opened Transfer
  import opened TransferFacts

  /**
   * The progress signals of a transfer that nothing stops, from `done` bytes
   * to `len`, one chunk of up to 64 KiB at a time: the count `next` after a
   * chunk is reported exactly when the size is known and its percentage
   * differs from the last one reported (`counter` before the first), or it
   * is the whole size.
   */
  function ChunkProgress(read: bool, done: nat, len: nat, size: int, counter: int): seq<Event>
    decreases len - done
  {
    if done >= len then []
    else
      var next := Min(done + ChunkSize, len);
      if size > 0 && (Percent(next, size) != counter || next == size) then
        [if read then ReadProgress(next, size) else SaveProgress(next, size)]
          + ChunkProgress(read, next, len, size, Percent(next, size))
      else ChunkProgress(read, next, len, size, counter)
  }

  /** Every `write` accepts at least a whole chunk. */
  predicate WholeWrites(writes: seq<WriteResult>)
  {
    forall i :: 0 <= i < |writes| ==> writes[i].Accepted? && writes[i].count >= ChunkSize
  }

  /** A cancel sequence with no `true` in it lets no cancel in now or later. */
  lemma NoCancelStep(cancels: seq<bool>)
    requires true !in cancels
    ensures !CancelDelivered(cancels) && true !in Rest(cancels)
  {
    if cancels != [] {
      assert cancels[0] in cancels;
      assert cancels == [cancels[0]] + Rest(cancels);
    }
  }

  /** A whole write takes the chunk it is offered, and the writes after it are whole too. */
  lemma WholeWriteStep(writes: seq<WriteResult>, len: nat)
    requires WholeWrites(writes) && 1 <= len <= ChunkSize
    ensures WriteReturn(writes, len) == len && WholeWrites(Rest(writes))
  {
    if writes != [] {
      assert writes[0].Accepted? && writes[0].count >= ChunkSize;
      forall i | 0 <= i < |Rest(writes)|
        ensures Rest(writes)[i].Accepted? && Rest(writes)[i].count >= ChunkSize
      {
        assert Rest(writes)[i] == writes[i + 1];
      }
    }
  }

  /** One chunk of `ChunkProgress` is what the read loop's progress step emits after it. */
  lemma ReadReportIsChunk(done: nat, next: nat, len: nat, size: int, cancels: seq<bool>, counter: int)
    requires done < len && next == Min(done + ChunkSize, len)
    ensures var r := ReadReport(next, size, cancels, false, counter);
      ChunkProgress(true, done, len, size, counter) == r.emitted + ChunkProgress(true, next, len, size, r.lastPercent)
  {
  }

  /** One chunk of `ChunkProgress` is what the save loop's progress step emits after it. */
  lemma SaveReportIsChunk(done: nat, next: nat, len: nat, cancels: seq<bool>, counter: int)
    requires done < len && next == Min(done + ChunkSize, len)
    ensures var r := SaveReport(next, len, cancels, false, counter);
      ChunkProgress(false, done, len, len, counter) == r.emitted + ChunkProgress(false, next, len, len, r.lastPercent)
  {
  }

  /**
   * The read loop at a chunk boundary (or at the end) of a file with no empty
   * read inside it, with no cancel to come.
   */
  predicate ReadClear(file: SourceFile, cancels: seq<bool>, index: nat, data: seq<Byte>)
  {
    && |data| <= |file.contents|
    && (|data| == index * ChunkSize || |data| == |file.contents|)
    && !FaultWithin(file)
    && true !in cancels
  }

  /** The save loop within its data, with only whole writes and no cancel to come. */
  predicate SaveClear(data: seq<Byte>, writes: seq<WriteResult>, cancels: seq<bool>, written: nat)
  {
    written <= |data| && WholeWrites(writes) && true !in cancels
  }

  /**
   * One pass of the read loop with nothing to stop it: it reads a whole chunk
   * (or the rest of the file), stays clear, and emits exactly the first chunk
   * of `ChunkProgress`.
   */
  lemma ReadLoopStep(file: SourceFile, cancels: seq<bool>, index: nat, data: seq<Byte>, progress: seq<Event>,
                     lastPercent: int)
    requires ReadClear(file, cancels, index, data) && |data| < |file.contents|
    ensures var chunk := ReadChunk(file, index, |data|);
      var r := ReadReport(|data| + |chunk|, file.size, cancels, false, lastPercent);
      && ReadClear(file, r.cancels, index + 1, data + chunk)
      && ReadLoop(file, cancels, index, data, progress, false, lastPercent)
         == ReadLoop(file, r.cancels, index + 1, data + chunk, progress + r.emitted, false, r.lastPercent)
      && ChunkProgress(true, |data|, |file.contents|, file.size, lastPercent)
         == r.emitted + ChunkProgress(true, |data + chunk|, |file.contents|, file.size, r.lastPercent)
  {
    ReadChunkFacts(file, index, |data|);
    var chunk := ReadChunk(file, index, |data|);
    assert chunk != [] by { assert |data| == index * ChunkSize; }
    NoCancelStep(cancels);
    ReadReportIsChunk(|data|, |data| + |chunk|, |file.contents|, file.size, cancels, lastPercent);
  }

  /**
   * One pass of the save loop with nothing to stop it: the write takes the
   * whole chunk, the loop stays clear, and it emits exactly the first chunk
   * of `ChunkProgress`.
   */
  lemma SaveLoopStep(data: seq<Byte>, writes: seq<WriteResult>, cancels: seq<bool>, written: nat, stored: seq<Byte>,
                     progress: seq<Event>, lastPercent: int)
    requires SaveClear(data, writes, cancels, written) && written < |data|
    ensures var chunk := data[written .. written + Min(ChunkSize, |data| - written)];
      var r := SaveReport(written + |chunk|, |data|, cancels, false, lastPercent);
      && SaveClear(data, Rest(writes), r.cancels, written + |chunk|)
      && SaveLoop(data, writes, cancels, written, stored, progress, false, lastPercent)
         == SaveLoop(data, Rest(writes), r.cancels, written + |chunk|, stored + chunk, progress + r.emitted, false,
                     r.lastPercent)
      && ChunkProgress(false, written, |data|, |data|, lastPercent)
         == r.emitted + ChunkProgress(false, written + |chunk|, |data|, |data|, r.lastPercent)
  {
    var chunk := data[written .. written + Min(ChunkSize, |data| - written)];
    WholeWriteStep(writes, |chunk|);
    assert chunk[..|chunk|] == chunk;
    NoCancelStep(cancels);
    SaveReportIsChunk(written, written + |chunk|, |data|, cancels, lastPercent);
  }

  /** With no stop, no cancel and no empty read inside the file, the read loop reports every chunk that moves the percentage. */
  lemma {:induction false} ReadLoopReportsEveryChunk(file: SourceFile, cancels: seq<bool>, index: nat, data: seq<Byte>,
                                                     progress: seq<Event>, lastPercent: int)
    requires ReadClear(file, cancels, index, data)
    ensures ReadLoop(file, cancels, index, data, progress, false, lastPercent).progress
         == progress + ChunkProgress(true, |data|, |file.contents|, file.size, lastPercent)
    decreases |file.contents| - |data|
  {
    if |data| < |file.contents| {
      var chunk := ReadChunk(file, index, |data|);
      var r := ReadReport(|data| + |chunk|, file.size, cancels, false, lastPercent);
      ReadLoopStep(file, cancels, index, data, progress, lastPercent);
      ReadLoopReportsEveryChunk(file, r.cancels, index + 1, data + chunk, progress + r.emitted, r.lastPercent);
    }
  }

  /** With no stop, no cancel and only whole writes, the save loop reports every chunk that moves the percentage. */
  lemma {:induction false} SaveLoopReportsEveryChunk(data: seq<Byte>, writes: seq<WriteResult>, cancels: seq<bool>,
                                                     written: nat, stored: seq<Byte>, progress: seq<Event>,
                                                     lastPercent: int)
    requires SaveClear(data, writes, cancels, written)
    ensures SaveLoop(data, writes, cancels, written, stored, progress, false, lastPercent).progress
         == progress + ChunkProgress(false, written, |data|, |data|, lastPercent)
    decreases |data| - written
  {
    if written < |data| {
      var chunk := data[written .. written + Min(ChunkSize, |data| - written)];
      var r := SaveReport(written + |chunk|, |data|, cancels, false, lastPercent);
      SaveLoopStep(data, writes, cancels, written, stored, progress, lastPercent);
      SaveLoopReportsEveryChunk(data, Rest(writes), r.cancels, written + |chunk|, stored + chunk, progress + r.emitted,
                                r.lastPercent);
    }
  }

  /**
   * A read that nothing stops and no empty read interrupts emits exactly the
   * start signals, one progress signal per chunk that moves the percentage
   * (and the last), then the whole file.
   */
  lemma ReadFileReportsEveryChunk(w: WorkerState, file: SourceFile, cancels: seq<bool>, elapsed: nat)
    requires file.found && file.opens && !FaultWithin(file)
    requires !w.stop && true !in cancels
    ensures ReadFileSpec(w, file, cancels, elapsed).events
         == w.events + [StartRead(true), SetRotationDirection(true)]
            + ChunkProgress(true, 0, |file.contents|, file.size, w.lastReadPercent)
            + [ReadFinished(file.contents), StoptRead(false)]
  {
    ReadRunFacts(w, file, cancels);
    ReadLoopReportsEveryChunk(file, cancels, 0, [], [], w.lastReadPercent);
  }

  /**
   * A save that nothing stops, cancels or shortens emits exactly the start
   * signals, one progress signal per chunk that moves the percentage (and
   * the last), then the finish signals.
   */
  lemma SaveFileReportsEveryChunk(w: WorkerState, data: seq<Byte>, writes: seq<WriteResult>, cancels: seq<bool>,
                                  elapsed: nat)
    requires !w.stop && true !in cancels && WholeWrites(writes)
    ensures SaveFileSpec(w, true, data, writes, cancels, elapsed).worker.events
         == w.events + [StartWrite(true), SetRotationDirection(false)]
            + ChunkProgress(false, 0, |data|, |data|, w.lastSavePercent)
            + [SaveFinished, StopWrite(false)]
  {
    assert Rejected !in writes;
    SaveLoopFlags(data, writes, cancels, 0, [], [], w.stop, w.lastSavePercent);
    SaveLoopReportsEveryChunk(data, writes, cancels, 0, [], [], w.lastSavePercent);
    var run := SaveRunFor(w, data, writes, cancels);
    assert run.ending == Finished;
    assert run.progress == ChunkProgress(false, 0, |data|, |data|, w.lastSavePercent);
  }

  /**
   * A 150000-byte read from a fresh counter reports after each of its three
   * chunks: 43 %, 87 % and the whole file.
   */
  lemma ReadFileThreeChunks(w: WorkerState, contents: seq<Byte>, elapsed: nat)
    requires |contents| == 150000 && w.lastReadPercent == 0 && !w.stop
    ensures ReadFileSpec(w, SourceFile(true, true, 150000, contents, NoFault), [], elapsed).events
         == w.events + [StartRead(true), SetRotationDirection(true),
                        ReadProgress(65536, 150000), ReadProgress(131072, 150000), ReadProgress(150000, 150000),
                        ReadFinished(contents), StoptRead(false)]
  {
    ReadFileReportsEveryChunk(w, SourceFile(true, true, 150000, contents, NoFault), [], elapsed);
    assert Percent(65536, 150000) == 43;
    assert Percent(131072, 150000) == 87;
    assert ChunkProgress(true, 131072, 150000, 150000, 87) == [ReadProgress(150000, 150000)];
    assert ChunkProgress(true, 65536, 150000, 150000, 43)
        == [ReadProgress(131072, 150000), ReadProgress(150000, 150000)];
  }

  /**
   * The read loop of a one-chunk file whose only `processEvents()` takes in a
   * cancel: the chunk is read and reported, the file ends the loop before
   * the stop flag is looked at, and the flag stays raised.
   */
  lemma ReadLoopLateCancel(file: SourceFile, lastPercent: int)
    requires !FaultWithin(file)
    requires 0 < |file.contents| <= ChunkSize && file.size == |file.contents|
    ensures ReadLoop(file, [true], 0, [], [], false, lastPercent)
         == ReadRun(file.contents, [ReadProgress(file.size, file.size)], Finished, true, 100)
  {
    ReadChunkFacts(file, 0, 0);
    assert ReadChunk(file, 0, 0) == file.contents;
    assert [] + file.contents == file.contents;
    var r := ReadReport(|file.contents|, file.size, [true], false, lastPercent);
    assert r == Report([ReadProgress(file.size, file.size)], [], true, 100);
    assert [] + r.emitted == r.emitted;
  }

  /**
   * A cancel taken in at the last `processEvents()` of a one-chunk read does
   * not stop it: the whole file is delivered and `start` lowered, but the
   * stop flag stays raised, as nothing clears it on success.
   */
  lemma ReadFileLateCancel(w: WorkerState, file: SourceFile, elapsed: nat)
    requires file.found && file.opens && !FaultWithin(file)
    requires 0 < |file.contents| <= ChunkSize && file.size == |file.contents|
    requires !w.stop
    ensures var r := ReadFileSpec(w, file, [true], elapsed);
      && r.events == w.events + [StartRead(true), SetRotationDirection(true), ReadProgress(file.size, file.size),
                                 ReadFinished(file.contents), StoptRead(false)]
      && r.stop && !r.start && r.lastOperationTime == elapsed
  {
    ReadLoopLateCancel(file, w.lastReadPercent);
  }
}

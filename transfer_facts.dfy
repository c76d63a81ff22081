/**
 * What the transfer engine guarantees, proved about the functions that
 * specify `FileWorker.ReadFile` and `FileWorker.SaveFile`.
 */
module TransferFacts {
  import opened Transfer

  /**
   * `p` is the progress stream of a read (`read`) or a save: every signal
   * carries `total` and reports between 1 and `upTo` bytes, byte counts
   * strictly increase, and a signal repeats the percentage of the one before
   * it (or, for the first, the persisting counter `startPercent`) only when
   * it reports the whole `total`. It is defined signal by signal from the
   * end, as the loops emit them; `ProgressStreamMeans` states it position by
   * position.
   */
  ghost predicate ProgressStream(p: seq<Event>, read: bool, total: int, startPercent: int, upTo: int)
    decreases |p|
  {
    p != [] ==>
      var e := Last(p);
      var before := p[..|p| - 1];
      && (e.ReadProgress? || e.SaveProgress?) && e.ReadProgress? == read
      && e.total == total > 0 && 0 < e.bytes <= upTo
      && ProgressStream(before, read, total, startPercent, e.bytes - 1)
      && (Percent(e.bytes, total) != CounterAfter(before, total, startPercent) || e.bytes == total)
  }

  /** The persisting counter after the progress stream `p`: the percentage of its last signal. */
  ghost function CounterAfter(p: seq<Event>, total: int, startPercent: int): int
  {
    if p == [] || total <= 0 || !(Last(p).ReadProgress? || Last(p).SaveProgress?) then startPercent
    else Percent(Last(p).bytes, total)
  }

  ghost predicate ProgressSignals(p: seq<Event>, read: bool, total: int, upTo: int)
  {
    && (|p| > 0 ==> total > 0)
    && forall i :: 0 <= i < |p| ==>
         (p[i].ReadProgress? || p[i].SaveProgress?) && p[i].ReadProgress? == read &&
         p[i].total == total && 0 < p[i].bytes <= upTo
  }

  ghost predicate StrictlyIncreasing(p: seq<Event>)
    requires forall i :: 0 <= i < |p| ==> p[i].ReadProgress? || p[i].SaveProgress?
  {
    forall i, j :: 0 <= i < j < |p| ==> p[i].bytes < p[j].bytes
  }

  ghost predicate Deduplicated(p: seq<Event>, total: int, startPercent: int)
    requires forall i :: 0 <= i < |p| ==> p[i].ReadProgress? || p[i].SaveProgress?
    requires |p| > 0 ==> total > 0
  {
    && (forall i :: 0 < i < |p| ==> Percent(p[i].bytes, total) != Percent(p[i - 1].bytes, total) || p[i].bytes == total)
    && (|p| > 0 ==> Percent(p[0].bytes, total) != startPercent || p[0].bytes == total)
  }

  /**
   * A progress stream, position by position: every signal is of the right
   * kind, carries `total` and at most `upTo` bytes; byte counts strictly
   * increase; and no signal short of `total` repeats the percentage before it.
   */
  lemma {:induction false} ProgressStreamMeans(p: seq<Event>, read: bool, total: int, startPercent: int, upTo: int)
    requires ProgressStream(p, read, total, startPercent, upTo)
    ensures ProgressSignals(p, read, total, upTo)
    ensures StrictlyIncreasing(p) && Deduplicated(p, total, startPercent)
    decreases |p|
  {
    if p != [] {
      var e := Last(p);
      var before := p[..|p| - 1];
      ProgressStreamMeans(before, read, total, startPercent, e.bytes - 1);
      assert forall i :: 0 <= i < |before| ==> p[i] == before[i];
      assert ProgressSignals(p, read, total, upTo);
      forall i, j | 0 <= i < j < |p|
        ensures p[i].bytes < p[j].bytes
      {
        assert p[i] == before[i];
        if j < |before| {
          assert p[j] == before[j];
        }
      }
      forall i | 0 < i < |p|
        ensures Percent(p[i].bytes, total) != Percent(p[i - 1].bytes, total) || p[i].bytes == total
      {
        assert p[i - 1] == before[i - 1];
        if i == |before| {
          assert before[i - 1] == Last(before);
        } else {
          assert p[i] == before[i];
        }
      }
    }
  }

  /** A stream stays one under a looser byte bound. */
  lemma ProgressStreamWiden(p: seq<Event>, read: bool, total: int, startPercent: int, upTo: int, upTo': int)
    requires ProgressStream(p, read, total, startPercent, upTo)
    requires upTo <= upTo'
    ensures ProgressStream(p, read, total, startPercent, upTo')
  {
  }

  /** A signal past the stream's bound that changes the percentage (or completes) extends the stream. */
  lemma ProgressStreamExtend(p: seq<Event>, e: Event, read: bool, total: int, startPercent: int, upTo: int, upTo': int)
    requires ProgressStream(p, read, total, startPercent, upTo)
    requires (e.ReadProgress? || e.SaveProgress?) && e.ReadProgress? == read && e.total == total > 0
    requires 0 <= upTo < e.bytes <= upTo'
    requires Percent(e.bytes, total) != CounterAfter(p, total, startPercent) || e.bytes == total
    ensures ProgressStream(p + [e], read, total, startPercent, upTo')
  {
    var q := p + [e];
    assert Last(q) == e && q[..|q| - 1] == p;
    ProgressStreamWiden(p, read, total, startPercent, upTo, e.bytes - 1);
  }

  /**
   * What a chunk loop keeps about its progress signals once `upTo` bytes are
   * in: they form a deduplicated stream, the counter holds the last one's
   * percentage, and a complete transfer of a known size has been reported.
   */
  ghost predicate ProgressKept(progress: seq<Event>, read: bool, size: int, startPercent: int, upTo: int,
                               lastPercent: int)
  {
    && ProgressStream(progress, read, size, startPercent, upTo)
    && lastPercent == CounterAfter(progress, size, startPercent)
    && (upTo == size > 0 ==> progress != [] && Last(progress).bytes == size)
  }

  /** A read loop's progress step keeps its signals a deduplicated stream and the counter at the last one. */
  lemma ReadReportExtends(progress: seq<Event>, total: int, size: int, cancels: seq<bool>, stop: bool,
                          lastPercent: int, startPercent: int, upTo: int)
    requires ProgressKept(progress, true, size, startPercent, upTo, lastPercent) && 0 <= upTo < total
    ensures var r := ReadReport(total, size, cancels, stop, lastPercent);
      ProgressKept(progress + r.emitted, true, size, startPercent, total, r.lastPercent)
  {
    var r := ReadReport(total, size, cancels, stop, lastPercent);
    if r.emitted != [] {
      var e := ReadProgress(total, size);
      assert r.emitted == [e];
      ProgressStreamExtend(progress, e, true, size, startPercent, upTo, total);
      assert Last(progress + [e]) == e;
    } else {
      assert progress + r.emitted == progress;
      ProgressStreamWiden(progress, true, size, startPercent, upTo, total);
    }
  }

  /** A save loop's progress step keeps its signals a deduplicated stream and the counter at the last one. */
  lemma SaveReportExtends(progress: seq<Event>, total: int, size: int, cancels: seq<bool>, stop: bool,
                          lastPercent: int, startPercent: int, upTo: int)
    requires size > 0
    requires ProgressKept(progress, false, size, startPercent, upTo, lastPercent) && 0 <= upTo < total <= size
    ensures var r := SaveReport(total, size, cancels, stop, lastPercent);
      ProgressKept(progress + r.emitted, false, size, startPercent, total, r.lastPercent)
  {
    var r := SaveReport(total, size, cancels, stop, lastPercent);
    if r.emitted != [] {
      var e := SaveProgress(total, size);
      assert r.emitted == [e];
      ProgressStreamExtend(progress, e, false, size, startPercent, upTo, total);
      assert Last(progress + [e]) == e;
    } else {
      assert progress + r.emitted == progress;
      ProgressStreamWiden(progress, false, size, startPercent, upTo, total);
    }
  }

  /** The read loop's buffer: a prefix of the file, whole unless the loop was stopped or met an empty read. */
  lemma {:induction false} ReadLoopData(file: SourceFile, cancels: seq<bool>, index: nat, data: seq<Byte>,
                                        progress: seq<Event>, stop: bool, lastPercent: int)
    requires |data| <= |file.contents| && data == file.contents[..|data|]
    requires |data| == index * ChunkSize || |data| == |file.contents|
    ensures var run := ReadLoop(file, cancels, index, data, progress, stop, lastPercent);
      && |data| <= |run.data| <= |file.contents| && run.data == file.contents[..|run.data|]
      && (run.ending != Cancelled && |run.data| < |file.contents| ==>
            file.fault.EmptyChunkAt? && file.fault.index * ChunkSize == |run.data| &&
            file.fault.ioError == (run.ending == Failed))
      && (run.ending == Failed ==> |run.data| < |file.contents|)
      && (run.ending == Cancelled ==> |run.data| < |file.contents| && |run.data| % ChunkSize == 0)
    decreases |file.contents| - |data|
  {
    if |data| < |file.contents| {
      var chunk := ReadChunk(file, index, |data|);
      ReadChunkFacts(file, index, |data|);
      if chunk != [] && !stop {
        var total := |data| + |chunk|;
        var data' := data + chunk;
        assert data' == file.contents[..total];
        assert total == (index + 1) * ChunkSize || total == |file.contents|;
        var r := ReadReport(total, file.size, cancels, stop, lastPercent);
        ReadLoopData(file, r.cancels, index + 1, data', progress + r.emitted, r.stop, r.lastPercent);
      }
    }
  }

  /** The read loop's progress signals form a deduplicated stream; the counter ends at the last one's percentage. */
  lemma {:induction false} ReadLoopProgress(file: SourceFile, cancels: seq<bool>, index: nat, data: seq<Byte>,
                                            progress: seq<Event>, stop: bool, lastPercent: int, startPercent: int)
    requires |data| <= |file.contents|
    requires ProgressKept(progress, true, file.size, startPercent, |data|, lastPercent)
    ensures var run := ReadLoop(file, cancels, index, data, progress, stop, lastPercent);
      ProgressKept(run.progress, true, file.size, startPercent, |run.data|, run.lastPercent)
    decreases |file.contents| - |data|
  {
    if |data| < |file.contents| {
      var chunk := ReadChunk(file, index, |data|);
      if chunk != [] && !stop {
        var total := |data| + |chunk|;
        var r := ReadReport(total, file.size, cancels, stop, lastPercent);
        ReadReportExtends(progress, total, file.size, cancels, stop, lastPercent, startPercent, |data|);
        ReadLoopProgress(file, r.cancels, index + 1, data + chunk, progress + r.emitted, r.stop, r.lastPercent, startPercent);
        assert ReadLoop(file, cancels, index, data, progress, stop, lastPercent)
            == ReadLoop(file, r.cancels, index + 1, data + chunk, progress + r.emitted, r.stop, r.lastPercent);
      }
    }
  }

  /** The stop flag after the read loop: cleared only when the loop acts on it, raised only by a delivered cancel. */
  lemma {:induction false} ReadLoopFlags(file: SourceFile, cancels: seq<bool>, index: nat, data: seq<Byte>,
                                         progress: seq<Event>, stop: bool, lastPercent: int)
    requires |data| <= |file.contents|
    ensures var run := ReadLoop(file, cancels, index, data, progress, stop, lastPercent);
      && (run.ending == Cancelled ==> !run.stop)
      && (run.ending != Cancelled && stop ==> run.stop)
      && (!stop && true !in cancels ==> run.ending != Cancelled && !run.stop)
    decreases |file.contents| - |data|
  {
    if |data| < |file.contents| {
      var chunk := ReadChunk(file, index, |data|);
      if chunk != [] && !stop {
        var r := ReadReport(|data| + |chunk|, file.size, cancels, stop, lastPercent);
        assert true !in cancels ==> true !in r.cancels && !r.stop;
        ReadLoopFlags(file, r.cancels, index + 1, data + chunk, progress + r.emitted, r.stop, r.lastPercent);
      }
    }
  }

  /** The read loop facts for the run that `readFile` starts. */
  lemma ReadRunFacts(w: WorkerState, file: SourceFile, cancels: seq<bool>)
    ensures var run := ReadRunFor(w, file, cancels);
      && |run.data| <= |file.contents| && run.data == file.contents[..|run.data|]
      && ProgressStream(run.progress, true, file.size, w.lastReadPercent, |run.data|)
      && run.lastPercent == CounterAfter(run.progress, file.size, w.lastReadPercent)
      && (|run.data| == file.size > 0 ==> run.progress != [] && Last(run.progress).bytes == file.size)
      && (run.ending != Cancelled && !FaultWithin(file) ==> run.data == file.contents)
      && (run.ending == Failed ==> FaultWithin(file) && file.fault.ioError)
      && (run.ending == Cancelled ==> !run.stop && |run.data| < |file.contents| && |run.data| % ChunkSize == 0)
      && (run.ending != Cancelled && w.stop ==> run.stop)
      && (!w.stop && true !in cancels ==> run.ending != Cancelled && !run.stop)
  {
    ReadLoopData(file, cancels, 0, [], [], w.stop, w.lastReadPercent);
    ReadLoopProgress(file, cancels, 0, [], [], w.stop, w.lastReadPercent, w.lastReadPercent);
    ReadLoopFlags(file, cancels, 0, [], [], w.stop, w.lastReadPercent);
  }

  /** The first `n` bytes of the chunk at `written` extend the prefix up to `written` by `n` bytes. */
  lemma PrefixGrows(data: seq<Byte>, written: nat, len: nat, n: nat)
    requires n <= len && written + len <= |data|
    ensures data[..written] + data[written .. written + len][..n] == data[..written + n]
  {
    assert data[written .. written + len][..n] == data[written .. written + n];
  }

  /** How far the save loop gets: to the end of the buffer unless a write is rejected or the loop is stopped. */
  lemma {:induction false} SaveLoopCount(data: seq<Byte>, writes: seq<WriteResult>, cancels: seq<bool>, written: nat,
                                         stored: seq<Byte>, progress: seq<Event>, stop: bool, lastPercent: int)
    requires written <= |data|
    ensures var run := SaveLoop(data, writes, cancels, written, stored, progress, stop, lastPercent);
      && written <= run.written <= |data|
      && (run.ending == Finished ==> run.written == |data|)
      && (run.ending == Failed ==> run.written < |data| && Rejected in writes)
    decreases |data| - written
  {
    if written < |data| {
      var chunk := data[written .. written + Min(ChunkSize, |data| - written)];
      var n := WriteReturn(writes, |chunk|);
      if n != -1 && !stop {
        assert Rejected in Rest(writes) ==> Rejected in writes;
        var r := SaveReport(written + n, |data|, cancels, stop, lastPercent);
        SaveLoopCount(data, Rest(writes), r.cancels, written + n, stored + chunk[..n], progress + r.emitted,
                      r.stop, r.lastPercent);
      }
    }
  }

  /** Unless the save loop is stopped, the destination file holds exactly the bytes accounted for. */
  lemma {:induction false} SaveLoopStored(data: seq<Byte>, writes: seq<WriteResult>, cancels: seq<bool>, written: nat,
                                          stored: seq<Byte>, progress: seq<Event>, stop: bool, lastPercent: int)
    requires written <= |data| && stored == data[..written]
    ensures var run := SaveLoop(data, writes, cancels, written, stored, progress, stop, lastPercent);
      run.ending != Cancelled ==> run.written <= |data| && run.stored == data[..run.written]
    decreases |data| - written
  {
    if written < |data| {
      var chunk := data[written .. written + Min(ChunkSize, |data| - written)];
      var n := WriteReturn(writes, |chunk|);
      if n != -1 && !stop {
        PrefixGrows(data, written, |chunk|, n);
        var r := SaveReport(written + n, |data|, cancels, stop, lastPercent);
        SaveLoopStored(data, Rest(writes), r.cancels, written + n, stored + chunk[..n], progress + r.emitted,
                       r.stop, r.lastPercent);
      }
    }
  }

  /**
   * When the save loop is stopped, the destination file holds a prefix of the
   * buffer longer than the count accounted for: the last chunk written is
   * never counted.
   */
  lemma {:induction false} SaveLoopStoredCancelled(data: seq<Byte>, writes: seq<WriteResult>, cancels: seq<bool>,
                                                   written: nat, stored: seq<Byte>, progress: seq<Event>, stop: bool,
                                                   lastPercent: int)
    requires written <= |data| && stored == data[..written]
    ensures var run := SaveLoop(data, writes, cancels, written, stored, progress, stop, lastPercent);
      run.ending == Cancelled ==> run.written < |run.stored| <= |data| && run.stored == data[..|run.stored|]
    decreases |data| - written
  {
    if written < |data| {
      var chunk := data[written .. written + Min(ChunkSize, |data| - written)];
      var n := WriteReturn(writes, |chunk|);
      if n != -1 {
        PrefixGrows(data, written, |chunk|, n);
        if !stop {
          var r := SaveReport(written + n, |data|, cancels, stop, lastPercent);
          SaveLoopStoredCancelled(data, Rest(writes), r.cancels, written + n, stored + chunk[..n], progress + r.emitted,
                                  r.stop, r.lastPercent);
        }
      }
    }
  }

  /** The save loop's progress signals form a deduplicated stream ending, on completion, at the whole buffer. */
  lemma {:induction false} SaveLoopProgress(data: seq<Byte>, writes: seq<WriteResult>, cancels: seq<bool>, written: nat,
                                            stored: seq<Byte>, progress: seq<Event>, stop: bool, lastPercent: int,
                                            startPercent: int)
    requires written <= |data|
    requires ProgressKept(progress, false, |data|, startPercent, written, lastPercent)
    ensures var run := SaveLoop(data, writes, cancels, written, stored, progress, stop, lastPercent);
      && written <= run.written
      && ProgressKept(run.progress, false, |data|, startPercent, run.written, run.lastPercent)
    decreases |data| - written
  {
    if written < |data| {
      var chunk := data[written .. written + Min(ChunkSize, |data| - written)];
      var n := WriteReturn(writes, |chunk|);
      if n != -1 && !stop {
        var total := written + n;
        var stored' := stored + chunk[..n];
        var r := SaveReport(total, |data|, cancels, stop, lastPercent);
        SaveReportExtends(progress, total, |data|, cancels, stop, lastPercent, startPercent, written);
        SaveLoopProgress(data, Rest(writes), r.cancels, total, stored', progress + r.emitted, r.stop, r.lastPercent,
                         startPercent);
      }
    }
  }

  /** The stop flag after the save loop, and when the loop is sure to finish. */
  lemma {:induction false} SaveLoopFlags(data: seq<Byte>, writes: seq<WriteResult>, cancels: seq<bool>, written: nat,
                                         stored: seq<Byte>, progress: seq<Event>, stop: bool, lastPercent: int)
    requires written <= |data|
    ensures var run := SaveLoop(data, writes, cancels, written, stored, progress, stop, lastPercent);
      && (run.ending == Cancelled ==> !run.stop)
      && (run.ending != Cancelled && stop ==> run.stop)
      && (!stop && true !in cancels ==> run.ending != Cancelled && !run.stop)
      && (!stop && true !in cancels && Rejected !in writes ==> run.ending == Finished)
    decreases |data| - written
  {
    if written < |data| {
      var chunk := data[written .. written + Min(ChunkSize, |data| - written)];
      var n := WriteReturn(writes, |chunk|);
      if n != -1 && !stop {
        var total := written + n;
        var stored' := stored + chunk[..n];
        assert Rejected !in writes ==> Rejected !in Rest(writes);
        var r := SaveReport(total, |data|, cancels, stop, lastPercent);
        assert true !in cancels ==> true !in r.cancels && !r.stop;
        SaveLoopFlags(data, Rest(writes), r.cancels, total, stored', progress + r.emitted, r.stop, r.lastPercent);
      }
    }
  }

  /** The save loop facts for the run that `saveFile` starts. */
  lemma SaveRunFacts(w: WorkerState, data: seq<Byte>, writes: seq<WriteResult>, cancels: seq<bool>)
    ensures var run := SaveRunFor(w, data, writes, cancels);
      && run.written <= |data| && |run.stored| <= |data| && run.stored == data[..|run.stored|]
      && (run.ending == Finished ==> run.written == |data| && run.stored == data)
      && (run.ending == Failed ==> run.written < |data| && run.stored == data[..run.written] && Rejected in writes)
      && (run.ending == Cancelled ==> run.written < |run.stored| && !run.stop)
      && ProgressStream(run.progress, false, |data|, w.lastSavePercent, run.written)
      && run.lastPercent == CounterAfter(run.progress, |data|, w.lastSavePercent)
      && (run.written == |data| > 0 ==> run.progress != [] && Last(run.progress).bytes == |data|)
      && (run.ending != Cancelled && w.stop ==> run.stop)
      && (!w.stop && true !in cancels ==> run.ending != Cancelled && !run.stop)
      && (!w.stop && true !in cancels && Rejected !in writes ==> run.ending == Finished)
  {
    SaveLoopCount(data, writes, cancels, 0, [], [], w.stop, w.lastSavePercent);
    SaveLoopStored(data, writes, cancels, 0, [], [], w.stop, w.lastSavePercent);
    SaveLoopStoredCancelled(data, writes, cancels, 0, [], [], w.stop, w.lastSavePercent);
    SaveLoopProgress(data, writes, cancels, 0, [], [], w.stop, w.lastSavePercent, w.lastSavePercent);
    SaveLoopFlags(data, writes, cancels, 0, [], [], w.stop, w.lastSavePercent);
  }
  /** A missing file or one that does not open: a single `readError`, nothing else changes. */
  lemma ReadFileRejected(w: WorkerState, file: SourceFile, cancels: seq<bool>, elapsed: nat)
    requires !file.found || !file.opens
    ensures ReadFileSpec(w, file, cancels, elapsed)
         == w.(events := w.events + [ReadError(if file.found then CannotOpen else NotFound)])
  {
  }

  /**
   * A read that nothing stops and no empty read interrupts: the start signals,
   * a deduplicated progress stream ending at (size, size), then the whole
   * file; the duration is recorded and both flags end lowered.
   */
  lemma ReadFileSucceeds(w: WorkerState, file: SourceFile, cancels: seq<bool>, elapsed: nat)
    requires file.found && file.opens && !FaultWithin(file)
    requires !w.stop && true !in cancels
    ensures |ReadFileSpec(w, file, cancels, elapsed).events| >= |w.events| + 4
    ensures var r := ReadFileSpec(w, file, cancels, elapsed);
      var progress := r.events[|w.events| + 2 .. |r.events| - 2];
      && r.events == w.events + [StartRead(true), SetRotationDirection(true)] + progress
                     + [ReadFinished(file.contents), StoptRead(false)]
      && ProgressStream(progress, true, file.size, w.lastReadPercent, |file.contents|)
      && (file.size == 0 ==> progress == [])
      && (file.size == |file.contents| > 0 ==> progress != [] && Last(progress) == ReadProgress(file.size, file.size))
      && !r.start && !r.stop && r.lastOperationTime == elapsed
      && r.lastReadPercent == CounterAfter(progress, file.size, w.lastReadPercent)
      && r.lastSavePercent == w.lastSavePercent
  {
    ReadRunFacts(w, file, cancels);
    var run := ReadRunFor(w, file, cancels);
    var r := ReadFileSpec(w, file, cancels, elapsed);
    assert r.events == w.events + ReadHeader + run.progress + [ReadFinished(file.contents), StoptRead(false)];
    assert r.events[|w.events| + 2 .. |r.events| - 2] == run.progress;
  }

  /**
   * Any read that runs to its end: the payload is a prefix of the file, the
   * whole file unless an empty read inside it broke the loop; the duration is
   * recorded, `start` is lowered, and a raised stop flag stays raised.
   */
  lemma ReadFileFinished(w: WorkerState, file: SourceFile, cancels: seq<bool>, elapsed: nat)
    requires file.found && file.opens && ReadRunFor(w, file, cancels).ending == Finished
    ensures |ReadFileSpec(w, file, cancels, elapsed).events| >= |w.events| + 4
    ensures var r := ReadFileSpec(w, file, cancels, elapsed);
      var n := |r.events|;
      var progress := r.events[|w.events| + 2 .. n - 2];
      && r.events[..|w.events| + 2] == w.events + [StartRead(true), SetRotationDirection(true)]
      && ProgressStream(progress, true, file.size, w.lastReadPercent, |file.contents|)
      && r.events[n - 2].ReadFinished? && r.events[n - 1] == StoptRead(false)
      && (var payload := r.events[n - 2].data;
          && |payload| <= |file.contents| && payload == file.contents[..|payload|]
          && (!FaultWithin(file) ==> payload == file.contents))
      && !r.start && r.lastOperationTime == elapsed
      && (w.stop ==> r.stop)
  {
    ReadRunFacts(w, file, cancels);
    var run := ReadRunFor(w, file, cancels);
    var r := ReadFileSpec(w, file, cancels, elapsed);
    assert r.events == w.events + ReadHeader + run.progress + [ReadFinished(run.data), StoptRead(false)];
    assert r.events[|w.events| + 2 .. |r.events| - 2] == run.progress;
    ProgressStreamWiden(run.progress, true, file.size, w.lastReadPercent, |run.data|, |file.contents|);
  }

  /**
   * A read that sees the stop flag after a chunk: that chunk is dropped, the
   * buffer so far (whole chunks, short of the file) goes out in
   * `readFinished`, then `stoptRead(false)` and `cancelOperation_`; the flag
   * is lowered, `start` stays raised and no duration is recorded.
   */
  lemma ReadFileCancelled(w: WorkerState, file: SourceFile, cancels: seq<bool>, elapsed: nat)
    requires file.found && file.opens && ReadRunFor(w, file, cancels).ending == Cancelled
    ensures |ReadFileSpec(w, file, cancels, elapsed).events| >= |w.events| + 5
    ensures var r := ReadFileSpec(w, file, cancels, elapsed);
      var n := |r.events|;
      var progress := r.events[|w.events| + 2 .. n - 3];
      && r.events[..|w.events| + 2] == w.events + [StartRead(true), SetRotationDirection(true)]
      && ProgressStream(progress, true, file.size, w.lastReadPercent, |file.contents|)
      && r.events[n - 3].ReadFinished? && r.events[n - 2..] == [StoptRead(false), CancelOperationSignal]
      && (var payload := r.events[n - 3].data;
          && |payload| < |file.contents| && payload == file.contents[..|payload|]
          && |payload| % ChunkSize == 0)
      && !r.stop && r.start && r.lastOperationTime == w.lastOperationTime
  {
    ReadRunFacts(w, file, cancels);
    var run := ReadRunFor(w, file, cancels);
    var r := ReadFileSpec(w, file, cancels, elapsed);
    assert r.events == w.events + ReadHeader + run.progress
                       + [ReadFinished(run.data), StoptRead(false), CancelOperationSignal];
    assert r.events[|w.events| + 2 .. |r.events| - 3] == run.progress;
    ProgressStreamWiden(run.progress, true, file.size, w.lastReadPercent, |run.data|, |file.contents|);
  }

  /**
   * A read whose chunk comes back empty with an error: the start signals and
   * progress, then exactly one `readError`; `start` stays raised and no
   * duration is recorded.
   */
  lemma ReadFileFails(w: WorkerState, file: SourceFile, cancels: seq<bool>, elapsed: nat)
    requires file.found && file.opens && ReadRunFor(w, file, cancels).ending == Failed
    ensures |ReadFileSpec(w, file, cancels, elapsed).events| >= |w.events| + 3
    ensures var r := ReadFileSpec(w, file, cancels, elapsed);
      var n := |r.events|;
      var progress := r.events[|w.events| + 2 .. n - 1];
      && r.events == w.events + [StartRead(true), SetRotationDirection(true)] + progress + [ReadError(IoFailure)]
      && ProgressStream(progress, true, file.size, w.lastReadPercent, |file.contents|)
      && FaultWithin(file) && file.fault.ioError
      && r.start && r.lastOperationTime == w.lastOperationTime
  {
    ReadRunFacts(w, file, cancels);
    var run := ReadRunFor(w, file, cancels);
    var r := ReadFileSpec(w, file, cancels, elapsed);
    assert r.events == w.events + ReadHeader + run.progress + [ReadError(IoFailure)];
    assert r.events[|w.events| + 2 .. |r.events| - 1] == run.progress;
    ProgressStreamWiden(run.progress, true, file.size, w.lastReadPercent, |run.data|, |file.contents|);
  }

  /**
   * A stop flag left raised by an earlier operation cancels the next read of
   * a non-empty file at its first chunk, with an empty payload, although no
   * cancel was requested during it.
   */
  lemma ReadFileStaleStop(w: WorkerState, file: SourceFile, cancels: seq<bool>, elapsed: nat)
    requires file.found && file.opens && |file.contents| > 0 && w.stop
    requires !(file.fault.EmptyChunkAt? && file.fault.index == 0)
    ensures ReadFileSpec(w, file, cancels, elapsed)
         == w.(stop := false, start := true,
               events := w.events + [StartRead(true), SetRotationDirection(true),
                                     ReadFinished([]), StoptRead(false), CancelOperationSignal])
  {
  }

  /**
   * Flag lifetimes across `readFile`: `start` ends lowered exactly when the
   * read completes, a duration is recorded only then, and a raised stop flag
   * is lowered only on the cancel path.
   */
  lemma ReadFileFlags(w: WorkerState, file: SourceFile, cancels: seq<bool>, elapsed: nat)
    ensures var r := ReadFileSpec(w, file, cancels, elapsed);
      && |r.events| > |w.events|
      && (file.found && file.opens ==> (!r.start <==> Last(r.events) == StoptRead(false)))
      && (!(file.found && file.opens) ==> r.start == w.start && r.stop == w.stop)
      && (r.lastOperationTime != w.lastOperationTime ==> Last(r.events) == StoptRead(false))
      && (w.stop && !r.stop ==> Last(r.events) == CancelOperationSignal)
  {
    ReadRunFacts(w, file, cancels);
  }

  /** A destination that does not open: a single `saveError`, the file untouched, nothing else changes. */
  lemma SaveFileRejected(w: WorkerState, data: seq<Byte>, writes: seq<WriteResult>, cancels: seq<bool>, elapsed: nat)
    ensures SaveFileSpec(w, false, data, writes, cancels, elapsed)
         == SaveOutcome(w.(events := w.events + [SaveError(CannotOpen)]), None)
  {
  }

  /**
   * A save that nothing stops and no write rejects: the file ends equal to the
   * buffer, progress is a deduplicated stream ending at (size, size), then
   * `saveFinished` and `stopWrite(false)`; the duration is recorded and both
   * flags end lowered.
   */
  lemma SaveFileSucceeds(w: WorkerState, data: seq<Byte>, writes: seq<WriteResult>, cancels: seq<bool>, elapsed: nat)
    requires !w.stop && true !in cancels && Rejected !in writes
    ensures |SaveFileSpec(w, true, data, writes, cancels, elapsed).worker.events| >= |w.events| + 4
    ensures var out := SaveFileSpec(w, true, data, writes, cancels, elapsed);
      var r := out.worker;
      var progress := r.events[|w.events| + 2 .. |r.events| - 2];
      && out.file == Some(data)
      && r.events == w.events + [StartWrite(true), SetRotationDirection(false)] + progress + [SaveFinished, StopWrite(false)]
      && ProgressStream(progress, false, |data|, w.lastSavePercent, |data|)
      && (|data| == 0 ==> progress == [])
      && (|data| > 0 ==> progress != [] && Last(progress) == SaveProgress(|data|, |data|))
      && !r.start && !r.stop && r.lastOperationTime == elapsed
      && r.lastSavePercent == CounterAfter(progress, |data|, w.lastSavePercent)
      && r.lastReadPercent == w.lastReadPercent
  {
    SaveRunFacts(w, data, writes, cancels);
    var run := SaveRunFor(w, data, writes, cancels);
    var r := SaveFileSpec(w, true, data, writes, cancels, elapsed).worker;
    assert r.events == w.events + SaveHeader + run.progress + [SaveFinished, StopWrite(false)];
    assert r.events[|w.events| + 2 .. |r.events| - 2] == run.progress;
  }

  /**
   * A save of an empty buffer: no progress at all, straight to
   * `saveFinished` and `stopWrite(false)`, leaving an empty file.
   */
  lemma SaveFileEmpty(w: WorkerState, writes: seq<WriteResult>, cancels: seq<bool>, elapsed: nat)
    ensures SaveFileSpec(w, true, [], writes, cancels, elapsed)
         == SaveOutcome(w.(start := false, lastOperationTime := elapsed,
                           events := w.events + [StartWrite(true), SetRotationDirection(false),
                                                 SaveFinished, StopWrite(false)]),
                        Some([]))
  {
  }

  /**
   * A save that sees the stop flag after a write: that chunk is already in the
   * file but never counted, so the file holds more than any progress signal
   * reported; the worker then emits `readFinished` with the whole original
   * buffer, `stoptRead(false)` and `cancelOperation_`.
   */
  lemma SaveFileCancelled(w: WorkerState, data: seq<Byte>, writes: seq<WriteResult>, cancels: seq<bool>, elapsed: nat)
    requires SaveRunFor(w, data, writes, cancels).ending == Cancelled
    ensures |SaveFileSpec(w, true, data, writes, cancels, elapsed).worker.events| >= |w.events| + 5
    ensures var out := SaveFileSpec(w, true, data, writes, cancels, elapsed);
      var r := out.worker;
      var progress := r.events[|w.events| + 2 .. |r.events| - 3];
      && r.events == w.events + [StartWrite(true), SetRotationDirection(false)] + progress
                     + [ReadFinished(data), StoptRead(false), CancelOperationSignal]
      && out.file.Some? && |out.file.value| <= |data| && out.file.value == data[..|out.file.value|]
      && ProgressStream(progress, false, |data|, w.lastSavePercent, |out.file.value| - 1)
      && !r.stop && r.start && r.lastOperationTime == w.lastOperationTime
  {
    SaveRunFacts(w, data, writes, cancels);
    var run := SaveRunFor(w, data, writes, cancels);
    var r := SaveFileSpec(w, true, data, writes, cancels, elapsed).worker;
    assert r.events == w.events + SaveHeader + run.progress + [ReadFinished(data), StoptRead(false), CancelOperationSignal];
    assert r.events[|w.events| + 2 .. |r.events| - 3] == run.progress;
    ProgressStreamWiden(run.progress, false, |data|, w.lastSavePercent, run.written, |run.stored| - 1);
  }

  /**
   * A save whose write returns -1: progress so far, then exactly one
   * `saveError`; the file holds exactly the bytes accounted for, short of
   * the buffer, and `start` stays raised.
   */
  lemma SaveFileFails(w: WorkerState, data: seq<Byte>, writes: seq<WriteResult>, cancels: seq<bool>, elapsed: nat)
    requires SaveRunFor(w, data, writes, cancels).ending == Failed
    ensures |SaveFileSpec(w, true, data, writes, cancels, elapsed).worker.events| >= |w.events| + 3
    ensures var out := SaveFileSpec(w, true, data, writes, cancels, elapsed);
      var r := out.worker;
      var progress := r.events[|w.events| + 2 .. |r.events| - 1];
      && r.events == w.events + [StartWrite(true), SetRotationDirection(false)] + progress + [SaveError(IoFailure)]
      && out.file.Some? && |out.file.value| < |data| && out.file.value == data[..|out.file.value|]
      && ProgressStream(progress, false, |data|, w.lastSavePercent, |out.file.value|)
      && Rejected in writes
      && r.start && r.lastOperationTime == w.lastOperationTime
  {
    SaveRunFacts(w, data, writes, cancels);
    var run := SaveRunFor(w, data, writes, cancels);
    var r := SaveFileSpec(w, true, data, writes, cancels, elapsed).worker;
    assert r.events == w.events + SaveHeader + run.progress + [SaveError(IoFailure)];
    assert r.events[|w.events| + 2 .. |r.events| - 1] == run.progress;
  }

  /**
   * Flag lifetimes across `saveFile`: `start` ends lowered exactly when the
   * save completes, a duration is recorded only then, and a raised stop flag
   * is lowered only on the cancel path.
   */
  lemma SaveFileFlags(w: WorkerState, writable: bool, data: seq<Byte>, writes: seq<WriteResult>,
                      cancels: seq<bool>, elapsed: nat)
    ensures var r := SaveFileSpec(w, writable, data, writes, cancels, elapsed).worker;
      && |r.events| > |w.events|
      && (writable ==> (!r.start <==> Last(r.events) == StopWrite(false)))
      && (!writable ==> r.start == w.start && r.stop == w.stop)
      && (r.lastOperationTime != w.lastOperationTime ==> Last(r.events) == StopWrite(false))
      && (w.stop && !r.stop ==> Last(r.events) == CancelOperationSignal)
  {
    SaveRunFacts(w, data, writes, cancels);
  }

  /**
   * Writing a buffer with nothing stopping or rejecting it, then reading the
   * file back unhindered, hands the same bytes to `readFinished`.
   */
  lemma SaveThenReadRoundTrip(w: WorkerState, data: seq<Byte>, writes: seq<WriteResult>, elapsed: nat, elapsed': nat)
    requires !w.stop && Rejected !in writes
    ensures var saved := SaveFileSpec(w, true, data, writes, [], elapsed);
      && saved.file == Some(data)
      && (var r := ReadFileSpec(saved.worker, SourceFile(true, true, |data|, data, NoFault), [], elapsed');
          && |r.events| >= 2
          && r.events[|r.events| - 2..] == [ReadFinished(data), StoptRead(false)])
  {
    SaveFileSucceeds(w, data, writes, [], elapsed);
    var saved := SaveFileSpec(w, true, data, writes, [], elapsed);
    ReadFileSucceeds(saved.worker, SourceFile(true, true, |data|, data, NoFault), [], elapsed');
  }
}

/**
 * The application wired together: the window queues work to the file worker,
 * and every worker signal reaches the window's slots and the cube view's
 * `setRunning`, in emission order. Each user action is one step; a read or a
 * save runs to its end within the step, so the window and the view see the
 * whole burst of signals the operation emitted.
 */
module Session {
  import opened Transfer
  import opened TransferFacts
  import opened Controller
  import opened TransferChunks

  /** The cube view's run flag after one worker signal: only the start/stop signals reach `setRunning`. */
  function RunFlag(running: bool, e: Event): bool
  {
    match e
    case StartRead(r) => r
    case StoptRead(r) => r
    case StartWrite(r) => r
    case StopWrite(r) => r
    case _ => running
  }

  /** The cube view's run flag after the signals `es`. */
  function Spinning(running: bool, es: seq<Event>): bool
    decreases |es|
  {
    if es == [] then running else Spinning(RunFlag(running, es[0]), es[1..])
  }

  predicate AllProgress(es: seq<Event>)
  {
    forall i :: 0 <= i < |es| ==> es[i].ReadProgress? || es[i].SaveProgress?
  }

  /** The signals `readFile` emits in one call. */
  function ReadSignals(w: WorkerState, file: SourceFile, cancels: seq<bool>): seq<Event>
  {
    if !file.found then [ReadError(NotFound)]
    else if !file.opens then [ReadError(CannotOpen)]
    else
      var run := ReadRunFor(w, file, cancels);
      ReadHeader + run.progress + ReadTrailer(run)
  }

  /** The signals `saveFile` emits in one call. */
  function SaveSignals(w: WorkerState, writable: bool, data: seq<Byte>, writes: seq<WriteResult>,
                       cancels: seq<bool>): seq<Event>
  {
    if !writable then [SaveError(CannotOpen)]
    else
      var run := SaveRunFor(w, data, writes, cancels);
      SaveHeader + run.progress + SaveTrailer(run, data)
  }

  lemma ReadAppendsSignals(w: WorkerState, file: SourceFile, cancels: seq<bool>, elapsed: nat)
    ensures ReadFileSpec(w, file, cancels, elapsed).events == w.events + ReadSignals(w, file, cancels)
  {
  }

  lemma SaveAppendsSignals(w: WorkerState, writable: bool, data: seq<Byte>, writes: seq<WriteResult>,
                           cancels: seq<bool>, elapsed: nat)
    ensures SaveFileSpec(w, writable, data, writes, cancels, elapsed).worker.events
         == w.events + SaveSignals(w, writable, data, writes, cancels)
  {
  }

  /** Delivering two bursts one after the other is delivering their concatenation. */
  lemma {:induction false} DeliverAllAppend(w: Window, a: seq<Event>, b: seq<Event>)
    ensures DeliverAll(w, a + b) == DeliverAll(DeliverAll(w, a), b)
    decreases |a|
  {
    if a == [] {
      assert a + b == b;
    } else {
      assert (a + b)[0] == a[0];
      assert (a + b)[1..] == a[1..] + b;
      DeliverAllAppend(Deliver(w, a[0]), a[1..], b);
    }
  }

  lemma {:induction false} SpinningAppend(running: bool, a: seq<Event>, b: seq<Event>)
    ensures Spinning(running, a + b) == Spinning(Spinning(running, a), b)
    decreases |a|
  {
    if a == [] {
      assert a + b == b;
    } else {
      assert (a + b)[0] == a[0];
      assert (a + b)[1..] == a[1..] + b;
      SpinningAppend(RunFlag(running, a[0]), a[1..], b);
    }
  }

  /** Progress signals move the progress bar and nothing else. */
  lemma {:induction false} DeliverProgressOnly(w: Window, p: seq<Event>)
    requires AllProgress(p)
    ensures DeliverAll(w, p) == w.(progressValue := DeliverAll(w, p).progressValue)
    decreases |p|
  {
    if p != [] {
      var v := Deliver(w, p[0]);
      assert p[0].ReadProgress? || p[0].SaveProgress?;
      DeliverProgressStep(w, p[0]);
      RestIsProgress(p);
      DeliverProgressOnly(v, p[1..]);
    }
  }

  /** One progress signal moves the progress bar and nothing else. */
  lemma DeliverProgressStep(w: Window, e: Event)
    requires e.ReadProgress? || e.SaveProgress?
    ensures Deliver(w, e) == w.(progressValue := Deliver(w, e).progressValue)
  {
  }

  /** Progress signals do not reach the cube view. */
  lemma {:induction false} SpinningIgnoresProgress(running: bool, p: seq<Event>)
    requires AllProgress(p)
    ensures Spinning(running, p) == running
    decreases |p|
  {
    if p != [] {
      assert p[0].ReadProgress? || p[0].SaveProgress?;
      RestIsProgress(p);
      SpinningIgnoresProgress(running, p[1..]);
    }
  }

  lemma RestIsProgress(p: seq<Event>)
    requires AllProgress(p) && p != []
    ensures AllProgress(p[1..])
  {
    forall i | 0 <= i < |p[1..]|
      ensures p[1..][i].ReadProgress? || p[1..][i].SaveProgress?
    {
      assert p[1..][i] == p[i + 1];
    }
  }

  lemma DeliverOne(w: Window, running: bool, e: Event)
    ensures DeliverAll(w, [e]) == Deliver(w, e)
    ensures Spinning(running, [e]) == RunFlag(running, e)
  {
    assert [e][1..] == [];
  }

  lemma DeliverCons(w: Window, running: bool, e: Event, es: seq<Event>)
    ensures DeliverAll(w, [e] + es) == DeliverAll(Deliver(w, e), es)
    ensures Spinning(running, [e] + es) == Spinning(RunFlag(running, e), es)
  {
    assert ([e] + es)[0] == e;
    assert ([e] + es)[1..] == es;
  }

  /** What the window and the view make of the end of a read burst. */
  lemma DeliverReadTrailer(win: Window, running: bool, run: ReadRun)
    ensures DeliverAll(win, ReadTrailer(run)) == match run.ending
      case Finished => ReadFinishedSpec(win, run.data)
      case Cancelled => CancelledSpec(ReadFinishedSpec(win, run.data))
      case Failed => ReadErrorSpec(win, IoFailure)
    ensures Spinning(running, ReadTrailer(run)) == (run.ending == Failed && running)
  {
    var v := ReadFinishedSpec(win, run.data);
    match run.ending
    case Finished =>
      DeliverCons(win, running, ReadFinished(run.data), [StoptRead(false)]);
      DeliverOne(v, running, StoptRead(false));
    case Cancelled =>
      DeliverCons(win, running, ReadFinished(run.data), [StoptRead(false), CancelOperationSignal]);
      DeliverCons(v, running, StoptRead(false), [CancelOperationSignal]);
      DeliverOne(v, false, CancelOperationSignal);
    case Failed =>
      DeliverOne(win, running, ReadError(IoFailure));
  }

  /** What the window and the view make of the end of a save burst. */
  lemma DeliverSaveTrailer(win: Window, running: bool, run: SaveRun, data: seq<Byte>)
    ensures DeliverAll(win, SaveTrailer(run, data)) == match run.ending
      case Finished => SaveFinishedSpec(win)
      case Cancelled => CancelledSpec(ReadFinishedSpec(win, data))
      case Failed => SaveErrorSpec(win, IoFailure)
    ensures Spinning(running, SaveTrailer(run, data)) == (run.ending == Failed && running)
  {
    var v := ReadFinishedSpec(win, data);
    match run.ending
    case Finished =>
      DeliverCons(win, running, SaveFinished, [StopWrite(false)]);
      DeliverOne(SaveFinishedSpec(win), running, StopWrite(false));
    case Cancelled =>
      DeliverCons(win, running, ReadFinished(data), [StoptRead(false), CancelOperationSignal]);
      DeliverCons(v, running, StoptRead(false), [CancelOperationSignal]);
      DeliverOne(v, false, CancelOperationSignal);
    case Failed =>
      DeliverOne(win, running, SaveError(IoFailure));
  }

  /**
   * Within the total, a progress burst leaves the bar at the percentage of its
   * last signal.
   */
  lemma {:induction false} DeliverProgressValue(w: Window, p: seq<Event>, read: bool, total: int)
    requires ProgressSignals(p, read, total, total)
    ensures DeliverAll(w, p).progressValue == if p == [] then w.progressValue else Percent(Last(p).bytes, total)
    decreases |p|
  {
    if p != [] {
      PercentageBounds(p[0].bytes, total);
      var rest := p[1..];
      assert ProgressSignals(rest, read, total, total) by {
        forall i | 0 <= i < |rest|
          ensures (rest[i].ReadProgress? || rest[i].SaveProgress?) && rest[i].ReadProgress? == read
          ensures rest[i].total == total && 0 < rest[i].bytes <= total
        {
          assert rest[i] == p[i + 1];
        }
      }
      DeliverProgressValue(Deliver(w, p[0]), rest, read, total);
      if rest != [] {
        assert Last(rest) == Last(p);
      }
    }
  }

  lemma ProgressStreamIsProgress(p: seq<Event>, read: bool, total: int, startPercent: int, upTo: int)
    requires ProgressStream(p, read, total, startPercent, upTo)
    ensures AllProgress(p)
  {
    ProgressStreamMeans(p, read, total, startPercent, upTo);
  }

  /** How one read burst is taken apart: header, progress, trailer. */
  lemma ReadBurst(win: Window, running: bool, w: WorkerState, file: SourceFile, cancels: seq<bool>)
    requires file.found && file.opens
    ensures var run := ReadRunFor(w, file, cancels);
      var v := win.(progressValue := DeliverAll(win, run.progress).progressValue);
      && DeliverAll(win, ReadSignals(w, file, cancels)) == (match run.ending
           case Finished => ReadFinishedSpec(v, run.data)
           case Cancelled => CancelledSpec(ReadFinishedSpec(v, run.data))
           case Failed => ReadErrorSpec(v, IoFailure))
      && Spinning(running, ReadSignals(w, file, cancels)) == (run.ending == Failed)
  {
    var run := ReadRunFor(w, file, cancels);
    ReadRunFacts(w, file, cancels);
    ProgressStreamIsProgress(run.progress, true, file.size, w.lastReadPercent, |run.data|);
    DeliverAllAppend(win, ReadHeader + run.progress, ReadTrailer(run));
    DeliverAllAppend(win, ReadHeader, run.progress);
    SpinningAppend(running, ReadHeader + run.progress, ReadTrailer(run));
    SpinningAppend(running, ReadHeader, run.progress);
    assert DeliverAll(win, ReadHeader) == win;
    assert Spinning(running, ReadHeader) == true;
    DeliverProgressOnly(win, run.progress);
    SpinningIgnoresProgress(true, run.progress);
    DeliverReadTrailer(win.(progressValue := DeliverAll(win, run.progress).progressValue), true, run);
  }

  lemma SaveBurst(win: Window, running: bool, w: WorkerState, data: seq<Byte>, writes: seq<WriteResult>,
                  cancels: seq<bool>)
    ensures var run := SaveRunFor(w, data, writes, cancels);
      var v := win.(progressValue := DeliverAll(win, run.progress).progressValue);
      && DeliverAll(win, SaveSignals(w, true, data, writes, cancels)) == (match run.ending
           case Finished => SaveFinishedSpec(v)
           case Cancelled => CancelledSpec(ReadFinishedSpec(v, data))
           case Failed => SaveErrorSpec(v, IoFailure))
      && Spinning(running, SaveSignals(w, true, data, writes, cancels)) == (run.ending == Failed)
  {
    var run := SaveRunFor(w, data, writes, cancels);
    SaveRunFacts(w, data, writes, cancels);
    ProgressStreamIsProgress(run.progress, false, |data|, w.lastSavePercent, run.written);
    DeliverAllAppend(win, SaveHeader + run.progress, SaveTrailer(run, data));
    DeliverAllAppend(win, SaveHeader, run.progress);
    SpinningAppend(running, SaveHeader + run.progress, SaveTrailer(run, data));
    SpinningAppend(running, SaveHeader, run.progress);
    assert DeliverAll(win, SaveHeader) == win;
    assert Spinning(running, SaveHeader) == true;
    DeliverProgressOnly(win, run.progress);
    SpinningIgnoresProgress(true, run.progress);
    DeliverSaveTrailer(win.(progressValue := DeliverAll(win, run.progress).progressValue), true, run, data);
  }

  /** A missing or unopenable source: one error box, the read controls come back, the view is untouched. */
  lemma ReadRejectedReaches(win: Window, running: bool, w: WorkerState, file: SourceFile, cancels: seq<bool>)
    requires !file.found || !file.opens
    ensures DeliverAll(win, ReadSignals(w, file, cancels))
         == ReadErrorSpec(win, if !file.found then NotFound else CannotOpen)
    ensures Spinning(running, ReadSignals(w, file, cancels)) == running
  {
  }

  /**
   * An unhindered read of a file whose reported size is its length: the
   * window holds exactly the file, marks it loaded, hides the bar (left at
   * 100 for a non-empty file), gives back the read controls and offers saving
   * when a destination is typed; the cube stops.
   */
  lemma ReadSucceedsReaches(win: Window, running: bool, w: WorkerState, file: SourceFile, cancels: seq<bool>)
    requires file.found && file.opens && !FaultWithin(file) && file.size == |file.contents|
    requires !w.stop && true !in cancels
    ensures DeliverAll(win, ReadSignals(w, file, cancels))
         == win.(fileData := file.contents, fileLoaded := true, progressVisible := false,
                 readEnabled := true, browseSourceEnabled := true, saveEnabled := win.destinationText != "",
                 progressValue := if file.contents == [] then win.progressValue else 100)
    ensures !Spinning(running, ReadSignals(w, file, cancels))
  {
    var run := ReadRunFor(w, file, cancels);
    ReadRunFacts(w, file, cancels);
    ReadBurst(win, running, w, file, cancels);
    ProgressStreamMeans(run.progress, true, file.size, w.lastReadPercent, |run.data|);
    DeliverProgressValue(win, run.progress, true, file.size);
    if file.contents != [] {
      PercentageBounds(file.size, file.size);
    }
  }

  /**
   * A cancelled read: the window takes the partial buffer (a strict prefix of
   * the file, in whole chunks) as loaded data, hides the bar, gives back the
   * read controls and offers saving when a destination is typed; the cube
   * stops.
   */
  lemma ReadCancelledReaches(win: Window, running: bool, w: WorkerState, file: SourceFile, cancels: seq<bool>)
    requires file.found && file.opens && ReadRunFor(w, file, cancels).ending == Cancelled
    ensures var v := DeliverAll(win, ReadSignals(w, file, cancels));
      && v.fileLoaded && |v.fileData| < |file.contents| && v.fileData == file.contents[..|v.fileData|]
      && |v.fileData| % ChunkSize == 0
      && !v.progressVisible && v.readEnabled && v.browseSourceEnabled
      && v.saveEnabled == (win.destinationText != "")
      && v.requests == win.requests && v.notices == win.notices
    ensures !Spinning(running, ReadSignals(w, file, cancels))
  {
    ReadRunFacts(w, file, cancels);
    ReadBurst(win, running, w, file, cancels);
  }

  /**
   * A read that hits an I/O error: one error box, the read controls come back,
   * the loaded data and the save button are as before, and the cube keeps
   * spinning because no stop signal follows the error.
   */
  lemma ReadFailsReaches(win: Window, running: bool, w: WorkerState, file: SourceFile, cancels: seq<bool>)
    requires file.found && file.opens && ReadRunFor(w, file, cancels).ending == Failed
    ensures var v := DeliverAll(win, ReadSignals(w, file, cancels));
      v == ReadErrorSpec(win, IoFailure).(progressValue := v.progressValue)
    ensures Spinning(running, ReadSignals(w, file, cancels))
  {
    ReadBurst(win, running, w, file, cancels);
  }

  /** A destination that does not open: one error box and the save controls come back. */
  lemma SaveRejectedReaches(win: Window, running: bool, w: WorkerState, data: seq<Byte>, writes: seq<WriteResult>,
                            cancels: seq<bool>)
    ensures DeliverAll(win, SaveSignals(w, false, data, writes, cancels)) == SaveErrorSpec(win, CannotOpen)
    ensures Spinning(running, SaveSignals(w, false, data, writes, cancels)) == running
  {
  }

  /**
   * An unhindered save: a success box, the save controls come back, the bar
   * is hidden (left at 100 for a non-empty buffer); the cube stops.
   */
  lemma SaveSucceedsReaches(win: Window, running: bool, w: WorkerState, data: seq<Byte>, writes: seq<WriteResult>,
                            cancels: seq<bool>)
    requires !w.stop && true !in cancels && Rejected !in writes
    ensures DeliverAll(win, SaveSignals(w, true, data, writes, cancels))
         == SaveFinishedSpec(win).(progressValue := if data == [] then win.progressValue else 100)
    ensures !Spinning(running, SaveSignals(w, true, data, writes, cancels))
  {
    var run := SaveRunFor(w, data, writes, cancels);
    SaveRunFacts(w, data, writes, cancels);
    SaveBurst(win, running, w, data, writes, cancels);
    ProgressStreamWiden(run.progress, false, |data|, w.lastSavePercent, run.written, |data|);
    ProgressStreamMeans(run.progress, false, |data|, w.lastSavePercent, |data|);
    DeliverProgressValue(win, run.progress, false, |data|);
    if data != [] {
      PercentageBounds(|data|, |data|);
    }
  }

  /**
   * A cancelled save: the window is handed back the buffer it sent (as a
   * read result), hides the bar and gives back the read controls; the save
   * button follows the destination text, but the destination's browse button
   * stays as it was (disabled by the save request); the cube stops.
   */
  lemma SaveCancelledReaches(win: Window, running: bool, w: WorkerState, data: seq<Byte>, writes: seq<WriteResult>,
                             cancels: seq<bool>)
    requires SaveRunFor(w, data, writes, cancels).ending == Cancelled
    ensures var v := DeliverAll(win, SaveSignals(w, true, data, writes, cancels));
      && v.fileData == data && v.fileLoaded
      && !v.progressVisible && v.readEnabled && v.browseSourceEnabled
      && v.saveEnabled == (win.destinationText != "")
      && v.browseDestinationEnabled == win.browseDestinationEnabled
      && v.requests == win.requests && v.notices == win.notices
    ensures !Spinning(running, SaveSignals(w, true, data, writes, cancels))
  {
    SaveBurst(win, running, w, data, writes, cancels);
  }

  /** A save that a write rejects: one error box and the save controls come back; the cube keeps spinning. */
  lemma SaveFailsReaches(win: Window, running: bool, w: WorkerState, data: seq<Byte>, writes: seq<WriteResult>,
                         cancels: seq<bool>)
    requires SaveRunFor(w, data, writes, cancels).ending == Failed
    ensures var v := DeliverAll(win, SaveSignals(w, true, data, writes, cancels));
      v == SaveErrorSpec(win, IoFailure).(progressValue := v.progressValue)
    ensures Spinning(running, SaveSignals(w, true, data, writes, cancels))
  {
    SaveBurst(win, running, w, data, writes, cancels);
  }

  /** The window, the worker and the cube view's run flag. */
  datatype System = System(window: Window, worker: WorkerState, spinning: bool)

  /**
   * One user action. The file system's answers for a read or save and the
   * cancel clicks during it are part of the action.
   */
  datatype Action =
    | TypeSource(text: string)
    | TypeDestination(text: string)
    | PickSource(fileName: string)
    | PickDestination(fileName: string)
    | ClickRead(info: PathInfo, file: SourceFile, cancels: seq<bool>, elapsed: nat)
    | ClickSave(writable: bool, writes: seq<WriteResult>, cancels: seq<bool>, elapsed: nat)
    | ClickCancel

  function Start(): System
  {
    System(Initial(), WorkerState(false, false, 0, 0, 0, []), false)
  }

  /**
   * One user action. A click on Read or Save is taken whatever the button's
   * enabled state: this admits more runs than the window allows, so what
   * holds of every run holds of the window's.
   */
  function Step(s: System, a: Action): System
  {
    match a
    case TypeSource(text) => s.(window := EditSource(s.window, text))
    case TypeDestination(text) => s.(window := EditDestination(s.window, text))
    case PickSource(fileName) => s.(window := SelectSource(s.window, fileName))
    case PickDestination(fileName) => s.(window := SelectDestination(s.window, fileName))
    case ClickRead(info, file, cancels, elapsed) =>
      var win := ReadClicked(s.window, info);
      if ReadGuard(s.window.sourcePath, info).Some? then s.(window := win)
      else
        var es := ReadSignals(s.worker, file, cancels);
        System(DeliverAll(win, es), ReadFileSpec(s.worker, file, cancels, elapsed), Spinning(s.spinning, es))
    case ClickSave(writable, writes, cancels, elapsed) =>
      var win := SaveClicked(s.window);
      if SaveGuard(s.window).Some? then s.(window := win)
      else
        var es := SaveSignals(s.worker, writable, s.window.fileData, writes, cancels);
        System(DeliverAll(win, es), SaveFileSpec(s.worker, writable, s.window.fileData, writes, cancels, elapsed).worker,
               Spinning(s.spinning, es))
    case ClickCancel => s.(worker := s.worker.(stop := s.worker.stop || s.worker.start))
  }

  /** What the user selected or typed and the requests queued so far. */
  datatype Selection = Selection(sourcePath: string, destinationPath: string, sourceText: string,
                                 destinationText: string, requests: seq<Request>)

  function SelectionOf(w: Window): Selection
  {
    Selection(w.sourcePath, w.destinationPath, w.sourceText, w.destinationText, w.requests)
  }

  /**
   * The worker's signals never change what is selected or typed, never queue
   * a request, never unload data, and only add message boxes.
   */
  lemma {:induction false} DeliverKeepsSelection(w: Window, es: seq<Event>)
    ensures var v := DeliverAll(w, es);
      && SelectionOf(v) == SelectionOf(w) && w.notices <= v.notices
      && (w.fileLoaded ==> v.fileLoaded)
    decreases |es|
  {
    if es != [] {
      var v := Deliver(w, es[0]);
      DeliverOneKeepsSelection(w, es[0]);
      DeliverKeepsSelection(v, es[1..]);
      assert DeliverAll(w, es) == DeliverAll(v, es[1..]);
    }
  }

  lemma DeliverOneKeepsSelection(w: Window, e: Event)
    ensures var v := Deliver(w, e);
      && SelectionOf(v) == SelectionOf(w) && w.notices <= v.notices
      && (w.fileLoaded ==> v.fileLoaded)
  {
    match e
    case ReadError(reason) =>
      assert w.notices <= w.notices + [ReadErrorBox(reason)];
    case SaveFinished =>
      assert w.notices <= w.notices + [SavedBox];
    case SaveError(reason) =>
      assert w.notices <= w.notices + [SaveErrorBox(reason)];
    case _ =>
  }

  /**
   * What every action keeps: the save button tied to loaded data, loaded data
   * never unloaded, and the request and message logs only appended to.
   */
  ghost predicate Keeps(s: System, t: System)
  {
    && SaveNeedsData(t.window)
    && (s.window.fileLoaded ==> t.window.fileLoaded)
    && s.window.requests <= t.window.requests && s.window.notices <= t.window.notices
  }

  /** Clicking Read keeps the save button tied to loaded data. */
  lemma ReadStepKeepsSaveNeedsData(s: System, info: PathInfo, file: SourceFile, cancels: seq<bool>, elapsed: nat)
    requires SaveNeedsData(s.window)
    ensures Keeps(s, Step(s, ClickRead(info, file, cancels, elapsed)))
  {
    var win := ReadClicked(s.window, info);
    if ReadGuard(s.window.sourcePath, info).None? {
      assert SaveNeedsData(win);
      if !file.found || !file.opens {
        ReadRejectedReaches(win, s.spinning, s.worker, file, cancels);
      } else {
        ReadBurst(win, s.spinning, s.worker, file, cancels);
      }
      DeliverKeepsSelection(win, ReadSignals(s.worker, file, cancels));
    }
  }

  /** Clicking Save keeps the save button tied to loaded data: it goes ahead only with data loaded. */
  lemma SaveStepKeepsSaveNeedsData(s: System, writable: bool, writes: seq<WriteResult>, cancels: seq<bool>,
                                   elapsed: nat)
    requires SaveNeedsData(s.window)
    ensures Keeps(s, Step(s, ClickSave(writable, writes, cancels, elapsed)))
  {
    if SaveGuard(s.window).None? {
      var win := SaveClicked(s.window);
      assert win.fileLoaded;
      DeliverKeepsSelection(win, SaveSignals(s.worker, writable, s.window.fileData, writes, cancels));
    }
  }

  /**
   * Every action keeps the save button tied to loaded data, never unloads
   * data, and only appends to the request and message logs. The window's own
   * cancel slot enables saving without looking at the loaded flag; it is safe
   * only because the worker sends a read result before every cancel signal.
   */
  lemma StepKeepsSaveNeedsData(s: System, a: Action)
    requires SaveNeedsData(s.window)
    ensures Keeps(s, Step(s, a))
  {
    match a
    case ClickRead(info, file, cancels, elapsed) =>
      ReadStepKeepsSaveNeedsData(s, info, file, cancels, elapsed);
    case ClickSave(writable, writes, cancels, elapsed) =>
      SaveStepKeepsSaveNeedsData(s, writable, writes, cancels, elapsed);
    case _ =>
  }

  /** From a fresh start, every sequence of actions keeps the save button tied to loaded data. */
  lemma {:induction false} RunKeepsSaveNeedsData(actions: seq<Action>)
    ensures SaveNeedsData(Run(Start(), actions).window)
    decreases |actions|
  {
    if actions != [] {
      RunKeepsSaveNeedsData(actions[..|actions| - 1]);
      StepKeepsSaveNeedsData(Run(Start(), actions[..|actions| - 1]), actions[|actions| - 1]);
    }
  }

  function Run(s: System, actions: seq<Action>): System
    decreases |actions|
  {
    if actions == [] then s else Step(Run(s, actions[..|actions| - 1]), actions[|actions| - 1])
  }

  /**
   * A read that fails leaves the worker's start flag raised, so a later click
   * on Cancel with nothing running raises the stop flag, and the next read of
   * a non-empty file is cancelled at its first chunk with nothing loaded.
   */
  lemma StaleCancelSpoilsNextRead(s: System, info: PathInfo, file: SourceFile, cancels: seq<bool>, elapsed: nat,
                                  next: SourceFile, cancels': seq<bool>, elapsed': nat)
    requires ReadGuard(s.window.sourcePath, info).None?
    requires file.found && file.opens && ReadRunFor(s.worker, file, cancels).ending == Failed
    requires next.found && next.opens && |next.contents| > 0
    requires !(next.fault.EmptyChunkAt? && next.fault.index == 0)
    ensures var t := Step(Step(Step(s, ClickRead(info, file, cancels, elapsed)), ClickCancel),
                          ClickRead(info, next, cancels', elapsed'));
      && t.window.fileData == [] && t.window.fileLoaded
      && t.worker.events != [] && Last(t.worker.events) == CancelOperationSignal
  {
    var s1 := Step(s, ClickRead(info, file, cancels, elapsed));
    ReadFileFails(s.worker, file, cancels, elapsed);
    DeliverKeepsSelection(ReadClicked(s.window, info), ReadSignals(s.worker, file, cancels));
    assert s1.worker.start;
    assert s1.window.sourcePath == s.window.sourcePath;
    var s2 := Step(s1, ClickCancel);
    assert s2.worker.stop;
    ReadFileStaleStop(s2.worker, next, cancels', elapsed');
    var run := ReadRunFor(s2.worker, next, cancels');
    assert run.data == [] && run.ending == Cancelled;
    ReadBurst(ReadClicked(s2.window, info), s2.spinning, s2.worker, next, cancels');
  }

  /**
   * A cancel taken in at the last `processEvents()` of a one-chunk read that
   * then completes leaves the stop flag raised, so the next read of a
   * non-empty file is cancelled at its first chunk with nothing loaded.
   */
  lemma LateCancelSpoilsNextRead(s: System, info: PathInfo, file: SourceFile, elapsed: nat,
                                 next: SourceFile, cancels': seq<bool>, elapsed': nat)
    requires ReadGuard(s.window.sourcePath, info).None? && !s.worker.stop
    requires file.found && file.opens && !FaultWithin(file)
    requires 0 < |file.contents| <= ChunkSize && file.size == |file.contents|
    requires next.found && next.opens && |next.contents| > 0
    requires !(next.fault.EmptyChunkAt? && next.fault.index == 0)
    ensures var s1 := Step(s, ClickRead(info, file, [true], elapsed));
      var t := Step(s1, ClickRead(info, next, cancels', elapsed'));
      && s1.window.fileData == file.contents && s1.worker.stop
      && t.window.fileData == [] && t.window.fileLoaded
      && t.worker.events != [] && Last(t.worker.events) == CancelOperationSignal
  {
    var s1 := Step(s, ClickRead(info, file, [true], elapsed));
    ReadFileLateCancel(s.worker, file, elapsed);
    ReadLoopLateCancel(file, s.worker.lastReadPercent);
    ReadBurst(ReadClicked(s.window, info), s.spinning, s.worker, file, [true]);
    DeliverKeepsSelection(ReadClicked(s.window, info), ReadSignals(s.worker, file, [true]));
    assert s1.window.sourcePath == s.window.sourcePath;
    ReadFileStaleStop(s1.worker, next, cancels', elapsed');
    var run := ReadRunFor(s1.worker, next, cancels');
    assert run.data == [] && run.ending == Cancelled;
    ReadBurst(ReadClicked(s1.window, info), s1.spinning, s1.worker, next, cancels');
  }
}

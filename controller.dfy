/**
 * The main window's controller logic: the file-type label, the progress-bar
 * arithmetic, the guards in front of read and save, the enabled state of the
 * buttons, and how the window reacts to each signal of the file worker.
 * Widgets are reduced to the state the controller reads and writes; requests
 * queued to the worker and message boxes shown to the user are logged in
 * order.
 */
module Controller {
  import opened Transfer

  /** ASCII upper-casing of one character. */
  function UpperChar(c: char): (u: char)
    ensures 'a' <= c <= 'z' ==> 'A' <= u <= 'Z' && u as int - c as int == 'A' as int - 'a' as int
    ensures !('a' <= c <= 'z') ==> u == c
  {
    if 'a' <= c <= 'z' then (c as int - 'a' as int + 'A' as int) as char else c
  }

  function UpperCase(s: string): (r: string)
    ensures |r| == |s| && forall i :: 0 <= i < |s| ==> r[i] == UpperChar(s[i])
  {
    if s == [] then [] else [UpperChar(s[0])] + UpperCase(s[1..])
  }

  /** Index of the last `c` in `s`, or -1 when there is none. */
  function LastIndexOf(s: string, c: char): (i: int)
    ensures -1 <= i < |s|
    ensures i == -1 <==> c !in s
    ensures i >= 0 ==> s[i] == c && c !in s[i + 1..]
  {
    if s == [] then -1
    else if s[|s| - 1] == c then |s| - 1
    else
      assert s == s[..|s| - 1] + [s[|s| - 1]];
      LastIndexOf(s[..|s| - 1], c)
  }

  const FileSuffix := " File"

  /**
   * The type label of a file name: the text after the last dot, upper-cased,
   * followed by " File"; plain "File" when there is no dot or nothing after
   * the last one.
   */
  function FileType(fileName: string): (r: string)
    ensures r == "File" <==> '.' !in fileName || fileName[|fileName| - 1] == '.'
    ensures r != "File" ==> |r| > |FileSuffix| && r[|r| - |FileSuffix|..] == FileSuffix
    ensures r != "File" ==>
      var ext := |r| - |FileSuffix|;
      && ext < |fileName| && fileName[|fileName| - ext - 1] == '.'
      && '.' !in fileName[|fileName| - ext..]
      && r[..ext] == UpperCase(fileName[|fileName| - ext..])
  {
    var dot := LastIndexOf(fileName, '.');
    if dot != -1 && dot < |fileName| - 1 then
      var ext := fileName[dot + 1..];
      assert fileName[|fileName| - 1] in ext;
      UpperCase(ext) + FileSuffix
    else
      "File"
  }

  /** C++ integer division, which truncates toward zero. */
  function Quot(a: int, b: int): int
    requires b > 0
  {
    if a >= 0 then a / b else -((-a) / b)
  }

  /** The quotient rounds toward zero: down for a non-negative dividend, up for a negative one. */
  lemma QuotBounds(a: int, b: int)
    requires b > 0
    ensures var q := Quot(a, b);
      && (0 <= a ==> 0 <= q * b <= a < q * b + b)
      && (a < 0 ==> q * b - b < a <= q * b <= 0)
  {
    if a >= 0 {
      DivisionBounds(a, b);
    } else {
      DivisionBounds(-a, b);
    }
  }

  lemma DivisionBounds(n: int, d: int)
    requires n >= 0 && d > 0
    ensures 0 <= (n / d) * d <= n < (n / d) * d + d
  {
    assert n == (n / d) * d + n % d;
    assert n / d >= 0;
  }

  /** The percentage the window shows for `bytes` out of `total`. */
  function Percentage(bytes: int, total: int): int
    requires total > 0
  {
    Quot(bytes * 100, total)
  }

  /**
   * For a count within the total, the window's percentage is the worker's
   * (both truncate), lies in 0..100 and is 100 exactly at the total.
   */
  lemma PercentageBounds(bytes: int, total: int)
    requires 0 <= bytes <= total && total > 0
    ensures Percentage(bytes, total) == Percent(bytes, total)
    ensures 0 <= Percentage(bytes, total) <= 100
    ensures Percentage(bytes, total) == 100 <==> bytes == total
  {
    var a := bytes * 100;
    var q := a / total;
    assert Percentage(bytes, total) == q;
    DivisionBounds(a, total);
    assert a <= total * 100;
    if q > 100 {
      ScaleUp(q - 100, total);
      assert false;
    }
    if q == 100 && bytes < total {
      ScaleUp(total - bytes, 100);
      assert false;
    }
    if bytes == total {
      assert a == 100 * total;
      if q < 100 {
        ScaleUp(100 - q, total);
      }
    }
  }

  /** A positive multiple of `t` is at least `t`. */
  lemma ScaleUp(k: int, t: int)
    requires k >= 1 && t > 0
    ensures k * t >= t
  {
  }

  /** The progress bar keeps its value when asked to show one outside its range 0..100. */
  function BarValue(current: int, value: int): int
  {
    if 0 <= value <= 100 then value else current
  }

  datatype Warning = NoSourceSelected | SourceMissing | SourceNotAFile | NoDestinationSelected | NothingLoaded

  /** What the window shows in a message box. */
  datatype Notice = Warned(warning: Warning) | ReadErrorBox(reason: Failure) | SavedBox | SaveErrorBox(reason: Failure)

  /** Work the window queues to the file worker. */
  datatype Request = ReadRequest(path: string) | SaveRequest(path: string, data: seq<Byte>)

  /** What the file system says about the selected source path. */
  datatype PathInfo = PathInfo(found: bool, isFile: bool)

  datatype Window = Window(
    sourcePath: string, destinationPath: string,
    sourceText: string, destinationText: string,
    fileData: seq<Byte>, fileLoaded: bool,
    readEnabled: bool, browseSourceEnabled: bool,
    saveEnabled: bool, browseDestinationEnabled: bool,
    progressValue: int, progressVisible: bool,
    requests: seq<Request>, notices: seq<Notice>)

  /** A fresh window: nothing selected or loaded, read and save disabled, the bar hidden and reset (-1). */
  function Initial(): Window
  {
    Window("", "", "", "", [], false, false, true, false, true, -1, false, [], [])
  }

  /** The window may offer saving only once it holds file data. */
  predicate SaveNeedsData(w: Window)
  {
    w.saveEnabled ==> w.fileLoaded
  }

  /** The source line edit changes: the read button follows whether it is empty. */
  function EditSource(w: Window, text: string): Window
  {
    if text == w.sourceText then w else w.(sourceText := text, readEnabled := text != "")
  }

  /** The destination line edit changes: saving is offered when it is not empty and data is loaded. */
  function EditDestination(w: Window, text: string): Window
  {
    if text == w.destinationText then w
    else w.(destinationText := text, saveEnabled := text != "" && w.fileLoaded)
  }

  /** A file chosen in the open dialog (an empty name is a dismissed dialog). */
  function SelectSource(w: Window, fileName: string): Window
  {
    if fileName == "" then w else EditSource(w, fileName).(sourcePath := fileName)
  }

  function SelectDestination(w: Window, fileName: string): Window
  {
    if fileName == "" then w else EditDestination(w, fileName).(destinationPath := fileName)
  }

  /** Why a read request is refused, checked in order; None when it may go ahead. */
  function ReadGuard(path: string, info: PathInfo): (refusal: Option<Warning>)
    ensures refusal == None <==> path != "" && info.found && info.isFile
  {
    if path == "" then Some(NoSourceSelected)
    else if !info.found then Some(SourceMissing)
    else if !info.isFile then Some(SourceNotAFile)
    else None
  }

  function SaveGuard(w: Window): (refusal: Option<Warning>)
    ensures refusal == None <==> w.destinationPath != "" && w.fileLoaded
  {
    if w.destinationPath == "" then Some(NoDestinationSelected)
    else if !w.fileLoaded then Some(NothingLoaded)
    else None
  }

  function ReadClicked(w: Window, info: PathInfo): Window
  {
    match ReadGuard(w.sourcePath, info)
    case Some(why) => w.(notices := w.notices + [Warned(why)])
    case None =>
      w.(progressValue := 0, progressVisible := true, readEnabled := false, browseSourceEnabled := false,
         requests := w.requests + [ReadRequest(w.sourcePath)])
  }

  function SaveClicked(w: Window): Window
  {
    match SaveGuard(w)
    case Some(why) => w.(notices := w.notices + [Warned(why)])
    case None =>
      w.(progressVisible := true, saveEnabled := false, browseDestinationEnabled := false,
         requests := w.requests + [SaveRequest(w.destinationPath, w.fileData)])
  }

  /** Shared by read and save progress: a known total moves the bar to the truncated percentage. */
  function OnProgress(w: Window, bytes: int, total: int): Window
  {
    if total > 0 then w.(progressValue := BarValue(w.progressValue, Percentage(bytes, total))) else w
  }

  function ReadFinishedSpec(w: Window, data: seq<Byte>): Window
  {
    w.(fileData := data, fileLoaded := true, progressVisible := false,
       readEnabled := true, browseSourceEnabled := true, saveEnabled := w.destinationText != "")
  }

  function ReadErrorSpec(w: Window, reason: Failure): Window
  {
    w.(progressVisible := false, readEnabled := true, browseSourceEnabled := true,
       notices := w.notices + [ReadErrorBox(reason)])
  }

  function SaveFinishedSpec(w: Window): Window
  {
    w.(progressVisible := false, saveEnabled := true, browseDestinationEnabled := true,
       notices := w.notices + [SavedBox])
  }

  function SaveErrorSpec(w: Window, reason: Failure): Window
  {
    w.(progressVisible := false, saveEnabled := true, browseDestinationEnabled := true,
       notices := w.notices + [SaveErrorBox(reason)])
  }

  function CancelledSpec(w: Window): Window
  {
    w.(progressVisible := false, readEnabled := true, browseSourceEnabled := true,
       saveEnabled := w.destinationText != "")
  }

  /**
   * The window's slot for a worker signal. The run-state and rotation
   * signals go to the cube view, not to the window.
   */
  function Deliver(w: Window, e: Event): Window
  {
    match e
    case ReadProgress(bytes, total) => OnProgress(w, bytes, total)
    case ReadFinished(data) => ReadFinishedSpec(w, data)
    case ReadError(reason) => ReadErrorSpec(w, reason)
    case SaveProgress(bytes, total) => OnProgress(w, bytes, total)
    case SaveFinished => SaveFinishedSpec(w)
    case SaveError(reason) => SaveErrorSpec(w, reason)
    case CancelOperationSignal => CancelledSpec(w)
    case _ => w
  }

  function DeliverAll(w: Window, es: seq<Event>): Window
    decreases |es|
  {
    if es == [] then w else DeliverAll(Deliver(w, es[0]), es[1..])
  }

  /** The window's widget state, and the logs of requests and message boxes. */
  class MainWindow {
    var sourcePath: string
    var destinationPath: string
    var sourceText: string
    var destinationText: string
    var fileData: seq<Byte>
    var fileLoaded: bool
    var readEnabled: bool
    var browseSourceEnabled: bool
    var saveEnabled: bool
    var browseDestinationEnabled: bool
    var progressValue: int
    var progressVisible: bool
    var requests: seq<Request>
    var notices: seq<Notice>

    function State(): Window
      reads this
    {
      Window(sourcePath, destinationPath, sourceText, destinationText, fileData, fileLoaded,
             readEnabled, browseSourceEnabled, saveEnabled, browseDestinationEnabled,
             progressValue, progressVisible, requests, notices)
    }

    constructor ()
      ensures State() == Initial()
    {
      sourcePath, destinationPath, sourceText, destinationText := "", "", "", "";
      fileData, fileLoaded := [], false;
      readEnabled, browseSourceEnabled := false, true;
      saveEnabled, browseDestinationEnabled := false, true;
      progressValue, progressVisible := -1, false;
      requests, notices := [], [];
    }

    method EditSourceText(text: string)
      modifies this
      ensures State() == EditSource(old(State()), text)
    {
      if text != sourceText {
        sourceText := text;
        readEnabled := text != "";
      }
    }

    method EditDestinationText(text: string)
      modifies this
      ensures State() == EditDestination(old(State()), text)
    {
      if text != destinationText {
        destinationText := text;
        saveEnabled := text != "" && fileLoaded;
      }
    }

    /** `fileName` is the open dialog's answer. */
    method SelectSourceFile(fileName: string)
      modifies this
      ensures State() == SelectSource(old(State()), fileName)
    {
      if fileName != "" {
        EditSourceText(fileName);
        sourcePath := fileName;
      }
    }

    /** `fileName` is the save dialog's answer. */
    method SelectDestinationFile(fileName: string)
      modifies this
      ensures State() == SelectDestination(old(State()), fileName)
    {
      if fileName != "" {
        EditDestinationText(fileName);
        destinationPath := fileName;
      }
    }

    method ResetUI()
      modifies this`progressValue
      ensures progressValue == 0
    {
      progressValue := 0;
    }

    /** `info` is what the file system reports for the current source path. */
    method ReadFile(info: PathInfo)
      modifies this
      ensures State() == ReadClicked(old(State()), info)
    {
      if sourcePath == "" {
        notices := notices + [Warned(NoSourceSelected)];
        return;
      }
      if !info.found {
        notices := notices + [Warned(SourceMissing)];
        return;
      }
      if !info.isFile {
        notices := notices + [Warned(SourceNotAFile)];
        return;
      }
      ResetUI();
      progressVisible := true;
      readEnabled := false;
      browseSourceEnabled := false;
      requests := requests + [ReadRequest(sourcePath)];
    }

    method SaveFile()
      modifies this
      ensures State() == SaveClicked(old(State()))
    {
      if destinationPath == "" {
        notices := notices + [Warned(NoDestinationSelected)];
        return;
      }
      if !fileLoaded {
        notices := notices + [Warned(NothingLoaded)];
        return;
      }
      progressVisible := true;
      saveEnabled := false;
      browseDestinationEnabled := false;
      requests := requests + [SaveRequest(destinationPath, fileData)];
    }

    method OnReadProgress(bytesRead: int, totalBytes: int)
      modifies this`progressValue
      ensures State() == OnProgress(old(State()), bytesRead, totalBytes)
    {
      if totalBytes > 0 {
        var percentage := Quot(bytesRead * 100, totalBytes);
        progressValue := BarValue(progressValue, percentage);
      }
    }

    method OnSaveProgress(bytesWritten: int, totalBytes: int)
      modifies this`progressValue
      ensures State() == OnProgress(old(State()), bytesWritten, totalBytes)
    {
      if totalBytes > 0 {
        var percentage := Quot(bytesWritten * 100, totalBytes);
        progressValue := BarValue(progressValue, percentage);
      }
    }

    method OnReadFinished(data: seq<Byte>)
      modifies this
      ensures State() == ReadFinishedSpec(old(State()), data)
    {
      fileData := data;
      fileLoaded := true;
      progressVisible := false;
      readEnabled := true;
      browseSourceEnabled := true;
      saveEnabled := destinationText != "";
    }

    method OnReadError(reason: Failure)
      modifies this
      ensures State() == ReadErrorSpec(old(State()), reason)
    {
      progressVisible := false;
      readEnabled := true;
      browseSourceEnabled := true;
      notices := notices + [ReadErrorBox(reason)];
    }

    method OnSaveFinished()
      modifies this
      ensures State() == SaveFinishedSpec(old(State()))
    {
      progressVisible := false;
      saveEnabled := true;
      browseDestinationEnabled := true;
      notices := notices + [SavedBox];
    }

    method OnSaveError(reason: Failure)
      modifies this
      ensures State() == SaveErrorSpec(old(State()), reason)
    {
      progressVisible := false;
      saveEnabled := true;
      browseDestinationEnabled := true;
      notices := notices + [SaveErrorBox(reason)];
    }

    method CancelOperation()
      modifies this
      ensures State() == CancelledSpec(old(State()))
    {
      progressVisible := false;
      readEnabled := true;
      browseSourceEnabled := true;
      saveEnabled := destinationText != "";
    }

    /** Runs the slot connected to the worker signal `e`. */
    method Receive(e: Event)
      modifies this
      ensures State() == Deliver(old(State()), e)
    {
      match e
      case ReadProgress(bytes, total) => OnReadProgress(bytes, total);
      case ReadFinished(data) => OnReadFinished(data);
      case ReadError(reason) => OnReadError(reason);
      case SaveProgress(bytes, total) => OnSaveProgress(bytes, total);
      case SaveFinished => OnSaveFinished();
      case SaveError(reason) => OnSaveError(reason);
      case CancelOperationSignal => CancelOperation();
      case _ =>
    }
  }
}

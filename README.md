# File Processor — a Dafny model

The File Processor is a small Qt desktop application. It reads a file into memory and writes the loaded
bytes back to another path. Both transfers run in 64 KiB chunks on a worker object that lives in
its own thread. A rotating OpenGL cube shows whether a transfer is running. This project
models the application's three core classes and how their signals connect:

- `transfer.dfy` (module `Transfer`) holds the `FileWorker` class.
  - `readFile` and `saveFile` are imperative methods, each with its chunk loop.
  - Each method is proved against a specification function (`ReadFileSpec`, `SaveFileSpec`).
  - Each of those functions is built on a recursive function (`ReadLoop`, `SaveLoop`) that performs the loop one chunk per call.
  - The other members are `cancelOperation`, the cooperative stop flag, the start flag and the two progress counters. The counters are function-local statics in the source.
- `transfer_facts.dfy` (module `TransferFacts`) proves what those specification functions guarantee:
  - the progress-signal stream (byte counts strictly increase, percentages are deduplicated, and a final 100 % signal);
  - the buffer read is a prefix of the file, and the whole file when nothing goes wrong;
  - what a cancelled or failed run leaves behind;
  - the flags;
  - a save followed by a read returns the saved bytes.
- `transfer_chunks.dfy` (module `TransferChunks`) states the converse of the progress bounds in `TransferFacts`. `ChunkProgress` lists the byte counts at the chunk boundaries whose percentage differs from the last one reported, plus the whole size.
  - With no stop and no cancel, a read with no empty read inside the file emits exactly those counts.
  - So does a save whose writes take whole chunks.
  - A 150000-byte read reports 65536, 131072 and 150000 bytes.
- `cubeview.dfy` (module `CubeView`) holds the integer state of `GLWidget`:
  - angle normalisation (the two loops of `qNormalizeAngle`);
  - the rotation and colour setters with their change signals;
  - the two-state `setRunning` switch that drives the animation timer;
  - rotation by mouse drag.
- `controller.dfy` (module `Controller`) holds the `MainWindow` class:
  - the guards in front of read and save;
  - the enabled state of the buttons, the progress bar (truncating C++ division, values outside 0..100 ignored) and the file-type label;
  - every slot connected to a worker signal.

  Each slot and click handler is proved against a function on the `Window` datatype; `ResetUI` and the constructor state their effect directly.
- `session.dfy` (module `Session`) wires the three together.
  - Each user action is one step of a `System` (window, worker and the cube's run flag).
  - A read or a save delivers the signals it emitted to the window's slots and to `setRunning`, in order.
  - Its lemmas state what a read or a save leaves in the window and whether the cube spins afterwards.
  - Over every sequence of actions, the Save button is never enabled while no data is loaded.
  - A Cancel click with no transfer running, after a failed read, cancels the next read at its first chunk.
  - A click on Read or Save is taken whatever the button's enabled state. This admits more runs than the window allows, so what is proved over every run holds of the window's runs.

The file system, the timer and the event pump are inputs to the model:

- A `SourceFile` gives existence, openability, the reported size, the contents and an optional empty read (with or without an I/O error).
- A sequence of `WriteResult`s gives what each `write` returns.
- A sequence of booleans says whether a queued `cancelOperation` runs inside each `processEvents()`.
- `elapsed` is the timer reading.

Emitted signals, queued requests and message boxes are appended to logs, in order.

`FileWorker::getLastOperationTime` (src/fileworker.cpp:156-159) is `Transfer.FileWorker.GetLastOperationTime`. `GLWidget::isRunning` (src/glwidget.cpp:302-305) is `CubeView.GLWidget.IsRunning`. Both only return a field, so they carry no contract of their own. The lemmas and methods that use them state what they return.

Behaviours of the code, as written, that the model makes explicit:

- Cancelling a save emits `readFinished(data)`, `stoptRead(false)` and `cancelOperation_`, exactly as a cancelled read does (src/fileworker.cpp:115-123). The window's read-finished slot therefore stores the data being saved again (src/mainwindow.cpp:364-367), and the cancel slot then re-enables Save whenever a destination is typed (src/mainwindow.cpp:453-460). `Session.SaveCancelledReaches` states this.
- A cancelled save leaves the destination Browse button disabled (`Session.SaveCancelledReaches`).
- `m_start` is cleared only on success. After a failed read or save, the cube keeps spinning (`Session.ReadFailsReaches`). A later Cancel click with nothing running still raises the stop flag, and the next read is cancelled at its first chunk (`Session.StaleCancelSpoilsNextRead`).
- A cancel taken in at the last `processEvents()` of a read that then completes is never looked at: the file is loaded, but the stop flag stays raised and the next read is cancelled at its first chunk (`TransferChunks.ReadFileLateCancel`, `Session.LateCancelSpoilsNextRead`).
- The progress bar starts at -1, its reset value. It keeps its value when a slot asks for one outside 0..100.

## Model

| member | source | states |
|---|---|---|
| Transfer.ReadChunk | src/fileworker.cpp:41 | a read never returns bytes past the end of the file |
| Transfer.ReadChunkFacts | src/fileworker.cpp:37-41 | a read returns the next bytes of the file: at most 64 KiB, a whole chunk unless the file ends first, and nothing exactly at the faulty read |
| Transfer.WriteReturn | src/fileworker.cpp:108-109 | a `write` returns -1 exactly when the device rejects it, and otherwise between 1 and the chunk's length |
| Transfer.FileWorker.constructor | src/fileworker.cpp:6-12 | a new worker has both flags down, a recorded time of 0, both progress counters at 0 and no signals |
| Transfer.FileWorker.CancelOperation | src/fileworker.cpp:147-154 | the stop flag is raised only while an operation has started; nothing else changes |
| Transfer.FileWorker.ReportReadProgress | src/fileworker.cpp:63-72 | with a known size, a changed percentage or a complete read emits `readProgress`, stores the percentage and lets one queued cancel in; otherwise nothing changes |
| Transfer.FileWorker.ReportSaveProgress | src/fileworker.cpp:127-134 | the save loop's progress step, as for a read |
| Transfer.FileWorker.ReadChunks | src/fileworker.cpp:36-73 | the read loop's buffer, outcome, stop flag, counter and signals are those of the chunk-by-chunk specification `ReadLoop`, including the early returns on an I/O error and on a stop |
| Transfer.FileWorker.ReadFile | src/fileworker.cpp:14-83 | the worker's new state is `ReadFileSpec`: error signals for a missing or unopenable file; otherwise the start signals, the loop, then the finish signals, the recorded time and the start flag lowered only when the loop ran out |
| Transfer.FileWorker.WriteChunks | src/fileworker.cpp:101-135 | the write loop's stored bytes, outcome, stop flag, counter and signals are those of `SaveLoop`, including the early returns on a rejected write and on a stop |
| Transfer.FileWorker.SaveFile | src/fileworker.cpp:85-145 | the worker's new state and the destination's contents are `SaveFileSpec`: a save error and no file when it cannot be opened; otherwise the start signals, the loop, and the finish signals only when all bytes were written |
| TransferFacts.ProgressStreamMeans | src/fileworker.cpp:63-72 | a progress stream built signal by signal carries the total and counts within bounds, its byte counts strictly increase, and a signal repeats the previous percentage only at the total |
| TransferFacts.ProgressStreamWiden | src/fileworker.cpp:61-68 | a progress stream bounded by some byte count is bounded by any larger one |
| TransferFacts.ProgressStreamExtend | src/fileworker.cpp:66-68 | appending a signal for a larger count, with a new percentage or at the total, keeps a progress stream |
| TransferFacts.ReadReportExtends | src/fileworker.cpp:63-72 | one read progress step keeps the stream, its counter and its final-signal property |
| TransferFacts.SaveReportExtends | src/fileworker.cpp:127-134 | one save progress step keeps the stream, its counter and its final-signal property |
| TransferFacts.ReadLoopData | src/fileworker.cpp:40-61 | the buffer stays a prefix of the file; it falls short only at an empty read (failed exactly when the file reports an error) or at a stop on a chunk boundary |
| TransferFacts.ReadLoopProgress | src/fileworker.cpp:60-72 | the read loop's signals form a progress stream bounded by the bytes read, the counter is the last signal's percentage, and a complete read of a known size ends with a signal for the whole size |
| TransferFacts.ReadLoopFlags | src/fileworker.cpp:50-58 | a stop is consumed exactly when the loop is cancelled; a stop raised beforehand survives a run that is not cancelled; with no stop and no cancel the loop is never cancelled |
| TransferFacts.ReadRunFacts | src/fileworker.cpp:36-73 | everything above about a read run started from the worker's state |
| TransferFacts.PrefixGrows | src/fileworker.cpp:105-108 | writing the first `n` bytes of the next chunk extends a prefix of the data by `n` bytes |
| TransferFacts.SaveLoopCount | src/fileworker.cpp:104-125 | the count written never exceeds the data, reaches it when the loop finishes, and falls short, with a rejected write among the results, when the loop fails |
| TransferFacts.SaveLoopStored | src/fileworker.cpp:104-125 | unless cancelled, the destination holds exactly the bytes counted as written |
| TransferFacts.SaveLoopStoredCancelled | src/fileworker.cpp:108-123 | on a stop, the destination holds a prefix of the data longer than the count written, since the last write lands before the stop is seen |
| TransferFacts.SaveLoopProgress | src/fileworker.cpp:125-134 | the save loop's signals form a progress stream bounded by the count written, with the counter and the final 100 % signal |
| TransferFacts.SaveLoopFlags | src/fileworker.cpp:108-123 | as for reads, and with no stop, no cancel and no rejected write the save always finishes |
| TransferFacts.SaveRunFacts | src/fileworker.cpp:101-135 | everything above about a save run started from the worker's state |
| TransferFacts.ReadFileRejected | src/fileworker.cpp:16-28 | a missing or unopenable file emits one `readError` and changes nothing else |
| TransferFacts.ReadFileSucceeds | src/fileworker.cpp:14-83 | with no empty read inside the file and no cancel: start signals, a progress stream ending at the whole size, `readFinished` with the whole file, `stoptRead(false)`, time recorded, both flags down |
| TransferFacts.ReadFileFinished | src/fileworker.cpp:40-83 | whenever the loop runs out, the payload is a prefix of the file (the whole file when no empty read lies inside it) and the finish signals close the log |
| TransferFacts.ReadFileCancelled | src/fileworker.cpp:50-58 | a stop seen mid-read emits the partial buffer (whole chunks, shorter than the file) with `stoptRead(false)` and `cancelOperation_`, clears the stop flag and leaves the start flag raised and the time unchanged |
| TransferFacts.ReadFileFails | src/fileworker.cpp:42-46 | an I/O error ends the log with `readError` after the progress so far, leaves the start flag raised and the time unchanged |
| TransferFacts.ReadFileStaleStop | src/fileworker.cpp:34-58 | a stop flag left raised before a read cancels that read at its first chunk with an empty buffer |
| TransferFacts.ReadFileFlags | src/fileworker.cpp:14-83 | a read always emits something; the start flag is lowered exactly when the log ends with `stoptRead(false)`; the time changes only then; a consumed stop ends the log with `cancelOperation_` |
| TransferFacts.SaveFileRejected | src/fileworker.cpp:90-93 | an unopenable destination emits one `saveError`, is left untouched, and nothing else changes |
| TransferFacts.SaveFileSucceeds | src/fileworker.cpp:85-145 | with no stop, no cancel and no rejected write the destination holds exactly the data and the log is start signals, a progress stream ending at 100 %, `saveFinished`, `stopWrite(false)` |
| TransferFacts.SaveFileEmpty | src/fileworker.cpp:104-145 | saving no bytes skips the loop: start and finish signals only, and an empty destination |
| TransferFacts.SaveFileCancelled | src/fileworker.cpp:115-123 | a stop seen mid-save leaves a prefix of the data in the destination and emits the read-style cancel signals with the whole buffer |
| TransferFacts.SaveFileFails | src/fileworker.cpp:108-113 | a rejected write ends the log with `saveError` and leaves a proper prefix of the data in the destination |
| TransferFacts.SaveFileFlags | src/fileworker.cpp:85-145 | the save's counterpart of `ReadFileFlags`, with `stopWrite(false)` |
| TransferFacts.SaveThenReadRoundTrip | src/fileworker.cpp:14-145 | saving data with no rejected write and no stop, then reading the file back, ends with `readFinished` carrying exactly that data |
| CubeView.Normalized | src/glwidget.cpp:114-120 | a normalised angle lies in 0..5760, differs from the input by whole turns, and is 5760 exactly for positive whole turns |
| CubeView.NormalizedFixesRange | src/glwidget.cpp:114-120 | angles already in range are left alone, so normalising is idempotent |
| CubeView.NormalizeAngle | src/glwidget.cpp:114-120 | the two loops compute `Normalized` |
| CubeView.GLWidget.constructor | src/glwidget.cpp:71-92 | a new view has zero angles (src/glwidget.h:79-81), is not running, has its timer stopped and has emitted nothing |
| CubeView.GLWidget.SetXRotation | src/glwidget.cpp:122-130 | stores the normalised angle and signals it only when it changed; every stored angle stays in range |
| CubeView.GLWidget.SetYRotation | src/glwidget.cpp:132-140 | as for X |
| CubeView.GLWidget.SetZRotation | src/glwidget.cpp:142-150 | as for X |
| CubeView.GLWidget.SetRed | src/glwidget.cpp:152-157 | stores the value unclamped and always signals it |
| CubeView.GLWidget.SetGreen | src/glwidget.cpp:159-164 | as for red |
| CubeView.GLWidget.SetBlue | src/glwidget.cpp:166-171 | as for red |
| CubeView.GLWidget.SetRunning | src/glwidget.cpp:302-319 | `isRunning` afterwards is the requested state; a change starts or stops the timer and signals it; asking for the current state changes nothing |
| CubeView.GLWidget.MousePress | src/glwidget.cpp:282-285 | records the press position |
| CubeView.GLWidget.MouseMove | src/glwidget.cpp:287-300 | a left drag turns X by 8·dy and Y by 8·dx; otherwise a right drag turns X and Z; other drags leave the angles alone; the position is always updated |
| Controller.UpperChar | src/mainwindow.cpp:488 | lower-case ASCII letters map to their capitals and every other character is kept |
| Controller.UpperCase | src/mainwindow.cpp:488 | upper-casing keeps the length and maps each character |
| Controller.LastIndexOf | src/mainwindow.cpp:486 | -1 exactly when the character is absent; otherwise an occurrence with none after it |
| Controller.FileType | src/mainwindow.cpp:484-491 | "File" exactly when there is no dot or the name ends with one; otherwise the upper-cased text after the last dot followed by " File" |
| Controller.QuotBounds | src/mainwindow.cpp:356 | C++ division truncates toward zero, from either side |
| Controller.PercentageBounds | src/mainwindow.cpp:353-362 | for a count within the total the window's percentage equals the worker's, lies in 0..100, and is 100 exactly at the total |
| Controller.ReadGuard | src/mainwindow.cpp:301-317 | a read may go ahead exactly when a source path is set, exists and is a file |
| Controller.SaveGuard | src/mainwindow.cpp:330-340 | a save may go ahead exactly when a destination path is set and data is loaded |
| Controller.MainWindow.constructor | src/mainwindow.cpp:26-89 | a new window has nothing selected or loaded, Read and Save disabled, the progress bar hidden at -1 |
| Controller.MainWindow.EditSourceText | src/mainwindow.cpp:264-269 | a changed source text enables Read exactly when it is not empty |
| Controller.MainWindow.EditDestinationText | src/mainwindow.cpp:271-273 | a changed destination text enables Save exactly when it is not empty and data is loaded |
| Controller.MainWindow.SelectSourceFile | src/mainwindow.cpp:281-289 | a chosen file becomes the source path and text; a dismissed dialog changes nothing |
| Controller.MainWindow.SelectDestinationFile | src/mainwindow.cpp:291-299 | a chosen file becomes the destination path and text; a dismissed dialog changes nothing |
| Controller.MainWindow.ResetUI | src/mainwindow.cpp:462-466 | the progress bar returns to 0 |
| Controller.MainWindow.ReadFile | src/mainwindow.cpp:301-328 | a refused read shows its warning and changes nothing else; otherwise the bar is reset and shown, Read and Browse are disabled and a read of the source path is queued |
| Controller.MainWindow.SaveFile | src/mainwindow.cpp:330-351 | a refused save shows its warning; otherwise the bar is shown, Save and Browse are disabled and a save of the loaded data is queued |
| Controller.MainWindow.OnReadProgress | src/mainwindow.cpp:353-362 | a known total moves the bar to the truncated percentage, ignored when outside 0..100 |
| Controller.MainWindow.OnSaveProgress | src/mainwindow.cpp:391-400 | as for reads |
| Controller.MainWindow.OnReadFinished | src/mainwindow.cpp:364-378 | the data is loaded, the bar hidden, Read and Browse enabled, and Save enabled exactly when a destination is typed |
| Controller.MainWindow.OnReadError | src/mainwindow.cpp:380-389 | the bar is hidden, Read and Browse enabled, and the error shown |
| Controller.MainWindow.OnSaveFinished | src/mainwindow.cpp:402-411 | the bar is hidden, Save and Browse enabled, and success shown |
| Controller.MainWindow.OnSaveError | src/mainwindow.cpp:413-422 | the bar is hidden, Save and Browse enabled, and the error shown |
| Controller.MainWindow.CancelOperation | src/mainwindow.cpp:453-460 | the bar is hidden, Read and Browse enabled, and Save enabled exactly when a destination is typed, whether or not data is loaded |
| Controller.MainWindow.Receive | src/mainwindow.cpp:36-57 | each worker signal runs the slot it is connected to; the others leave the window alone |
| Session.ReadAppendsSignals | src/fileworker.cpp:14-83 | a read appends to the log exactly the signals it emits in this call |
| Session.SaveAppendsSignals | src/fileworker.cpp:85-145 | a save appends to the log exactly the signals it emits in this call |
| Session.DeliverAllAppend | src/mainwindow.cpp:36-57 | delivering two bursts in turn is delivering their concatenation |
| Session.SpinningAppend | src/mainwindow.cpp:47-52 | the cube's run flag after two bursts is the flag after their concatenation |
| Session.DeliverProgressOnly | src/mainwindow.cpp:353-400 | progress signals change nothing in the window but the bar's value |
| Session.DeliverProgressStep | src/mainwindow.cpp:353-400 | one progress signal changes nothing in the window but the bar's value |
| Session.SpinningIgnoresProgress | src/mainwindow.cpp:47-52 | progress signals never start or stop the cube |
| Session.RestIsProgress | src/mainwindow.cpp:38-45 | the tail of a burst of progress signals is progress signals |
| Session.DeliverOne | src/mainwindow.cpp:36-57 | a one-signal burst runs that signal's slot and run-flag change |
| Session.DeliverCons | src/mainwindow.cpp:36-57 | a burst is its first signal followed by the rest |
| Session.DeliverReadTrailer | src/fileworker.cpp:44-58 | a read's closing signals run the read-finished, cancel or read-error slot; the cube ends stopped, except after an I/O error, where its flag is kept |
| Session.DeliverSaveTrailer | src/fileworker.cpp:109-123 | a save's closing signals run the save-finished, cancel or save-error slot, with the same run flag |
| Session.DeliverProgressValue | src/mainwindow.cpp:353-362 | after a progress stream the bar shows the last signal's percentage, or its old value when there was none |
| Session.ProgressStreamIsProgress | src/fileworker.cpp:68 | a progress stream consists of progress signals |
| Session.ReadBurst | src/mainwindow.cpp:36-57 | the window after a read's burst is the progress bar's value then the slot for its ending; the cube spins afterwards exactly when the read failed |
| Session.SaveBurst | src/mainwindow.cpp:36-57 | the same for a save |
| Session.ReadRejectedReaches | src/fileworker.cpp:16-28 | a missing or unopenable file reaches the window as a read error and leaves the cube alone |
| Session.ReadSucceedsReaches | src/mainwindow.cpp:364-378 | a clean read of a file whose size is reported correctly loads the whole file, shows 100 % (when not empty) and leaves the cube stopped |
| Session.ReadCancelledReaches | src/mainwindow.cpp:453-460 | a cancelled read loads the partial buffer, re-enables Read, and stops the cube |
| Session.ReadFailsReaches | src/mainwindow.cpp:380-389 | an I/O error reaches the window as a read error and the cube keeps spinning |
| Session.SaveRejectedReaches | src/fileworker.cpp:90-93 | an unopenable destination reaches the window as a save error and leaves the cube alone |
| Session.SaveSucceedsReaches | src/mainwindow.cpp:402-411 | a clean save shows success and 100 % (when not empty) and leaves the cube stopped |
| Session.SaveCancelledReaches | src/fileworker.cpp:115-123 | a cancelled save has the read-finished slot store the data being saved again, then runs the cancel slot, leaves destination Browse as it was and stops the cube |
| Session.SaveFailsReaches | src/mainwindow.cpp:413-422 | a rejected write reaches the window as a save error and the cube keeps spinning |
| Session.DeliverKeepsSelection | src/mainwindow.cpp:353-460 | worker signals never change the selected paths, the typed texts or the queued requests, never unload data, and only add message boxes |
| Session.DeliverOneKeepsSelection | src/mainwindow.cpp:353-460 | the same for one signal |
| Session.ReadStepKeepsSaveNeedsData | src/mainwindow.cpp:301-328 | clicking Read keeps Save disabled while nothing is loaded |
| Session.SaveStepKeepsSaveNeedsData | src/mainwindow.cpp:330-351 | clicking Save keeps Save disabled while nothing is loaded |
| Session.StepKeepsSaveNeedsData | src/mainwindow.cpp:259-273 | every user action keeps Save disabled while nothing is loaded |
| Session.RunKeepsSaveNeedsData | src/mainwindow.cpp:26-89 | from start-up, after any sequence of actions, Save is enabled only when data is loaded |
| Session.StaleCancelSpoilsNextRead | src/fileworker.cpp:147-154 | after a failed read, a Cancel click with nothing running makes the next read of a non-empty file load nothing and end with `cancelOperation_` |
| TransferChunks.NoCancelStep | src/fileworker.cpp:70 | with no cancel queued anywhere, `processEvents()` lets none in now or later |
| TransferChunks.WholeWriteStep | src/fileworker.cpp:108-109 | a write that takes whole chunks returns the chunk's length, and the writes after it take whole chunks too |
| TransferChunks.ReadLoopStep | src/fileworker.cpp:40-72 | one pass of an unstopped read loop reads a whole chunk (or the rest of the file) and emits exactly the first entry of `ChunkProgress` |
| TransferChunks.SaveLoopStep | src/fileworker.cpp:104-134 | one pass of an unstopped save loop with whole writes stores the whole chunk and emits exactly the first entry of `ChunkProgress` |
| TransferChunks.ReadLoopReportsEveryChunk | src/fileworker.cpp:40-73 | with no stop, no cancel and no empty read inside the file, the read loop emits a signal after every chunk whose percentage differs from the counter, and after the last, and no others |
| TransferChunks.SaveLoopReportsEveryChunk | src/fileworker.cpp:104-135 | the same for the save loop with writes that take whole chunks |
| TransferChunks.ReadFileReportsEveryChunk | src/fileworker.cpp:14-83 | such a read emits the start signals, exactly the `ChunkProgress` signals, then `readFinished` with the whole file and `stoptRead(false)` |
| TransferChunks.SaveFileReportsEveryChunk | src/fileworker.cpp:85-145 | such a save emits the start signals, exactly the `ChunkProgress` signals, then `saveFinished` and `stopWrite(false)` |
| TransferChunks.ReadFileThreeChunks | src/fileworker.cpp:37-72 | a 150000-byte read from a fresh counter reports 65536, 131072 and 150000 bytes |
| TransferChunks.ReadLoopLateCancel | src/fileworker.cpp:40-72 | a one-chunk read whose only `processEvents()` takes in a cancel finishes with the whole file and the stop flag raised |
| TransferChunks.ReadFileLateCancel | src/fileworker.cpp:63-83 | such a read delivers the whole file, lowers the start flag and records the time, but leaves the stop flag raised |
| Session.LateCancelSpoilsNextRead | src/fileworker.cpp:147-154 | after a cancel taken in at the last `processEvents()` of a read that completes, the next read of a non-empty file loads nothing and ends with `cancelOperation_` |

## Left out

- The real file system, `QFile` and `QFileInfo` are inputs (`SourceFile`, `WriteResult`, `PathInfo`, the `writable` flag). The file does not change during a read.
- Threads and queued connections: each read or save runs to its end within one step. A Cancel click reaches the worker only at a `processEvents()` inside the progress step, through the cancel sequence. Interleavings with other queued calls are not modelled.
- `QElapsedTimer`: the elapsed time is a parameter. The "Read completed in" line of the info text is not modelled.
- Error message texts are reduced to a `Failure` kind. Status-label texts, style sheets, progress-bar formats and message-box titles are not modelled.
- `qDebug` output is not modelled.
- `update()` repaint requests are not modelled.
- Floating-point code is not modelled: `formatFileSize`, `setRotationSpeed`, `setRotationDirection`, `updateRotation`, the rotation angle and all OpenGL rendering. `setRotationDirection` is kept only as a signal in the worker's log.
- `updateFileInfo` and the info text are left out: they are MIME and date formatting over the file system.
- `keyPressEvent` and `main.cpp` are left out: closing the window and start-up.
- Transfer.WriteReturn: a `write` that returns 0 is excluded (`Positive`), because the source's loop would then never end.
- Transfer.FileWorker.ReadFile: `qint64` overflow is not modelled; integers are unbounded.
- Transfer.FileWorker.SaveFile: the `int` casts in `data.mid` are not modelled; integers are unbounded.
- Controller.MainWindow.OnReadProgress: the `static_cast<int>` of the percentage is not modelled; within range it has no effect.
- Controller.UpperCase: only ASCII letters are upper-cased; Unicode case mapping is not modelled.
- Transfer.FileWorker: the two function-local static counters are per-worker fields. The program creates a single worker, so this has no effect.
- CubeView.GLWidget.constructor: the colour channels are left indeterminate, as in the source; the window sets them through its colour sliders (src/mainwindow.cpp:255-257), which are not modelled.
- TransferChunks.SaveFileReportsEveryChunk: stated only for writes that take whole chunks. With shorter writes the reported counts are running totals of the write results; `TransferFacts.SaveLoopProgress` bounds them, but no lemma lists them.
- TransferChunks.SaveLoopReportsEveryChunk: stated only for writes that take whole chunks, for the same reason.

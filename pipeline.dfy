/**
 * The command-execution pipeline as a state machine over one run. A run's
 * observable state is a `RunView`; each operation of the source (starting a
 * run, dispatching a step, every stream/wait callback, the cancel and close
 * handlers) is a function from view to view. The event loop is single-threaded,
 * so a run's history is a sequence of such events in any order the environment
 * chooses; the lemmas at the end hold for every such sequence.
 */
module Pipeline {
  import opened Wrappers
  import opened CommandTypes
  import opened Progress
  import opened Executor
  import opened Context
  import Utils

  /** An opaque child-process handle. */
  datatype ProcessHandle = ProcessHandle(pid: nat)

  /** What the process layer returns for a spawn request: a child (with the pipes it provides), or an error. */
  datatype SpawnResult = Spawned(process: ProcessHandle, stdoutPipe: bool, stderrPipe: bool) | SpawnFailed(error: string)

  /**
   * What starting a step observes outside the program: the configured AUR helper,
   * the filesystem and PATH the helper probe sees, and the answer to the spawn request.
   */
  datatype Launch = Launch(configuredHelper: Option<string>, fs: Utils.FileSystem, pathVar: Option<string>, spawn: SpawnResult)

  /** A spawned step: its index, the argument vector handed to the process layer and the child. */
  datatype Started = Started(index: nat, argv: seq<string>, process: ProcessHandle)

  /** The context of the step in flight. */
  datatype Live = Live(index: nat, signals: Signals)

  datatype RunView = RunView(
    commands: seq<CommandStep>,
    running: bool,                   // the process-wide "an action is running" flag
    cancelled: bool,
    process: Option<ProcessHandle>,  // the shared current-process slot
    dialog: Dialog,
    callbacks: seq<bool>,            // every completion-callback invocation, in order
    forceExits: seq<ProcessHandle>,  // every forced-termination request, in order
    started: seq<Started>,           // every spawned step, in order
    live: Option<Live>)

  /** Resolution as done at dispatch time: the configured helper, else auto-detection. */
  function Resolve(step: CommandStep, launch: Launch): Result<Invocation, string> {
    ResolveCommand(step, launch.configuredHelper, Utils.DetectedHelper(launch.fs, launch.pathVar))
  }

  /** Ending the run: the running flag is cleared, the dialog shows the outcome, the callback receives it. */
  function Finish(v: RunView, success: bool, message: string): (w: RunView)
    ensures !w.running && w.callbacks == v.callbacks + [success]
    ensures w.dialog == FinalizeDialog(v.dialog, success, message)
    ensures w == v.(running := false, dialog := w.dialog, callbacks := w.callbacks)
  {
    v.(running := false, dialog := FinalizeDialog(v.dialog, success, message), callbacks := v.callbacks + [success])
  }

  /** The dialog at the start of step `index`: progress, title and the step header. */
  function AnnounceStep(d: Dialog, index: nat, commands: seq<CommandStep>): Dialog
    requires index < |commands|
  {
    var name := commands[index].friendlyName;
    var shown := SetTitle(UpdateProgress(d, index + 1, |commands|), name);
    AppendOutput(shown, StepHeader(index, |commands|, name), false)
  }

  /**
   * Dispatching step `index`. A cancelled run ends as cancelled (checked before the
   * end-of-list test); past the last step the run ends as a success; otherwise the
   * step is started.
   */
  function Execute(v: RunView, index: nat, launch: Launch): (w: RunView)
    ensures w.commands == v.commands && w.cancelled == v.cancelled && w.forceExits == v.forceExits
    ensures w.dialog.status == v.dialog.status && w.dialog.open == v.dialog.open
    ensures |w.dialog.log| >= |v.dialog.log| && w.dialog.log[..|v.dialog.log|] == v.dialog.log
    ensures v.cancelled ==>
              w.dialog.completion == Some(Completion(false, CancelledMessage))
              && w.callbacks == v.callbacks + [false] && w.started == v.started && !w.running
              && w.live == v.live && w.process == v.process
    ensures !v.cancelled && index >= |v.commands| ==>
              w.dialog.completion == Some(Completion(true, AllDoneMessage))
              && w.callbacks == v.callbacks + [true] && w.started == v.started && !w.running
              && w.live == v.live && w.process == v.process && w.dialog.progress == v.dialog.progress
    ensures !v.cancelled && index < |v.commands| ==> w == StartStep(v, index, launch)
  {
    if v.cancelled then Finish(v, false, CancelledMessage)
    else if index >= |v.commands| then Finish(v, true, AllDoneMessage)
    else StartStep(v, index, launch)
  }

  /** Starting step `index`: it is announced, then resolved and spawned. */
  function StartStep(v: RunView, index: nat, launch: Launch): (w: RunView)
    requires index < |v.commands|
    ensures w.commands == v.commands && w.cancelled == v.cancelled && w.forceExits == v.forceExits
    ensures w.dialog.status == v.dialog.status && w.dialog.open == v.dialog.open
    ensures |w.dialog.log| >= |v.dialog.log| && w.dialog.log[..|v.dialog.log|] == v.dialog.log
    ensures w.dialog.progress == Some(StepProgress(index + 1, |v.commands|))
    ensures var r := Resolve(v.commands[index], launch);
            if r.Ok? && launch.spawn.Spawned? then
              w.started == v.started + [Started(index, Argv(r.value), launch.spawn.process)]
              && w.process == Some(launch.spawn.process)
              && w.live == Some(Live(index, Signals(!launch.spawn.stdoutPipe, !launch.spawn.stderrPipe, None)))
              && w.callbacks == v.callbacks && w.dialog.completion == v.dialog.completion
              && w.running == v.running
              && w.dialog.cancelVisible == v.dialog.cancelVisible && w.dialog.closeVisible == v.dialog.closeVisible
            else
              w.dialog.completion == Some(Completion(false, if r.Err? then PrepareFailedMessage else StartFailedMessage))
              && w.callbacks == v.callbacks + [false] && w.started == v.started && !w.running
              && w.live == v.live && w.process == v.process
  {
    var u := v.(dialog := AnnounceStep(v.dialog, index, v.commands));
    var w := Spawn(u, index, Resolve(v.commands[index], launch), launch.spawn);
    assert w.dialog.log[..|v.dialog.log|] == w.dialog.log[..|u.dialog.log|][..|v.dialog.log|];
    w
  }

  /**
   * Spawning an announced step: a resolution or spawn error ends the run as failed
   * without storing a process or creating a context.
   */
  function Spawn(v: RunView, index: nat, r: Result<Invocation, string>, spawn: SpawnResult): (w: RunView)
    ensures w.commands == v.commands && w.cancelled == v.cancelled && w.forceExits == v.forceExits
    ensures w.dialog.status == v.dialog.status && w.dialog.open == v.dialog.open
    ensures w.dialog.progress == v.dialog.progress
    ensures |w.dialog.log| >= |v.dialog.log| && w.dialog.log[..|v.dialog.log|] == v.dialog.log
    ensures r.Ok? && spawn.Spawned? ==>
              w == v.(process := Some(spawn.process),
                      started := v.started + [Started(index, Argv(r.value), spawn.process)],
                      live := Some(Live(index, Signals(!spawn.stdoutPipe, !spawn.stderrPipe, None))))
    ensures !(r.Ok? && spawn.Spawned?) ==>
              w.dialog.completion == Some(Completion(false, if r.Err? then PrepareFailedMessage else StartFailedMessage))
              && w.callbacks == v.callbacks + [false] && w.started == v.started && !w.running
              && w.live == v.live && w.process == v.process
  {
    match r
    case Err(e) =>
      Finish(v.(dialog := AppendOutput(v.dialog, ErrorLine(e), true)), false, PrepareFailedMessage)
    case Ok(inv) =>
      match spawn
      case SpawnFailed(err) =>
        Finish(v.(dialog := AppendOutput(v.dialog, SpawnErrorLine(err), true)), false, StartFailedMessage)
      case Spawned(p, outPipe, errPipe) =>
        // A missing pipe counts as an ended stream at once; the finalize attempt
        // that follows it cannot fire, because no exit result is recorded yet.
        v.(process := Some(p),
           started := v.started + [Started(index, Argv(inv), p)],
           live := Some(Live(index, Signals(!outPipe, !errPipe, None))))
  }

  /**
   * Handling the outcome of finalized step `index`. Cancellation wins over the
   * result; a success marks the step and dispatches the next one; a failure marks
   * the step, logs its exit code when there is one and ends the run as failed.
   */
  function Settle(v: RunView, index: nat, result: CommandResult, launch: Launch): (w: RunView)
    ensures v.cancelled ==> w == Finish(v, false, CancelledMessage)
    ensures !v.cancelled && result.Success? ==> w == Advance(v, index, launch)
    ensures !v.cancelled && result.Failure? ==> w == FailStep(v, index, result.exitCode)
    ensures w.commands == v.commands && w.cancelled == v.cancelled && w.forceExits == v.forceExits
    ensures |w.dialog.log| >= |v.dialog.log| && w.dialog.log[..|v.dialog.log|] == v.dialog.log
    ensures v.dialog.completion.None? ==> w.callbacks == v.callbacks + OutcomeReport(v, w)
  {
    if v.cancelled then Finish(v, false, CancelledMessage)
    else if result.Success? then Advance(v, index, launch)
    else FailStep(v, index, result.exitCode)
  }

  /** A successful step is marked and logged, then the next one is dispatched. */
  function Advance(v: RunView, index: nat, launch: Launch): (w: RunView)
    requires !v.cancelled
    ensures index in w.dialog.status && w.dialog.status[index] == TaskStatus.Success
    ensures w.commands == v.commands && w.cancelled == v.cancelled && w.forceExits == v.forceExits
    ensures |w.dialog.log| >= |v.dialog.log| + 1 && w.dialog.log[..|v.dialog.log|] == v.dialog.log
    ensures w.dialog.log[|v.dialog.log|] == LogLine(StepDoneLine, false)
    ensures v.dialog.completion.None? ==> w.callbacks == v.callbacks + OutcomeReport(v, w)
  {
    var d := AppendOutput(UpdateTaskStatus(v.dialog, index, TaskStatus.Success), StepDoneLine, false);
    var w := Execute(v.(dialog := d), index + 1, launch);
    assert w.dialog.log[..|v.dialog.log|] == w.dialog.log[..|d.log|][..|v.dialog.log|];
    assert w.dialog.log[|v.dialog.log|] == w.dialog.log[..|d.log|][|v.dialog.log|];
    w
  }

  /** A failed step is marked, its exit code logged when there is one, and the run ends as failed. */
  function FailStep(v: RunView, index: nat, code: Option<i32>): (w: RunView)
    ensures w.dialog.status == v.dialog.status[index := Failed]
    ensures w.dialog.completion == Some(Completion(false, FailedAtMessage(index, |v.commands|)))
    ensures w.callbacks == v.callbacks + [false] && !w.running
    ensures w.dialog.log == v.dialog.log
              + (if code.Some? then [LogLine(ExitCodeLine(code.value), true)] else [])
              + [OutcomeLine(false, FailedAtMessage(index, |v.commands|))]
    ensures w == v.(running := false, callbacks := w.callbacks, dialog := w.dialog)
    ensures !w.dialog.cancelVisible && w.dialog.closeVisible
    ensures w.dialog.progress == v.dialog.progress && w.dialog.open == v.dialog.open
  {
    var d := UpdateTaskStatus(v.dialog, index, Failed);
    var d' := if code.Some? then AppendOutput(d, ExitCodeLine(code.value), true) else d;
    Finish(v.(dialog := d'), false, FailedAtMessage(index, |v.commands|))
  }

  /** The finalize attempt of the step in flight: the slot is emptied and the process cleared before the outcome is handled. */
  function FinalizeLive(v: RunView, launch: Launch): (w: RunView)
    requires v.live.Some?
    ensures TryFinalize(v.live.value.signals).fired.None? ==>
              w == v.(live := Some(v.live.value.(signals := TryFinalize(v.live.value.signals).signals)))
    ensures w.commands == v.commands && w.cancelled == v.cancelled && w.forceExits == v.forceExits
    ensures |w.dialog.log| >= |v.dialog.log| && w.dialog.log[..|v.dialog.log|] == v.dialog.log
    ensures v.dialog.completion.None? ==> w.callbacks == v.callbacks + OutcomeReport(v, w)
  {
    var live := v.live.value;
    var a := TryFinalize(live.signals);
    if a.fired.None? then v.(live := Some(live.(signals := a.signals)))
    else Settle(v.(live := None, process := None), live.index, a.fired.value, launch)
  }

  /** A signal for the step in flight, then the finalize attempt. */
  function Arrive(v: RunView, sig: Signal, launch: Launch): (w: RunView)
    requires v.live.Some?
    ensures w.commands == v.commands && w.cancelled == v.cancelled && w.forceExits == v.forceExits
    ensures |w.dialog.log| >= |v.dialog.log| && w.dialog.log[..|v.dialog.log|] == v.dialog.log
    ensures v.dialog.completion.None? ==> w.callbacks == v.callbacks + OutcomeReport(v, w)
  {
    FinalizeLive(v.(live := Some(v.live.value.(signals := Record(v.live.value.signals, sig)))), launch)
  }

  /** Every callback comes from the context of the step in flight; there is none once the run has ended. */
  datatype Event =
    | LineRead(text: string, isErrorStream: bool)
    | ReadFailed(isErrorStream: bool, error: string, launch: Launch)
    | StreamClosed(isErrorStream: bool, launch: Launch)
    | WaitFinished(outcome: WaitOutcome, launch: Launch)
    | CancelClicked
    | CloseRequested
    | CloseClicked

  function ProcessList(p: Option<ProcessHandle>): seq<ProcessHandle> {
    if p.Some? then [p.value] else []
  }

  /** The cancel handler: sets the flag, logs, disables cancel and force-exits the stored process. */
  function Cancel(v: RunView): RunView {
    v.(cancelled := true,
       dialog := DisableCancel(AppendOutput(v.dialog, CancelLine, true)),
       forceExits := v.forceExits + ProcessList(v.process))
  }

  /** The window's close request: clears the running flag, force-exits the stored process, reports failure. */
  function CloseRequest(v: RunView): RunView {
    v.(running := false,
       forceExits := v.forceExits + ProcessList(v.process),
       callbacks := v.callbacks + [false],
       dialog := v.dialog.(open := false))
  }

  /** The close button: closing the window raises its close request, then the callback receives true. */
  function CloseButton(v: RunView): RunView {
    var w := CloseRequest(v);
    w.(callbacks := w.callbacks + [true])
  }

  /** The events that end a stream or deliver the exit result, and so attempt to finalize. */
  predicate Signalling(e: Event) {
    e.ReadFailed? || e.StreamClosed? || e.WaitFinished?
  }

  /** What such an event logs before its signal: a read or wait error. */
  function Prelude(v: RunView, e: Event): (w: RunView)
    requires Signalling(e)
    ensures w == v.(dialog := w.dialog) && w.dialog == v.dialog.(log := w.dialog.log)
    ensures |w.dialog.log| >= |v.dialog.log| && w.dialog.log[..|v.dialog.log|] == v.dialog.log
  {
    match e
    case ReadFailed(_, error, _) => v.(dialog := AppendOutput(v.dialog, ReadErrorLine(error), true))
    case WaitFinished(outcome, _) =>
      if outcome.WaitFailed? then v.(dialog := AppendOutput(v.dialog, WaitErrorLine(outcome.error), true)) else v
    case StreamClosed(_, _) => v
  }

  /** The signal such an event delivers: a failed read ends its stream; a wait yields the step's result. */
  function SignalOf(e: Event): Signal
    requires Signalling(e)
  {
    if e.WaitFinished? then ExitRecorded(WaitToResult(e.outcome)) else StreamEnd(e.isErrorStream)
  }

  function Step(v: RunView, e: Event): RunView {
    match e
    case CancelClicked => Cancel(v)
    case CloseRequested => CloseRequest(v)
    case CloseClicked => CloseButton(v)
    case LineRead(text, isErr) =>
      if v.live.None? then v else v.(dialog := AppendOutput(v.dialog, text + "\n", isErr))
    case _ =>
      if v.live.None? then v else Arrive(Prelude(v, e), SignalOf(e), e.launch)
  }

  function Run(v: RunView, events: seq<Event>): RunView
    decreases |events|
  {
    if events == [] then v else Run(Step(v, events[0]), events[1..])
  }

  /** The outcome of asking for a run. */
  datatype Request = Rejected | Ignored | Accepted(view: RunView)

  /** A run before its first step: flag set, not cancelled, empty process slot, fresh dialog. */
  function Initial(commands: seq<CommandStep>, title: string): RunView {
    RunView(commands, true, false, None, NewDialog(title), [], [], [], None)
  }

  // ---------------------------------------------------------------------------
  // The invariant of every reachable run.

  predicate StartedInOrder(started: seq<Started>) {
    forall i :: 0 <= i < |started| ==> started[i].index == i
  }

  ghost predicate InFlight(v: RunView)
    requires v.live.Some?
  {
    && |v.started| >= 1
    && v.live.value.index == |v.started| - 1
    && v.process == Some(v.started[|v.started| - 1].process)
    && (|v.started| - 1) !in v.dialog.status
  }

  /** Every spawned step but the latest succeeded; a failed step is the latest and the run reports it. */
  ghost predicate StatusesMatch(v: RunView) {
    && (forall i :: i in v.dialog.status ==> i < |v.started|)
    && (forall i :: 0 <= i < |v.started| - 1 ==> i in v.dialog.status && v.dialog.status[i] == TaskStatus.Success)
    && (forall i :: i in v.dialog.status && v.dialog.status[i] == Failed ==>
          i == |v.started| - 1 && v.dialog.completion == Some(Completion(false, FailedAtMessage(i, |v.commands|))))
  }

  ghost predicate ProgressBounded(v: RunView) {
    v.dialog.progress.Some? ==>
      1 <= v.dialog.progress.value.current <= v.dialog.progress.value.total == |v.commands|
  }

  /** A run reports success only after every step was spawned and succeeded. */
  ghost predicate SuccessMeansAllSucceeded(v: RunView) {
    v.dialog.completion.Some? && v.dialog.completion.value.success ==>
      && v.dialog.completion.value.message == AllDoneMessage
      && |v.started| == |v.commands|
      && forall i :: 0 <= i < |v.commands| ==> i in v.dialog.status && v.dialog.status[i] == TaskStatus.Success
  }

  ghost predicate Inv(v: RunView) {
    && v.commands != []
    && |v.started| <= |v.commands|
    && StartedInOrder(v.started)
    && (v.live.Some? <==> v.dialog.completion.None?)
    && (v.live.Some? ==> InFlight(v))
    && (v.live.None? ==> v.process.None?)
    && StatusesMatch(v)
    && (v.running ==> v.live.Some? && v.dialog.open)
    && (v.dialog.cancelVisible <==> v.dialog.completion.None?)
    && (v.dialog.closeVisible <==> v.dialog.completion.Some?)
    && ProgressBounded(v)
    && SuccessMeansAllSucceeded(v)
  }

  /** The state in which step `index` is dispatched: all earlier steps spawned and succeeded, nothing in flight. */
  ghost predicate Between(v: RunView, index: nat) {
    && v.commands != []
    && index == |v.started| && index <= |v.commands|
    && StartedInOrder(v.started)
    && v.live.None? && v.process.None? && v.dialog.completion.None?
    && (forall i :: i in v.dialog.status ==> i < index)
    && (forall i :: 0 <= i < index ==> i in v.dialog.status && v.dialog.status[i] == TaskStatus.Success)
    && (v.running ==> v.dialog.open)
    && v.dialog.cancelVisible && !v.dialog.closeVisible
    && ProgressBounded(v)
  }

  /**
   * Asking for a run: an empty list is rejected and a request while an action is
   * running is ignored, both without any change; otherwise the run starts at step 0
   * and every accepted run satisfies the invariant from its first moment.
   */
  function RunCommandsWithProgress(commands: seq<CommandStep>, title: string, actionRunning: bool, launch: Launch): (r: Request)
    ensures commands == [] ==> r == Rejected
    ensures commands != [] && actionRunning ==> r == Ignored
    ensures commands != [] && !actionRunning ==>
              r.Accepted? && Inv(r.view) && r.view.commands == commands && !r.view.cancelled
              && (if r.view.live.Some? then r.view.running && r.view.live.value.index == 0 && |r.view.started| == 1
                  else !r.view.running && r.view.callbacks == [false] && r.view.started == [])
  {
    if commands == [] then Rejected
    else if actionRunning then Ignored
    else
      var v := Execute(Initial(commands, title), 0, launch);
      ExecuteKeepsInv(Initial(commands, title), 0, launch);
      Accepted(v)
  }

  lemma ExecuteKeepsInv(v: RunView, index: nat, launch: Launch)
    requires Between(v, index)
    ensures Inv(Execute(v, index, launch))
  {
    if v.cancelled {
      FinishKeepsInv(v, index, false, CancelledMessage);
    } else if index >= |v.commands| {
      FinishKeepsInv(v, index, true, AllDoneMessage);
    } else {
      StartStepKeepsInv(v, index, launch);
    }
  }

  /** Ending the run between steps keeps the invariant; a success only after the last step. */
  lemma FinishKeepsInv(v: RunView, index: nat, success: bool, message: string)
    requires Between(v, index) && (success ==> message == AllDoneMessage && index == |v.commands|)
    ensures Inv(Finish(v, success, message))
  {
  }

  lemma StartStepKeepsInv(v: RunView, index: nat, launch: Launch)
    requires Between(v, index) && index < |v.commands|
    ensures Inv(StartStep(v, index, launch))
  {
    var u := v.(dialog := AnnounceStep(v.dialog, index, v.commands));
    assert Between(u, index);
    SpawnKeepsInv(u, index, Resolve(v.commands[index], launch), launch.spawn);
  }

  lemma SpawnKeepsInv(v: RunView, index: nat, r: Result<Invocation, string>, spawn: SpawnResult)
    requires Between(v, index) && index < |v.commands|
    requires v.dialog.progress == Some(StepProgress(index + 1, |v.commands|))
    ensures Inv(Spawn(v, index, r, spawn))
  {
    if r.Ok? && spawn.Spawned? {
      var w := Spawn(v, index, r, spawn);
      assert w.started[index].index == index;
      assert forall i :: 0 <= i < index ==> w.started[i] == v.started[i];
    } else {
      var line := if r.Err? then ErrorLine(r.error) else SpawnErrorLine(spawn.error);
      FinishKeepsInv(v.(dialog := AppendOutput(v.dialog, line, true)), index, false,
                     if r.Err? then PrepareFailedMessage else StartFailedMessage);
    }
  }

  /** The state in which the outcome of the latest step is handled: it is spawned, unmarked, no longer in flight. */
  ghost predicate Settling(v: RunView, index: nat) {
    && v.commands != [] && |v.started| <= |v.commands| && StartedInOrder(v.started)
    && index == |v.started| - 1 && index !in v.dialog.status
    && v.live.None? && v.process.None? && v.dialog.completion.None?
    && StatusesMatch(v) && (v.running ==> v.dialog.open)
    && v.dialog.cancelVisible && !v.dialog.closeVisible && ProgressBounded(v)
  }

  lemma SettleKeepsInv(v: RunView, index: nat, result: CommandResult, launch: Launch)
    requires Settling(v, index)
    ensures Inv(Settle(v, index, result, launch))
  {
    if v.cancelled {
      CancelledSettleKeepsInv(v, index);
    } else if result.Success? {
      AdvanceKeepsInv(v, index, launch);
    } else {
      FailStepKeepsInv(v, index, result.exitCode);
    }
  }

  lemma CancelledSettleKeepsInv(v: RunView, index: nat)
    requires Settling(v, index)
    ensures Inv(Finish(v, false, CancelledMessage))
  {
  }

  lemma AdvanceKeepsInv(v: RunView, index: nat, launch: Launch)
    requires Settling(v, index) && !v.cancelled
    ensures Inv(Advance(v, index, launch))
  {
    var d := AppendOutput(UpdateTaskStatus(v.dialog, index, TaskStatus.Success), StepDoneLine, false);
    ExecuteKeepsInv(v.(dialog := d), index + 1, launch);
  }

  lemma FailStepKeepsInv(v: RunView, index: nat, code: Option<i32>)
    requires Settling(v, index)
    ensures Inv(FailStep(v, index, code))
  {
  }

  lemma ArriveKeepsInv(v: RunView, sig: Signal, launch: Launch)
    requires Inv(v) && v.live.Some?
    ensures Inv(Arrive(v, sig, launch))
  {
    var v2 := v.(live := Some(v.live.value.(signals := Record(v.live.value.signals, sig))));
    var a := TryFinalize(v2.live.value.signals);
    if a.fired.Some? {
      SettleKeepsInv(v2.(live := None, process := None), v2.live.value.index, a.fired.value, launch);
    }
  }

  /** A view with the same steps, outcome and widgets as an invariant one, and no more running, keeps the invariant. */
  ghost predicate SameShape(v: RunView, w: RunView) {
    && w.commands == v.commands && w.started == v.started && w.live == v.live && w.process == v.process
    && w.dialog.status == v.dialog.status && w.dialog.completion == v.dialog.completion
    && w.dialog.progress == v.dialog.progress
    && w.dialog.cancelVisible == v.dialog.cancelVisible && w.dialog.closeVisible == v.dialog.closeVisible
    && (w.running ==> v.running && w.dialog.open == v.dialog.open)
  }

  lemma SameShapeKeepsInv(v: RunView, w: RunView)
    requires Inv(v) && SameShape(v, w)
    ensures Inv(w)
  {
  }

  lemma CancelKeepsInv(v: RunView)
    requires Inv(v)
    ensures Inv(Cancel(v))
  {
    SameShapeKeepsInv(v, Cancel(v));
  }

  lemma CloseKeepsInv(v: RunView)
    requires Inv(v)
    ensures Inv(CloseRequest(v)) && Inv(CloseButton(v))
  {
    SameShapeKeepsInv(v, CloseRequest(v));
    SameShapeKeepsInv(v, CloseButton(v));
  }

  lemma LineKeepsInv(v: RunView, text: string, isErr: bool)
    requires Inv(v)
    ensures Inv(v.(dialog := AppendOutput(v.dialog, text, isErr)))
  {
    SameShapeKeepsInv(v, v.(dialog := AppendOutput(v.dialog, text, isErr)));
  }

  lemma SignalKeepsInv(v: RunView, e: Event)
    requires Inv(v) && v.live.Some? && Signalling(e)
    ensures Inv(Step(v, e))
  {
    ArriveKeepsInv(Prelude(v, e), SignalOf(e), e.launch);
  }

  /** Every event keeps the invariant. */
  lemma StepKeepsInv(v: RunView, e: Event)
    requires Inv(v)
    ensures Inv(Step(v, e))
  {
    if v.live.Some? && Signalling(e) {
      SignalKeepsInv(v, e);
    } else if e.LineRead? {
      if v.live.Some? { LineKeepsInv(v, e.text + "\n", e.isErrorStream); }
    } else if e.CancelClicked? {
      CancelKeepsInv(v);
    } else if e.CloseRequested? || e.CloseClicked? {
      CloseKeepsInv(v);
    }
  }

  lemma {:induction false} RunKeepsInv(v: RunView, events: seq<Event>)
    requires Inv(v)
    ensures Inv(Run(v, events))
    decreases |events|
  {
    if events != [] {
      StepKeepsInv(v, events[0]);
      RunKeepsInv(Step(v, events[0]), events[1..]);
    }
  }

  // ---------------------------------------------------------------------------
  // Properties of histories.

  lemma {:induction false} RunAppend(v: RunView, a: seq<Event>, b: seq<Event>)
    ensures Run(v, a + b) == Run(Run(v, a), b)
    decreases |a|
  {
    if a != [] {
      assert (a + b)[0] == a[0] && (a + b)[1..] == a[1..] + b;
      assert Run(v, a + b) == Run(Step(v, a[0]), a[1..] + b);
      assert Run(v, a) == Run(Step(v, a[0]), a[1..]);
      RunAppend(Step(v, a[0]), a[1..], b);
    } else {
      assert a + b == b;
    }
  }

  /** The dialog's log only ever grows at its end. */
  lemma StepExtendsLog(v: RunView, e: Event)
    ensures |Step(v, e).dialog.log| >= |v.dialog.log|
    ensures Step(v, e).dialog.log[..|v.dialog.log|] == v.dialog.log
  {
    if v.live.Some? && Signalling(e) {
      var v1 := Prelude(v, e);
      var w := Arrive(v1, SignalOf(e), e.launch);
      assert w.dialog.log[..|v.dialog.log|] == w.dialog.log[..|v1.dialog.log|][..|v.dialog.log|];
    }
  }

  lemma {:induction false} RunExtendsLog(v: RunView, events: seq<Event>)
    ensures |Run(v, events).dialog.log| >= |v.dialog.log|
    ensures Run(v, events).dialog.log[..|v.dialog.log|] == v.dialog.log
    decreases |events|
  {
    if events != [] {
      var v1 := Step(v, events[0]);
      StepExtendsLog(v, events[0]);
      RunExtendsLog(v1, events[1..]);
      var w := Run(v1, events[1..]);
      assert w.dialog.log[..|v.dialog.log|] == w.dialog.log[..|v1.dialog.log|][..|v.dialog.log|];
    }
  }

  lemma ArriveAfterCancel(v: RunView, sig: Signal, launch: Launch)
    requires v.cancelled && v.live.Some?
    ensures Arrive(v, sig, launch).started == v.started
    ensures v.dialog.completion.None? ==>
              Arrive(v, sig, launch).dialog.completion.None?
              || Arrive(v, sig, launch).dialog.completion == Some(Completion(false, CancelledMessage))
  {
  }

  /** Once cancelled, a run stays cancelled and never spawns another step. */
  lemma StepAfterCancel(v: RunView, e: Event)
    requires Inv(v) && v.cancelled
    ensures Step(v, e).cancelled && Step(v, e).started == v.started
    ensures v.dialog.completion.None? ==>
              Step(v, e).dialog.completion.None?
              || Step(v, e).dialog.completion == Some(Completion(false, CancelledMessage))
  {
    if v.live.Some? && Signalling(e) {
      ArriveAfterCancel(Prelude(v, e), SignalOf(e), e.launch);
    }
  }

  lemma {:induction false} CancelledRunNeverAdvances(v: RunView, events: seq<Event>)
    requires Inv(v) && v.cancelled
    ensures Run(v, events).cancelled && Run(v, events).started == v.started
    ensures v.dialog.completion.None? ==>
              Run(v, events).dialog.completion.None?
              || Run(v, events).dialog.completion == Some(Completion(false, CancelledMessage))
    ensures v.dialog.completion.Some? ==> Run(v, events).dialog.completion == v.dialog.completion
    decreases |events|
  {
    if events != [] {
      StepAfterCancel(v, events[0]);
      StepKeepsInv(v, events[0]);
      CancelledRunNeverAdvances(Step(v, events[0]), events[1..]);
    }
  }

  /**
   * Cancelling while a step is in flight asks its process to exit; from then on no
   * further step starts and the run can only end as cancelled.
   */
  lemma CancelInFlight(v: RunView, events: seq<Event>)
    requires Inv(v) && v.live.Some?
    ensures Step(v, CancelClicked).forceExits == v.forceExits + [v.started[|v.started| - 1].process]
    ensures var w := Run(Step(v, CancelClicked), events);
            w.started == v.started
            && (w.dialog.completion.None? || w.dialog.completion == Some(Completion(false, CancelledMessage)))
  {
    StepKeepsInv(v, CancelClicked);
    CancelledRunNeverAdvances(Step(v, CancelClicked), events);
  }

  /** After the run has ended no event changes its outcome, its statuses or its steps. */
  lemma StepAfterEnd(v: RunView, e: Event)
    requires Inv(v) && v.dialog.completion.Some?
    ensures var w := Step(v, e);
            w.dialog.completion == v.dialog.completion && w.dialog.status == v.dialog.status
            && w.started == v.started && w.live.None? && w.process.None?
  {
  }

  lemma {:induction false} EndedRunIsFinal(v: RunView, events: seq<Event>)
    requires Inv(v) && v.dialog.completion.Some?
    ensures var w := Run(v, events);
            w.dialog.completion == v.dialog.completion && w.dialog.status == v.dialog.status
            && w.started == v.started && w.live.None? && w.process.None?
    decreases |events|
  {
    if events != [] {
      StepAfterEnd(v, events[0]);
      StepKeepsInv(v, events[0]);
      EndedRunIsFinal(Step(v, events[0]), events[1..]);
    }
  }

  predicate IsCloseEvent(e: Event) {
    e.CloseRequested? || e.CloseClicked?
  }

  /** The callback invocations the window's close handlers make themselves. */
  function CloseReports(e: Event): seq<bool> {
    match e
    case CloseRequested => [false]
    case CloseClicked => [false, true]
    case _ => []
  }

  /** What the run itself reports by one event: its outcome, at the event that ends it. */
  function OutcomeReport(v: RunView, w: RunView): seq<bool> {
    if v.dialog.completion.None? && w.dialog.completion.Some? then [w.dialog.completion.value.success] else []
  }

  lemma StepReports(v: RunView, e: Event)
    requires Inv(v)
    ensures Step(v, e).callbacks == v.callbacks + CloseReports(e) + OutcomeReport(v, Step(v, e))
  {
    if v.live.Some? && Signalling(e) {
      var v1 := Prelude(v, e);
      assert OutcomeReport(v1, Arrive(v1, SignalOf(e), e.launch)) == OutcomeReport(v, Step(v, e));
    }
  }

  /**
   * Apart from the close handlers' own reports, the completion callback receives
   * exactly one value over the whole history: the outcome, once the run ends.
   */
  lemma {:induction false} OneOutcomeReport(v: RunView, events: seq<Event>)
    requires Inv(v)
    requires forall i :: 0 <= i < |events| ==> !IsCloseEvent(events[i])
    ensures Run(v, events).callbacks == v.callbacks + OutcomeReport(v, Run(v, events))
    decreases |events|
  {
    if events != [] {
      var v1 := Step(v, events[0]);
      StepReports(v, events[0]);
      assert CloseReports(events[0]) == [];
      StepKeepsInv(v, events[0]);
      if v.dialog.completion.Some? {
        StepAfterEnd(v, events[0]);
      }
      OneOutcomeReport(v1, events[1..]);
      var w := Run(v1, events[1..]);
      if v1.dialog.completion.Some? {
        EndedRunIsFinal(v1, events[1..]);
      }
      ReportsCompose(v, v1, w);
    }
  }

  lemma ReportsCompose(u: RunView, v: RunView, w: RunView)
    requires v.callbacks == u.callbacks + OutcomeReport(u, v)
    requires w.callbacks == v.callbacks + OutcomeReport(v, w)
    requires u.dialog.completion.Some? ==> v.dialog.completion == u.dialog.completion
    requires v.dialog.completion.Some? ==> w.dialog.completion == v.dialog.completion
    ensures w.callbacks == u.callbacks + OutcomeReport(u, w)
  {
  }

  // ---------------------------------------------------------------------------
  // Runs in which every step succeeds.

  /** Step `k` is in flight in a run that nothing has disturbed. */
  ghost predicate Midway(v: RunView, k: nat) {
    && Inv(v) && !v.cancelled && v.running && v.callbacks == []
    && v.live.Some? && v.live.value.index == k && v.live.value.signals.exitResult.None?
    && v.dialog.progress == Some(StepProgress(k + 1, |v.commands|))
  }

  /** A step that closes both streams and exits with status 0; `next` is what dispatching the following step sees. */
  function CleanStep(next: Launch): seq<Event> {
    [StreamClosed(false, next), StreamClosed(true, next), WaitFinished(Exited(true, 0), next)]
  }

  function CleanSchedule(launches: seq<Launch>): seq<Event>
    decreases |launches|
  {
    if launches == [] then [] else CleanStep(launches[0]) + CleanSchedule(launches[1..])
  }

  /** Each of `launches` lets the step it dispatches resolve and spawn. */
  ghost predicate Dispatchable(commands: seq<CommandStep>, from: nat, launches: seq<Launch>) {
    forall j :: 0 <= j < |launches| && from + j < |commands| ==>
      Resolve(commands[from + j], launches[j]).Ok? && launches[j].spawn.Spawned?
  }

  lemma DispatchableTail(commands: seq<CommandStep>, from: nat, launches: seq<Launch>)
    requires Dispatchable(commands, from, launches) && launches != []
    ensures Dispatchable(commands, from + 1, launches[1..])
  {
    forall j | 0 <= j < |launches[1..]| && from + 1 + j < |commands|
      ensures Resolve(commands[from + 1 + j], launches[1..][j]).Ok? && launches[1..][j].spawn.Spawned?
    {
      assert launches[1..][j] == launches[1 + j];
    }
  }

  lemma RunThree(v: RunView, a: Event, b: Event, c: Event)
    ensures Run(v, [a, b, c]) == Step(Step(Step(v, a), b), c)
  {
    assert [a, b, c][1..] == [b, c] && [b, c][1..] == [c] && [c][1..] == [];
    assert Run(v, [a, b, c]) == Run(Step(v, a), [b, c]);
    assert Run(Step(v, a), [b, c]) == Run(Step(Step(v, a), b), [c]);
    assert Run(Step(Step(v, a), b), [c]) == Run(Step(Step(Step(v, a), b), c), []);
  }

  /** The wait of a step whose streams have both ended completes successfully: the step is settled as a success. */
  lemma WaitSucceededSettles(v: RunView, next: Launch)
    requires v.live.Some? && v.live.value.signals == Signals(true, true, None)
    ensures Step(v, WaitFinished(Exited(true, 0), next))
         == Settle(v.(live := None, process := None), v.live.value.index, CommandResult.Success, next)
  {
    assert WaitToResult(Exited(true, 0)) == CommandResult.Success;
    assert Prelude(v, WaitFinished(Exited(true, 0), next)) == v;
  }

  /** Closing a stream of a step whose wait has not completed only records the closure. */
  lemma StreamClosedEarly(v: RunView, isErr: bool, next: Launch)
    requires v.live.Some? && v.live.value.signals.exitResult.None?
    ensures Step(v, StreamClosed(isErr, next))
         == v.(live := Some(v.live.value.(signals := Record(v.live.value.signals, StreamEnd(isErr)))))
  {
  }

  /** The view in which the step after a successful step `k` is dispatched. */
  function AfterSuccess(v: RunView, k: nat): RunView {
    v.(live := None, process := None,
       dialog := AppendOutput(UpdateTaskStatus(v.dialog, k, TaskStatus.Success), StepDoneLine, false))
  }

  lemma AfterSuccessIsBetween(v: RunView, k: nat)
    requires Midway(v, k)
    ensures Between(AfterSuccess(v, k), k + 1)
  {
  }

  /** The successful wait of a step whose streams have both ended dispatches the next step. */
  lemma CleanWaitDispatchesNext(v: RunView, k: nat, next: Launch)
    requires v.live == Some(Live(k, Signals(true, true, None))) && !v.cancelled
    ensures Step(v, WaitFinished(Exited(true, 0), next)) == Execute(AfterSuccess(v, k), k + 1, next)
  {
    WaitSucceededSettles(v, next);
    var u := v.(live := None, process := None);
    assert Settle(u, k, CommandResult.Success, next) == Advance(u, k, next);
  }

  lemma CleanStepDispatchesNext(v: RunView, k: nat, next: Launch)
    requires v.live.Some? && v.live.value.index == k && v.live.value.signals.exitResult.None? && !v.cancelled
    ensures Run(v, CleanStep(next)) == Execute(AfterSuccess(v, k), k + 1, next)
  {
    var v1 := Step(v, StreamClosed(false, next));
    StreamClosedEarly(v, false, next);
    var v2 := Step(v1, StreamClosed(true, next));
    StreamClosedEarly(v1, true, next);
    assert v2.live == Some(Live(k, Signals(true, true, None)));
    CleanWaitDispatchesNext(v2, k, next);
    assert AfterSuccess(v, k) == AfterSuccess(v2, k);
    RunThree(v, StreamClosed(false, next), StreamClosed(true, next), WaitFinished(Exited(true, 0), next));
  }

  /** After a clean step that is not the last one, the next step is in flight. */
  lemma CleanStepAdvances(v: RunView, k: nat, next: Launch)
    requires Midway(v, k) && k + 1 < |v.commands|
    requires Resolve(v.commands[k + 1], next).Ok? && next.spawn.Spawned?
    ensures var w := Execute(AfterSuccess(v, k), k + 1, next);
            && |w.dialog.log| >= |v.dialog.log| + 1 && w.dialog.log[..|v.dialog.log|] == v.dialog.log
            && w.dialog.log[|v.dialog.log|] == LogLine(StepDoneLine, false)
            && w.commands == v.commands && Midway(w, k + 1)
            && w.started == v.started + [Started(k + 1, Argv(Resolve(v.commands[k + 1], next).value), next.spawn.process)]
  {
    AfterSuccessIsBetween(v, k);
    var u := AfterSuccess(v, k);
    SpawnedStepIsMidway(u, k + 1, next);
    var w := Execute(u, k + 1, next);
    assert w.dialog.log[..|v.dialog.log|] == w.dialog.log[..|u.dialog.log|][..|v.dialog.log|];
    assert w.dialog.log[|v.dialog.log|] == w.dialog.log[..|u.dialog.log|][|v.dialog.log|];
  }

  /** Dispatching a step that resolves and spawns, in an undisturbed run, leaves it in flight. */
  lemma SpawnedStepIsMidway(u: RunView, index: nat, next: Launch)
    requires Between(u, index) && !u.cancelled && u.running && u.callbacks == [] && index < |u.commands|
    requires Resolve(u.commands[index], next).Ok? && next.spawn.Spawned?
    ensures Midway(Execute(u, index, next), index)
  {
    ExecuteKeepsInv(u, index, next);
  }

  /** After the clean last step, the run has ended with the success marker and the all-done message. */
  lemma CleanStepFinishes(v: RunView, k: nat, next: Launch)
    requires Midway(v, k) && k + 1 == |v.commands|
    ensures var w := Execute(AfterSuccess(v, k), k + 1, next);
            && w.dialog.completion == Some(Completion(true, AllDoneMessage)) && w.callbacks == [true]
            && !w.running && Inv(w) && w.dialog.progress == v.dialog.progress && w.started == v.started
            && w.commands == v.commands && w.dialog.status == v.dialog.status[k := TaskStatus.Success]
            && w.dialog.log == v.dialog.log + [LogLine(StepDoneLine, false), OutcomeLine(true, AllDoneMessage)]
  {
    AfterSuccessIsBetween(v, k);
    ExecuteKeepsInv(AfterSuccess(v, k), k + 1, next);
  }

  /** A run that ended in success after all `n` steps, having reported nothing else. */
  ghost predicate EndedInSuccess(w: RunView, n: nat) {
    && w.dialog.completion == Some(Completion(true, AllDoneMessage)) && w.callbacks == [true]
    && !w.running && |w.started| == n
    && (forall i :: 0 <= i < n ==> i in w.dialog.status && w.dialog.status[i] == TaskStatus.Success)
    && w.dialog.progress == Some(StepProgress(n, n))
  }

  lemma CleanScheduleUnfolds(v: RunView, k: nat, launches: seq<Launch>)
    requires launches != []
    requires v.live.Some? && v.live.value.index == k && v.live.value.signals.exitResult.None? && !v.cancelled
    ensures Run(v, CleanSchedule(launches))
         == Run(Execute(AfterSuccess(v, k), k + 1, launches[0]), CleanSchedule(launches[1..]))
  {
    CleanStepDispatchesNext(v, k, launches[0]);
    RunAppend(v, CleanStep(launches[0]), CleanSchedule(launches[1..]));
  }

  /** A clean last step ends the run in success. */
  lemma LastCleanStep(v: RunView, k: nat, launches: seq<Launch>)
    requires Midway(v, k) && |launches| == 1 && k + 1 == |v.commands|
    ensures EndedInSuccess(Run(v, CleanSchedule(launches)), |v.commands|)
  {
    CleanScheduleUnfolds(v, k, launches);
    CleanStepFinishes(v, k, launches[0]);
    assert launches[1..] == [];
  }

  /** A clean step before the last one leaves the next step in flight, with the remaining launches still dispatchable. */
  lemma NextCleanStep(v: RunView, k: nat, launches: seq<Launch>) returns (w: RunView)
    requires Midway(v, k) && |launches| == |v.commands| - k && k + 1 < |v.commands|
    requires Dispatchable(v.commands, k + 1, launches)
    ensures Midway(w, k + 1) && w.commands == v.commands && |launches[1..]| == |w.commands| - (k + 1)
    ensures Dispatchable(w.commands, k + 2, launches[1..])
    ensures Run(v, CleanSchedule(launches)) == Run(w, CleanSchedule(launches[1..]))
  {
    CleanScheduleUnfolds(v, k, launches);
    w := Execute(AfterSuccess(v, k), k + 1, launches[0]);
    DispatchableTail(v.commands, k + 1, launches);
    CleanStepAdvances(v, k, launches[0]);
  }

  lemma {:induction false} CleanScheduleSucceeds(v: RunView, k: nat, launches: seq<Launch>)
    requires Midway(v, k) && |launches| == |v.commands| - k
    requires Dispatchable(v.commands, k + 1, launches)
    ensures EndedInSuccess(Run(v, CleanSchedule(launches)), |v.commands|)
    decreases |launches|
  {
    if k + 1 == |v.commands| {
      LastCleanStep(v, k, launches);
    } else {
      var w := NextCleanStep(v, k, launches);
      CleanScheduleSucceeds(w, k + 1, launches[1..]);
    }
  }

  /**
   * A run whose every step resolves, spawns and exits with status 0 ends with every
   * step marked successful, progress at n of n, the all-done message and a single
   * true handed to the callback.
   */
  lemma AllStepsSucceed(commands: seq<CommandStep>, title: string, launches: seq<Launch>)
    requires commands != [] && |launches| == |commands| + 1
    requires Dispatchable(commands, 0, launches)
    ensures var r := RunCommandsWithProgress(commands, title, false, launches[0]);
            && r.Accepted?
            && EndedInSuccess(Run(r.view, CleanSchedule(launches[1..])), |commands|)
  {
    var v := RunCommandsWithProgress(commands, title, false, launches[0]).view;
    assert Resolve(commands[0], launches[0]).Ok? && launches[0].spawn.Spawned?;
    DispatchableTail(commands, 0, launches);
    CleanScheduleSucceeds(v, 0, launches[1..]);
  }

  // ---------------------------------------------------------------------------
  // Concrete runs.

  const SayHi: CommandStep := NormalStep("echo", ["hi"], "Say hi")
  const RestartFoo: CommandStep := PrivilegedStep("systemctl", ["restart", "foo"], "Restart foo")

  /** The start of the two-step run: the echo is in flight and its line has been logged. */
  lemma EchoStarts(title: string, first: Launch)
    requires first.spawn.Spawned?
    ensures var r := RunCommandsWithProgress([SayHi, RestartFoo], title, false, first);
            && r.Accepted?
            && var v1 := Step(r.view, LineRead("hi", false));
            && Midway(v1, 0)
            && v1.started == [Started(0, ["echo", "hi"], first.spawn.process)]
            && v1.dialog.log == r.view.dialog.log + [LogLine("hi\n", false)]
            && v1.commands == [SayHi, RestartFoo]
  {
    var commands := [SayHi, RestartFoo];
    var v := RunCommandsWithProgress(commands, title, false, first).view;
    assert v == Execute(Initial(commands, title), 0, first);
    assert v.live.Some?;
    assert Argv(Invocation("echo", ["hi"])) == ["echo", "hi"];
    var v1 := Step(v, LineRead("hi", false));
    assert "hi" + "\n" == "hi\n";
    assert v1 == v.(dialog := AppendOutput(v.dialog, "hi\n", false));
    StepKeepsInv(v, LineRead("hi", false));
  }

  lemma RunCons(v: RunView, e: Event, rest: seq<Event>)
    ensures Run(v, [e] + rest) == Run(Step(v, e), rest)
  {
    assert ([e] + rest)[0] == e && ([e] + rest)[1..] == rest;
  }

  /** Two clean steps in a row, the first of which is not the last of the run. */
  lemma TwoCleanSteps(v: RunView, k: nat, second: Launch, after: Launch)
    requires Midway(v, k) && k + 1 < |v.commands|
    requires Resolve(v.commands[k + 1], second).Ok? && second.spawn.Spawned?
    ensures Run(v, CleanStep(second) + CleanStep(after))
         == Execute(AfterSuccess(Execute(AfterSuccess(v, k), k + 1, second), k + 1), k + 2, after)
  {
    CleanStepDispatchesNext(v, k, second);
    CleanStepAdvances(v, k, second);
    var w1 := Execute(AfterSuccess(v, k), k + 1, second);
    CleanStepDispatchesNext(w1, k + 1, after);
    RunAppend(v, CleanStep(second), CleanStep(after));
  }

  /** The end of the echo-then-restart run. */
  ghost predicate EchoOutcome(w: RunView) {
    && |w.started| == 2
    && w.started[0].argv == ["echo", "hi"]
    && w.started[1].argv == ["pkexec", "systemctl", "restart", "foo"]
    && w.dialog.progress == Some(StepProgress(2, 2))
    && LogLine("hi\n", false) in w.dialog.log
    && |w.dialog.log| >= 2
    && w.dialog.log[|w.dialog.log| - 1] == OutcomeLine(true, AllDoneMessage)
    && w.dialog.log[|w.dialog.log| - 2] == LogLine(StepDoneLine, false)
    && w.dialog.completion == Some(Completion(true, "All operations completed successfully!"))
    && w.callbacks == [true]
  }

  /** The two steps of the run, once the echo's line has been logged. */
  lemma EchoFinishes(v1: RunView, p: ProcessHandle, second: Launch, after: Launch)
    requires Midway(v1, 0) && v1.commands == [SayHi, RestartFoo] && second.spawn.Spawned?
    requires v1.started == [Started(0, ["echo", "hi"], p)] && LogLine("hi\n", false) in v1.dialog.log
    ensures EchoOutcome(Run(v1, CleanStep(second) + CleanStep(after)))
  {
    TwoCleanSteps(v1, 0, second, after);
    RestartStarts(v1, p, second);
    RestartFinishes(Execute(AfterSuccess(v1, 0), 1, second), p, second.spawn.process, after);
  }

  lemma RestartStarts(v1: RunView, p: ProcessHandle, second: Launch)
    requires Midway(v1, 0) && v1.commands == [SayHi, RestartFoo] && second.spawn.Spawned?
    requires v1.started == [Started(0, ["echo", "hi"], p)] && LogLine("hi\n", false) in v1.dialog.log
    ensures var w1 := Execute(AfterSuccess(v1, 0), 1, second);
            && Midway(w1, 1) && w1.commands == v1.commands
            && w1.started == [Started(0, ["echo", "hi"], p),
                              Started(1, ["pkexec", "systemctl", "restart", "foo"], second.spawn.process)]
            && LogLine("hi\n", false) in w1.dialog.log
  {
    CleanStepAdvances(v1, 0, second);
    var w1 := Execute(AfterSuccess(v1, 0), 1, second);
    assert LogLine("hi\n", false) in w1.dialog.log[..|v1.dialog.log|];
    var inv := Resolve(RestartFoo, second).value;
    assert inv.args == ["systemctl", "restart", "foo"];
    assert Argv(inv) == ["pkexec", "systemctl", "restart", "foo"];
  }

  lemma RestartFinishes(w1: RunView, p: ProcessHandle, q: ProcessHandle, after: Launch)
    requires Midway(w1, 1) && w1.commands == [SayHi, RestartFoo]
    requires w1.started == [Started(0, ["echo", "hi"], p), Started(1, ["pkexec", "systemctl", "restart", "foo"], q)]
    requires LogLine("hi\n", false) in w1.dialog.log
    ensures EchoOutcome(Execute(AfterSuccess(w1, 1), 2, after))
  {
    CleanStepFinishes(w1, 1, after);
    var w := Execute(AfterSuccess(w1, 1), 2, after);
    assert w.dialog.log[..|w1.dialog.log|] == w1.dialog.log;
  }

  /**
   * Two steps, an unprivileged echo that prints one line and a privileged restart,
   * both exiting with status 0: the echo's line is in the log, the restart runs
   * under pkexec, progress ends at 2 of 2 and the run reports success.
   */
  lemma EchoThenRestart(title: string, first: Launch, second: Launch, after: Launch)
    requires first.spawn.Spawned? && second.spawn.Spawned?
    ensures var r := RunCommandsWithProgress([SayHi, RestartFoo], title, false, first);
            && r.Accepted?
            && EchoOutcome(Run(r.view, [LineRead("hi", false)] + CleanStep(second) + CleanStep(after)))
  {
    EchoStarts(title, first);
    var v := RunCommandsWithProgress([SayHi, RestartFoo], title, false, first).view;
    var v1 := Step(v, LineRead("hi", false));
    EchoFinishes(v1, first.spawn.process, second, after);
    EchoHistory(v, second, after);
  }

  lemma EchoHistory(v: RunView, second: Launch, after: Launch)
    ensures Run(v, [LineRead("hi", false)] + CleanStep(second) + CleanStep(after))
         == Run(Step(v, LineRead("hi", false)), CleanStep(second) + CleanStep(after))
  {
    RunCons(v, LineRead("hi", false), CleanStep(second) + CleanStep(after));
    assert [LineRead("hi", false)] + CleanStep(second) + CleanStep(after)
        == [LineRead("hi", false)] + (CleanStep(second) + CleanStep(after));
  }

  const FailStepCommand: CommandStep := NormalStep("false", [], "Fail")

  /** The start of the one-step run: its step is in flight, nothing marked, nothing reported. */
  lemma FalseStarts(title: string, first: Launch)
    requires first.spawn.Spawned?
    ensures var r := RunCommandsWithProgress([FailStepCommand], title, false, first);
            && r.Accepted? && r.view.commands == [FailStepCommand] && !r.view.cancelled
            && r.view.live.Some? && r.view.live.value.index == 0 && r.view.live.value.signals.exitResult.None?
            && r.view.dialog.status == map[] && r.view.callbacks == [] && r.view.running
  {
    var v := RunCommandsWithProgress([FailStepCommand], title, false, first).view;
    assert v == Execute(Initial([FailStepCommand], title), 0, first);
  }

  /** The failing exit of the only step of a run marks it failed and ends the run. */
  lemma OnlyStepFails(v: RunView, after: Launch, code: i32)
    requires |v.commands| == 1 && !v.cancelled
    requires v.live.Some? && v.live.value.index == 0 && v.live.value.signals.exitResult.None?
    requires v.dialog.status == map[] && v.callbacks == []
    ensures var w := Run(v, [StreamClosed(false, after), StreamClosed(true, after), WaitFinished(Exited(false, code), after)]);
            && w.dialog.status == map[0 := Failed]
            && w.dialog.completion == Some(Completion(false, "Operation failed at step 1 of 1"))
            && LogLine(ExitCodeLine(code), true) in w.dialog.log
            && w.callbacks == [false] && !w.running
  {
    var v1 := Step(v, StreamClosed(false, after));
    StreamClosedEarly(v, false, after);
    var v2 := Step(v1, StreamClosed(true, after));
    StreamClosedEarly(v1, true, after);
    assert v2.live.value.signals == Signals(true, true, None);
    var v3 := Step(v2, WaitFinished(Exited(false, code), after));
    var u := v2.(live := None, process := None);
    assert v3 == Settle(u, 0, Failure(Some(code)), after);
    assert v3 == FailStep(u, 0, Some(code));
    FailedAtOnlyStep();
    assert v3.dialog.log[|v2.dialog.log|] == LogLine(ExitCodeLine(code), true);
    RunThree(v, StreamClosed(false, after), StreamClosed(true, after), WaitFinished(Exited(false, code), after));
  }

  /** A single unprivileged `false`: step 1 is marked failed, its exit code is logged, the run reports failure. */
  lemma FalseFails(title: string, first: Launch, after: Launch, code: i32)
    requires first.spawn.Spawned?
    ensures var r := RunCommandsWithProgress([FailStepCommand], title, false, first);
            && r.Accepted?
            && var w := Run(r.view, [StreamClosed(false, after), StreamClosed(true, after), WaitFinished(Exited(false, code), after)]);
            && w.dialog.status == map[0 := Failed]
            && w.dialog.completion == Some(Completion(false, "Operation failed at step 1 of 1"))
            && LogLine(ExitCodeLine(code), true) in w.dialog.log
            && w.callbacks == [false] && !w.running
  {
    FalseStarts(title, first);
    OnlyStepFails(RunCommandsWithProgress([FailStepCommand], title, false, first).view, after, code);
  }
}

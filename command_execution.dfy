/**
 * The pipeline with its state held the way the program holds it: the
 * process-wide running flag in an `App`, the state shared by one run's handlers
 * in a `Run`, and each spawned step's completion state in a
 * `RunningCommandContext`. Every method's new state is the pure transition of
 * the `Pipeline` module applied to the old state, so everything proved there
 * about histories holds for these objects.
 */
module CommandExecution {
  import opened Wrappers
  import opened CommandTypes
  import opened Progress
  import opened Executor
  import opened Context
  import opened Pipeline
  import Utils

  /** Holder of the process-wide "an action is running" flag. */
  class App {
    var actionRunning: bool

    constructor ()
      ensures !actionRunning
    {
      actionRunning := false;
    }

    /** Reports the flag: while it holds, every non-empty request to start a run is ignored, and only then. */
    method IsActionRunning() returns (running: bool)
      ensures running == actionRunning
      ensures forall commands, title, launch :: commands != [] ==>
                (Pipeline.RunCommandsWithProgress(commands, title, actionRunning, launch) == Ignored <==> running)
    {
      running := actionRunning;
    }

    /**
     * Starts a run: an empty list is refused and a request while an action is
     * running is ignored, neither touching the flag; otherwise the flag is set,
     * the dialog is presented and step 0 is dispatched.
     */
    method RunCommandsWithProgress(commands: seq<CommandStep>, title: string, launch: Launch) returns (run: Run?)
      modifies this
      ensures commands == [] ==> run == null && actionRunning == old(actionRunning)
      ensures commands != [] && old(actionRunning) ==> run == null && actionRunning
      ensures commands != [] && !old(actionRunning) ==>
                run != null && fresh(run) && run.app == this && run.commands == commands
                && run.View() == Pipeline.RunCommandsWithProgress(commands, title, false, launch).view
                && Inv(run.View())
    {
      if commands == [] {
        return null;
      }
      if actionRunning {
        return null;
      }
      actionRunning := true;
      run := new Run(this, commands, title);
      run.ExecuteCommandsSequence(0, launch);
      ExecuteKeepsInv(Initial(commands, title), 0, launch);
    }
  }

  /** The state one run's handlers share. */
  class Run {
    const app: App
    const commands: seq<CommandStep>
    var cancelled: bool
    var currentProcess: Option<ProcessHandle>
    var dialog: Dialog
    var callbacks: seq<bool>
    var forceExits: seq<ProcessHandle>
    ghost var started: seq<Started>
    /** The context of the step in flight, if any. */
    ghost var live: RunningCommandContext?

    ghost function View(): RunView
      reads this, app, live
    {
      RunView(commands, app.actionRunning, cancelled, currentProcess, dialog, callbacks, forceExits, started,
              if live == null then None else Some(Live(live.index, Signals(live.stdoutDone, live.stderrDone, live.exitResult))))
    }

    constructor (app: App, commands: seq<CommandStep>, title: string)
      ensures this.app == app && this.commands == commands
      ensures View() == Initial(commands, title).(running := app.actionRunning)
    {
      this.app := app;
      this.commands := commands;
      cancelled := false;
      currentProcess := None;
      dialog := NewDialog(title);
      callbacks := [];
      forceExits := [];
      started := [];
      live := null;
    }

    method AppendOutput(text: string, isError: bool)
      modifies this
      ensures dialog == Executor.AppendOutput(old(dialog), text, isError) && live == old(live)
      ensures View() == old(View()).(dialog := dialog)
    {
      dialog := Executor.AppendOutput(dialog, text, isError);
    }

    /** Clears the running flag and shows the outcome; the callers report it. */
    method FinalizeExecution(success: bool, message: string)
      modifies this, app
      ensures View() == old(View()).(running := false, dialog := FinalizeDialog(old(dialog), success, message))
    {
      app.actionRunning := false;
      dialog := ShowCompletion(dialog, success, message);
      if success {
        dialog := Executor.AppendOutput(dialog, "\n" + SuccessMark + " " + message + "\n", false);
      } else {
        dialog := Executor.AppendOutput(dialog, "\n" + FailureMark + " " + message + "\n", true);
      }
    }

    /** Ending the run: finalize, then report the outcome to the completion callback. */
    method Complete(success: bool, message: string)
      modifies this, app
      ensures View() == Finish(old(View()), success, message)
    {
      FinalizeExecution(success, message);
      callbacks := callbacks + [success];
    }

    /** The argument vector: the program, then each argument in order. */
    static method BuildArgv(inv: Invocation) returns (argv: seq<string>)
      ensures argv == Argv(inv)
    {
      argv := [inv.program];
      for i := 0 to |inv.args|
        invariant argv == [inv.program] + inv.args[..i]
      {
        argv := argv + [inv.args[i]];
      }
      assert inv.args[..|inv.args|] == inv.args;
    }

    /** Resolution of a step, probing PATH for an AUR helper only when an AUR step has none configured. */
    static method ResolveStep(step: CommandStep, launch: Launch) returns (r: Result<Invocation, string>)
      ensures r == Resolve(step, launch)
    {
      var detected: Option<string> := None;
      if step.commandType == Aur && launch.configuredHelper.None? {
        detected := Utils.DetectAurHelper(launch.fs, launch.pathVar);
      }
      r := ResolveCommand(step, launch.configuredHelper, detected);
    }

    method ExecuteCommandsSequence(index: nat, launch: Launch)
      modifies this, app
      ensures View() == Execute(old(View()), index, launch)
      decreases |commands| - index, 6
    {
      if cancelled {
        Complete(false, CancelledMessage);
        return;
      }
      if index >= |commands| {
        Complete(true, AllDoneMessage);
        return;
      }
      RunStep(index, launch);
    }

    /** Announcing step `index` on the dialog, then resolving and spawning it. */
    method RunStep(index: nat, launch: Launch)
      requires index < |commands|
      modifies this, app
      ensures View() == Pipeline.StartStep(old(View()), index, launch)
      decreases |commands| - index, 5
    {
      var step := commands[index];
      var total := |commands|;
      dialog := UpdateProgress(dialog, index + 1, total);
      dialog := SetTitle(dialog, step.friendlyName);
      AppendOutput(StepHeader(index, total, step.friendlyName), false);
      assert dialog == AnnounceStep(old(dialog), index, commands);
      var resolved := ResolveStep(step, launch);
      SpawnStep(index, resolved, launch);
    }

    /** Spawning a resolved step; a resolution or spawn error ends the run as failed. */
    method SpawnStep(index: nat, resolved: Result<Invocation, string>, launch: Launch)
      requires index < |commands|
      modifies this, app
      ensures View() == Spawn(old(View()), index, resolved, launch.spawn)
      decreases |commands| - index, 4
    {
      if resolved.Err? {
        AppendOutput(ErrorLine(resolved.error), true);
        Complete(false, PrepareFailedMessage);
        return;
      }
      var argv := BuildArgv(resolved.value);
      match launch.spawn {
        case SpawnFailed(err) =>
          AppendOutput(SpawnErrorLine(err), true);
          Complete(false, StartFailedMessage);
        case Spawned(p, outPipe, errPipe) =>
          AttachContext(index, argv, p, outPipe, errPipe, launch);
      }
    }

    /** Storing the spawned child and creating the context that collects its completion. */
    method AttachContext(index: nat, argv: seq<string>, p: ProcessHandle, outPipe: bool, errPipe: bool, launch: Launch)
      requires index < |commands|
      modifies this, app
      ensures View() == old(View()).(process := Some(p), started := old(started) + [Started(index, argv, p)],
                                     live := Some(Live(index, Signals(!outPipe, !errPipe, None))))
      decreases |commands| - index, 3
    {
      currentProcess := Some(p);
      started := started + [Started(index, argv, p)];
      var context := new RunningCommandContext(this, index);
      live := context;
      // A missing pipe is an ended stream; with no exit result yet the finalize attempt does nothing.
      if !outPipe {
        context.MarkStreamDone(false, launch);
        assert live == context;
      }
      if !errPipe {
        context.MarkStreamDone(true, launch);
      }
    }

    /** What the finalize attempt does once the step's outcome is known. */
    method HandleOutcome(index: nat, result: CommandResult, launch: Launch)
      requires index < |commands|
      modifies this, app
      ensures View() == Settle(old(View()), index, result, launch)
      decreases |commands| - index, 0
    {
      if cancelled {
        Complete(false, CancelledMessage);
      } else if result.Success? {
        CompleteStep(index, launch);
      } else {
        FailStep(index, result.exitCode);
      }
    }

    /** A successful step: it is marked and logged, then the next step is dispatched. */
    method CompleteStep(index: nat, launch: Launch)
      requires index < |commands| && !cancelled
      modifies this, app
      ensures View() == Advance(old(View()), index, launch)
      decreases |commands| - index - 1, 7
    {
      dialog := UpdateTaskStatus(dialog, index, TaskStatus.Success);
      AppendOutput(StepDoneLine, false);
      ExecuteCommandsSequence(index + 1, launch);
    }

    /** A failed step: it is marked, its exit code logged when there is one, and the run ends as failed. */
    method FailStep(index: nat, code: Option<i32>)
      modifies this, app
      ensures View() == Pipeline.FailStep(old(View()), index, code)
    {
      dialog := UpdateTaskStatus(dialog, index, Failed);
      if code.Some? {
        AppendOutput(ExitCodeLine(code.value), true);
      }
      Complete(false, FailedAtMessage(index, |commands|));
    }

    /** The cancel button. */
    method Cancel()
      modifies this
      ensures View() == Pipeline.Cancel(old(View()))
    {
      cancelled := true;
      AppendOutput(CancelLine, true);
      dialog := DisableCancel(dialog);
      if currentProcess.Some? {
        forceExits := forceExits + [currentProcess.value];
      }
    }

    /** The window's close request. */
    method CloseRequest()
      modifies this, app
      ensures View() == Pipeline.CloseRequest(old(View()))
    {
      app.actionRunning := false;
      if currentProcess.Some? {
        forceExits := forceExits + [currentProcess.value];
      }
      callbacks := callbacks + [false];
      dialog := dialog.(open := false);
    }

    /** The close button: closing the window runs its close request first. */
    method CloseButton()
      modifies this, app
      ensures View() == Pipeline.CloseButton(old(View()))
    {
      CloseRequest();
      callbacks := callbacks + [true];
    }
  }

  /** The completion state of one spawned step. Its handlers run only while it is the run's step in flight. */
  class RunningCommandContext {
    const run: Run
    const index: nat
    var stdoutDone: bool
    var stderrDone: bool
    var exitResult: Option<CommandResult>

    constructor (run: Run, index: nat)
      ensures this.run == run && this.index == index
      ensures !stdoutDone && !stderrDone && exitResult.None?
    {
      this.run := run;
      this.index := index;
      stdoutDone := false;
      stderrDone := false;
      exitResult := None;
    }

    method MarkStreamDone(isErrorStream: bool, launch: Launch)
      requires run.live == this && index < |run.commands|
      modifies this, run, run.app
      ensures run.View() == Arrive(old(run.View()), StreamEnd(isErrorStream), launch)
      ensures old(exitResult).None? ==> run.live == this
      decreases |run.commands| - index, 2
    {
      if isErrorStream {
        stderrDone := true;
      } else {
        stdoutDone := true;
      }
      TryFinalize(launch);
    }

    method SetExitResult(result: CommandResult, launch: Launch)
      requires run.live == this && index < |run.commands|
      modifies this, run, run.app
      ensures run.View() == Arrive(old(run.View()), ExitRecorded(result), launch)
      decreases |run.commands| - index, 2
    {
      exitResult := Some(result);
      TryFinalize(launch);
    }

    /**
     * Once both streams have ended and an exit result is stored, the result is
     * taken, the context stops being the step in flight, the process slot is
     * cleared and the outcome is handled; otherwise nothing changes.
     */
    method TryFinalize(launch: Launch)
      requires run.live == this && index < |run.commands|
      modifies this, run, run.app
      ensures run.View() == FinalizeLive(old(run.View()), launch)
      ensures old(exitResult).None? ==> run.live == this
      decreases |run.commands| - index, 1
    {
      if !(stdoutDone && stderrDone) {
        return;
      }
      var result := exitResult;
      exitResult := None;
      if result.None? {
        return;
      }
      run.live := null;
      run.currentProcess := None;
      run.HandleOutcome(index, result.value, launch);
    }

    /** A line of output: it is logged with a newline restored. */
    method OnLine(text: string, isErrorStream: bool)
      requires run.live == this
      modifies run
      ensures run.View() == Step(old(run.View()), LineRead(text, isErrorStream))
    {
      run.AppendOutput(text + "\n", isErrorStream);
    }

    method OnEndOfStream(isErrorStream: bool, launch: Launch)
      requires run.live == this && index < |run.commands|
      modifies this, run, run.app
      ensures run.View() == Step(old(run.View()), StreamClosed(isErrorStream, launch))
    {
      MarkStreamDone(isErrorStream, launch);
    }

    /** A read error is logged and ends the stream. */
    method OnReadError(isErrorStream: bool, error: string, launch: Launch)
      requires run.live == this && index < |run.commands|
      modifies this, run, run.app
      ensures run.View() == Step(old(run.View()), ReadFailed(isErrorStream, error, launch))
    {
      run.AppendOutput(ReadErrorLine(error), true);
      MarkStreamDone(isErrorStream, launch);
    }

    /** The wait completion: the exit state becomes the step's result; a failed wait is logged first. */
    method OnWaitCompleted(outcome: WaitOutcome, launch: Launch)
      requires run.live == this && index < |run.commands|
      modifies this, run, run.app
      ensures run.View() == Step(old(run.View()), WaitFinished(outcome, launch))
    {
      var result: CommandResult;
      match outcome {
        case Exited(successful, status) =>
          result := if successful then CommandResult.Success else Failure(Some(status));
        case WaitFailed(error) =>
          run.AppendOutput(WaitErrorLine(error), true);
          result := Failure(None);
      }
      SetExitResult(result, launch);
    }
  }
}

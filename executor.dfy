/**
 * The value-level parts of step execution: resolving a step to a program and
 * argument vector, mapping a wait outcome to a step result, and what the log
 * and dialog receive on the way.
 */
module Executor {
  import opened Wrappers
  import opened CommandTypes
  import opened Progress
  import Format

  const PrivilegeTool: string := "pkexec"
  const HelperMissing: string := "AUR helper not initialized (paru or yay required)."
  const SuccessMark: string := "✓"
  const FailureMark: string := "✗"

  const CancelledMessage: string := "Operation cancelled"
  const AllDoneMessage: string := "All operations completed successfully!"
  const PrepareFailedMessage: string := "Failed to prepare command"
  const StartFailedMessage: string := "Failed to start operation"
  const StepDoneLine: string := SuccessMark + " Step completed successfully\n"
  const CancelLine: string := "\n[Cancelled by user]\n"

  /** A concrete invocation: the program and its arguments (argv without argv[0]). */
  datatype Invocation = Invocation(program: string, args: seq<string>)

  /**
   * What a step runs. Normal steps run as given; privileged ones run the original
   * program through the escalation tool; AUR steps run the configured helper, or
   * else the detected one, asking it to escalate itself, and fail when there is
   * neither. An AUR step's own program name plays no part.
   */
  function ResolveCommand(step: CommandStep, configured: Option<string>, detected: Option<string>): (r: Result<Invocation, string>)
    ensures step.commandType == Normal ==> r == Ok(Invocation(step.command, step.args))
    ensures step.commandType == Privileged ==>
              r.Ok? && r.value.program == PrivilegeTool && |r.value.args| == |step.args| + 1
              && r.value.args[0] == step.command && r.value.args[1..] == step.args
    ensures step.commandType == Aur ==> (r.Err? <==> configured.None? && detected.None?)
    ensures step.commandType == Aur && r.Err? ==> r.error == HelperMissing
    ensures step.commandType == Aur && r.Ok? ==>
              r.value.program == (if configured.Some? then configured.value else detected.value)
              && |r.value.args| == |step.args| + 2
              && r.value.args[..2] == ["--sudo", PrivilegeTool] && r.value.args[2..] == step.args
  {
    match step.commandType
    case Normal => Ok(Invocation(step.command, step.args))
    case Privileged => Ok(Invocation(PrivilegeTool, [step.command] + step.args))
    case Aur =>
      var helper := if configured.Some? then configured else detected;
      if helper.None? then Err(HelperMissing)
      else Ok(Invocation(helper.value, ["--sudo", PrivilegeTool] + step.args))
  }

  /** The program name of an AUR step is ignored: any other name resolves the same way. */
  lemma AurIgnoresCommandName(step: CommandStep, name: string, configured: Option<string>, detected: Option<string>)
    requires step.commandType == Aur
    ensures ResolveCommand(step.(command := name), configured, detected) == ResolveCommand(step, configured, detected)
  {
  }

  /** The argument vector handed to the process layer: the program, then its arguments. */
  function Argv(inv: Invocation): (argv: seq<string>)
    ensures |argv| == 1 + |inv.args| && argv[0] == inv.program && argv[1..] == inv.args
  {
    [inv.program] + inv.args
  }

  /** How waiting for a child ended: its exit state, or an error obtaining it. */
  datatype WaitOutcome = Exited(successful: bool, exitStatus: i32) | WaitFailed(error: string)

  /** The step result a wait outcome records. */
  function WaitToResult(w: WaitOutcome): (r: CommandResult)
    ensures IsSuccess(r) <==> w.Exited? && w.successful
    ensures w.Exited? && !w.successful ==> r == Failure(Some(w.exitStatus))
    ensures w.WaitFailed? ==> r == Failure(None)
    ensures ExitCode(r).Some? <==> w.Exited? && !w.successful
  {
    match w
    case Exited(ok, code) => if ok then CommandResult.Success else Failure(Some(code))
    case WaitFailed(_) => Failure(None)
  }

  /** Appends one piece of text to the log: nothing else of the dialog changes. */
  function AppendOutput(d: Dialog, text: string, isError: bool): (e: Dialog)
    ensures e.log == d.log + [LogLine(text, isError)]
    ensures e == d.(log := e.log)
  {
    d.(log := d.log + [LogLine(text, isError)])
  }

  function StepHeader(index: nat, total: nat, name: string): string {
    "\n=== Step " + Format.NatToString(index + 1) + "/" + Format.NatToString(total) + ": " + name + " ===\n"
  }

  function FailedAtMessage(index: nat, total: nat): string {
    "Operation failed at step " + Format.NatToString(index + 1) + " of " + Format.NatToString(total)
  }

  /** The failure message of a one-step run whose only step fails. */
  lemma FailedAtOnlyStep()
    ensures FailedAtMessage(0, 1) == "Operation failed at step 1 of 1"
  {
    assert Format.NatToString(1) == "1";
  }

  function ExitCodeLine(code: i32): string {
    FailureMark + " Command failed with exit code: " + Format.IntToString(code) + "\n"
  }

  function ErrorLine(error: string): string {
    FailureMark + " " + error + "\n"
  }

  function SpawnErrorLine(error: string): string {
    FailureMark + " Failed to start command: " + error + "\n"
  }

  function WaitErrorLine(error: string): string {
    FailureMark + " Failed to wait for command: " + error + "\n"
  }

  function ReadErrorLine(error: string): string {
    FailureMark + " Failed to read command output: " + error + "\n"
  }

  /** The closing log line of a run: marked by outcome, error-tagged exactly for a failure. */
  function OutcomeLine(success: bool, message: string): LogLine {
    if success then LogLine("\n" + SuccessMark + " " + message + "\n", false)
    else LogLine("\n" + FailureMark + " " + message + "\n", true)
  }

  /**
   * The dialog side of ending a run: it shows the completion with its message and
   * the log gains one closing line; statuses and earlier lines are kept.
   */
  function FinalizeDialog(d: Dialog, success: bool, message: string): (e: Dialog)
    ensures e.completion == Some(Completion(success, message)) && e.title == message
    ensures e.log == d.log + [OutcomeLine(success, message)]
    ensures e.log[|e.log| - 1].isError == !success
    ensures !e.cancelVisible && e.closeVisible
    ensures e.status == d.status && e.progress == d.progress && e.open == d.open
  {
    var shown := ShowCompletion(d, success, message);
    var line := OutcomeLine(success, message);
    AppendOutput(shown, line.text, line.isError)
  }
}

/**
 * The value types of the command-execution pipeline: how a step is invoked,
 * the step itself, the outcome of one step and the per-step status row of
 * the progress dialog.
 */
module CommandTypes {
  import opened Wrappers

  /** A signed 32-bit exit status, as the process layer reports it. */
  type i32 = x: int | -0x8000_0000 <= x < 0x8000_0000

  /** How a step must be invoked. */
  datatype CommandType = Normal | Privileged | Aur

  /** One unit of work: invocation kind, program, arguments and a label for the dialog. */
  datatype CommandStep = CommandStep(
    commandType: CommandType,
    command: string,
    args: seq<string>,
    friendlyName: string)

  /** The outcome of one step. */
  datatype CommandResult = Success | Failure(exitCode: Option<i32>)

  /** The status a finished step shows in the dialog; nothing ever sets another status. */
  datatype TaskStatus = Success | Failed

  /** Builds a step, copying the program, every argument (in order) and the label. */
  function NewStep(commandType: CommandType, command: string, args: seq<string>, friendlyName: string): (s: CommandStep)
    ensures s.commandType == commandType
    ensures s.command == command && s.friendlyName == friendlyName
    ensures |s.args| == |args| && forall i :: 0 <= i < |args| ==> s.args[i] == args[i]
  {
    CommandStep(commandType, command, seq(|args|, i requires 0 <= i < |args| => args[i]), friendlyName)
  }

  /** A step run as given. */
  function NormalStep(command: string, args: seq<string>, friendlyName: string): (s: CommandStep)
    ensures s.commandType == Normal
    ensures s.command == command && s.args == args && s.friendlyName == friendlyName
  {
    NewStep(Normal, command, args, friendlyName)
  }

  /** A step run through the privilege-escalation tool. */
  function PrivilegedStep(command: string, args: seq<string>, friendlyName: string): (s: CommandStep)
    ensures s.commandType == Privileged
    ensures s.command == command && s.args == args && s.friendlyName == friendlyName
  {
    NewStep(Privileged, command, args, friendlyName)
  }

  /** A step run through the AUR helper; its program name is always the placeholder "aur". */
  function AurStep(args: seq<string>, friendlyName: string): (s: CommandStep)
    ensures s.commandType == Aur
    ensures s.command == "aur" && s.args == args && s.friendlyName == friendlyName
  {
    NewStep(Aur, "aur", args, friendlyName)
  }

  predicate IsSuccess(r: CommandResult) {
    r.Success?
  }

  predicate IsFailure(r: CommandResult) {
    !IsSuccess(r)
  }

  /** The exit code carried by a failure; none for a success. */
  function ExitCode(r: CommandResult): (c: Option<i32>)
    ensures r.Success? ==> c == None
    ensures forall code :: r == Failure(code) ==> c == code
  {
    match r
    case Failure(code) => code
    case _ => None
  }

  /** `IsSuccess` holds exactly for `Success`, and `IsFailure` is its negation. */
  lemma SuccessFailureDichotomy(r: CommandResult)
    ensures IsSuccess(r) <==> r == CommandResult.Success
    ensures IsFailure(r) <==> !IsSuccess(r)
    ensures IsFailure(r) <==> r.Failure?
  {
  }
}

/**
 * The progress dialog as the pipeline sees it: an abstract record of what it
 * shows. Rendering, text tags and scrolling are not part of it.
 */
module Progress {
  import opened Wrappers
  import opened CommandTypes

  datatype LogLine = LogLine(text: string, isError: bool)

  datatype Completion = Completion(success: bool, message: string)

  /** "Step current of total" on the progress bar. */
  datatype StepProgress = StepProgress(current: nat, total: nat)

  datatype Dialog = Dialog(
    windowTitle: string,
    title: string,
    progress: Option<StepProgress>,
    log: seq<LogLine>,
    status: map<nat, TaskStatus>,
    completion: Option<Completion>,
    cancelVisible: bool,
    cancelSensitive: bool,
    closeVisible: bool,
    open: bool)

  /** A freshly presented dialog: empty log, no statuses, cancel offered, close hidden. */
  function NewDialog(windowTitle: string): Dialog {
    Dialog(windowTitle, "", None, [], map[], None, true, true, false, true)
  }

  function SetTitle(d: Dialog, title: string): Dialog {
    d.(title := title)
  }

  function UpdateProgress(d: Dialog, current: nat, total: nat): Dialog {
    d.(progress := Some(StepProgress(current, total)))
  }

  function UpdateTaskStatus(d: Dialog, index: nat, status: TaskStatus): Dialog {
    d.(status := d.status[index := status])
  }

  /** The completion state: the message becomes the title, cancel is hidden and close is offered. */
  function ShowCompletion(d: Dialog, success: bool, message: string): Dialog {
    d.(title := message, completion := Some(Completion(success, message)),
       cancelVisible := false, closeVisible := true)
  }

  function DisableCancel(d: Dialog): Dialog {
    d.(cancelSensitive := false)
  }
}

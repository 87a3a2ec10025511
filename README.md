# xero-toolkit: the command-execution core, in Dafny

xero-toolkit is a GTK desktop tool for XeroLinux. It runs system tasks (package
installs, driver setup, service changes). This project models the part that
runs those tasks: a list of `CommandStep`s is carried out one step at a time,
with a progress dialog. Each step is resolved to a program and argument vector:
plain, through `pkexec`, or through the AUR helper (`paru`/`yay`). The step is
then spawned. The run waits for three asynchronous completions (stdout end,
stderr end, exit result) and then advances to the next step, or stops on
failure or cancellation, reporting one completion callback.

The model also covers the smaller pieces beside it:

- AUR-helper detection over PATH;
- the NVIDIA driver plan and its conflict check, plus the fixed Tailscale and ASUS ROG plans;
- the `/etc/os-release` name/version parser, the installed-package filter and the XeroLinux check;
- the seasonal effects' 64-bit linear congruential generator.

Layout, one module per file:

| file | module | models |
|---|---|---|
| `wrappers.dfy` | `Wrappers` | `Option`, `Result` |
| `format.dfy` | `Format` | decimal rendering used by the log messages |
| `command_types.dfy` | `CommandTypes` | `types.rs` |
| `progress.dfy` | `Progress` | the dialog, as an abstract record (title, progress, log of `(text, isError)`, per-step status, completion, button visibility, open) |
| `executor.rs` parts in `executor.dfy` | `Executor` | resolution, argv, the wait-to-result mapping, log lines, finalisation of the dialog |
| `context.dfy` | `Context` | the three-signal completion state of `context.rs` as values, and every arrival order |
| `pipeline.dfy` | `Pipeline` | the whole run as a state machine over a `RunView`, its invariant, and lemmas over arbitrary event histories |
| `command_execution.dfy` | `CommandExecution` | classes `App` (the `ACTION_RUNNING` flag), `Run` (the state the handlers share) and `RunningCommandContext`; every method's new state is the matching `Pipeline` transition of the old state |
| `utils.dfy` | `Utils` | `utils.rs` |
| `text.dfy` | `Text` | the `str` operations `helpers.rs` uses |
| `helpers.dfy` | `Helpers` | `helpers.rs` |
| `drivers.dfy` | `Drivers` | `drivers.rs` |
| `seasonal.dfy` | `Seasonal` | `SimpleRng` of `common.rs` |

The event loop is single-threaded. A run's history is therefore a sequence of
events (a line read, a stream closed or failed, the wait finished, cancel, the
window's close request, the close button) in any order the environment
chooses. `Pipeline.Run` folds such a sequence, and the history lemmas hold for
every sequence.

The outside world is passed in as values:

- the spawn answer and whether each pipe exists;
- the configured AUR helper (`aur_helper()` in the crate root);
- the filesystem and `PATH` that helper detection probes;
- what `<helper> -Q`/`pacman -Q` printed and whether they succeeded;
- the contents of `/etc/os-release`.

## Model

| member | source | states |
|---|---|---|
| CommandTypes.NewStep | src/ui/command_execution/types.rs:34-46 | the step has the given kind, program and name, and the same arguments in the same order |
| CommandTypes.NormalStep | src/ui/command_execution/types.rs:49-51 | a Normal step with the program, arguments and name unchanged |
| CommandTypes.PrivilegedStep | src/ui/command_execution/types.rs:54-56 | a Privileged step with the program, arguments and name unchanged |
| CommandTypes.AurStep | src/ui/command_execution/types.rs:59-61 | an Aur step whose program is always the literal "aur", with the arguments and name unchanged |
| CommandTypes.ExitCode | src/ui/command_execution/types.rs:79-84 | no code for a success; a failure's own optional code otherwise |
| CommandTypes.SuccessFailureDichotomy | src/ui/command_execution/types.rs:67-75 | `is_success` holds exactly for `Success`, and `is_failure` is exactly its negation, i.e. a `Failure` |
| Executor.ResolveCommand | src/ui/command_execution/executor.rs:135-156 | Normal: program and arguments unchanged. Privileged: `pkexec` with the program prepended, one argument more. Aur: the configured helper, else the detected one, with `--sudo pkexec` prepended (two arguments more). Aur fails with the "AUR helper not initialized" message exactly when neither helper exists |
| Executor.AurIgnoresCommandName | src/ui/command_execution/executor.rs:144-153 | an AUR step's own program name never affects its resolution |
| Executor.Argv | src/ui/command_execution/executor.rs:71-75 | argv is the program followed by every argument in order |
| Executor.WaitToResult | src/ui/command_execution/executor.rs:113-130 | a successful wait with a successful exit gives `Success`; a successful wait with a failed exit gives `Failure` with the exit status; a wait error gives `Failure` with no code |
| Executor.AppendOutput | src/ui/command_execution/executor.rs:211-230 | the log gains exactly one `(text, isError)` line at its end, and nothing else of the dialog changes |
| Executor.FinalizeDialog | src/ui/command_execution/executor.rs:237-243 | the dialog shows the completion and its message, cancel is hidden and close shown. One closing line is appended, error-tagged exactly for a failure. Statuses and progress are kept |
| Executor.FailedAtOnlyStep | src/ui/command_execution/context.rs:117-125 | the failure message of a one-step run is "Operation failed at step 1 of 1" |
| Format.NatToString | src/ui/command_execution/context.rs:120-125 | the step numbers in messages are printed as non-empty strings of decimal digits |
| Format.NatToStringValue | src/ui/command_execution/context.rs:120-125 | reading the printed digits back, most significant first, gives the number printed |
| Format.NatToStringNoLeadingZero | src/ui/command_execution/executor.rs:48-54 | a number of more than one digit is printed without a leading zero, and "0" is printed only for zero |
| Format.NatToStringInjective | src/ui/command_execution/executor.rs:48-54 | different numbers are printed differently |
| Format.IntToString | src/ui/command_execution/context.rs:113 | an exit code is printed as a non-empty string; its sign and digits are stated by `Format.IntToStringSign` |
| Format.IntToStringSign | src/ui/command_execution/context.rs:113 | the printed code starts with '-' exactly when it is negative, and the rest is the decimal rendering of its magnitude |
| Context.TryFinalize | src/ui/command_execution/context.rs:63-76 | fires exactly when both streams have ended and a result is stored. Firing hands that result on and empties the slot. Otherwise nothing changes |
| Context.ReplayFromFresh | src/ui/command_execution/context.rs:40-76 | from a fresh context, any sequence of arrivals with at most one exit result ends in a state that depends only on which arrivals occurred, not their order. A result is handed on exactly when both ends and the exit result have arrived |
| Context.ExpectedSnoc | src/ui/command_execution/context.rs:47-76 | one more arrival moves that order-free state exactly as delivering the arrival does |
| Context.NoExitArrival | src/ui/command_execution/context.rs:47-54 | stream ends alone never store an exit result |
| Context.ExitInIsMember | src/ui/command_execution/context.rs:57-60 | a stored exit result always came from an exit arrival carrying it |
| Context.ExitArrivalGivesExit | src/ui/command_execution/context.rs:57-60 | once an exit arrival has occurred, a result is stored |
| Context.ArrivalOrderHasOneExit | src/ui/command_execution/context.rs:40-60 | an order of the three signals carries exactly one exit arrival, and the stored result is its result |
| Context.AnyOrderFinalizesOnce | src/ui/command_execution/context.rs:47-76 | in every arrival order of {stdout end, stderr end, exit result} the result is handed on exactly once, and never before the third arrival |
| Context.PrefixMissesOne | src/ui/command_execution/context.rs:65-76 | before the third arrival, one of the three signals is still missing |
| Context.SecondExitFinalizesAgain | src/ui/command_execution/context.rs:57-76 | after finalizing, a second exit result would finalize again: only the single delivery by `wait_async` keeps finalization unique |
| Context.LateStreamEndIsNoOp | src/ui/command_execution/context.rs:47-76 | after finalizing, another stream end changes nothing |
| Pipeline.Finish | src/ui/command_execution/executor.rs:233-244 | clears the running flag, finalizes the dialog, reports the outcome once to the callback, and changes nothing else |
| Pipeline.Execute | src/ui/command_execution/executor.rs:24-43 | cancellation is tested first: a cancelled run ends as "Operation cancelled" and reports false. Past the last step it ends as "All operations completed successfully!" and reports true. Otherwise the step starts. The log only grows and statuses are kept |
| Pipeline.StartStep | src/ui/command_execution/executor.rs:40-107 | progress becomes (index+1 of total). On a spawn, the child is stored and recorded with its argv, and a fresh context is live, minus the missing pipes. On a resolution or spawn error, the run ends failed with "Failed to prepare command" or "Failed to start operation" and reports false, with no process stored and no context |
| Pipeline.Spawn | src/ui/command_execution/executor.rs:57-107 | the same split for an already-resolved step, and the successful case changes only the process slot, the started list and the live context |
| Pipeline.Settle | src/ui/command_execution/context.rs:81-130 | once finalized, a cancelled run ends as cancelled whatever the result. Otherwise a success advances and a failure fails the step. The callback gains exactly the one outcome |
| Pipeline.Advance | src/ui/command_execution/context.rs:92-104 | the step is marked Success, "✓ Step completed successfully" is logged next, and the next step is dispatched |
| Pipeline.FailStep | src/ui/command_execution/context.rs:106-129 | the step is marked Failed. The exit-code line is logged only when there is a code. The run ends with "Operation failed at step i+1 of n" and reports false. Nothing else changes |
| Pipeline.FinalizeLive | src/ui/command_execution/context.rs:63-80 | without a ready context nothing but the signals changes; the log only grows; the callback gains at most the outcome |
| Pipeline.Arrive | src/ui/command_execution/context.rs:47-60 | recording a signal and trying to finalize: the log only grows, the callback gains at most the outcome |
| Pipeline.Prelude | src/ui/command_execution/executor.rs:123-129 | the error line logged before a failed wait or read is the only change |
| Pipeline.RunCommandsWithProgress | src/ui/command_execution/mod.rs:99-211 | an empty list is rejected, and a request while an action runs is ignored. Otherwise the run starts at step 0, not cancelled, and satisfies the run invariant. Either step 0 is in flight with the flag set, or it failed to start and false was reported |
| Pipeline.ExecuteKeepsInv | src/ui/command_execution/executor.rs:16-132 | dispatching from a state between steps establishes the run invariant (below) |
| Pipeline.FinishKeepsInv | src/ui/command_execution/executor.rs:24-38 | ending between steps keeps the invariant; a success only ever comes with every step done |
| Pipeline.StartStepKeepsInv | src/ui/command_execution/executor.rs:40-107 | starting a step keeps the invariant |
| Pipeline.SpawnKeepsInv | src/ui/command_execution/executor.rs:57-107 | spawning or failing to spawn keeps the invariant |
| Pipeline.SettleKeepsInv | src/ui/command_execution/context.rs:78-130 | handling an outcome keeps the invariant |
| Pipeline.CancelledSettleKeepsInv | src/ui/command_execution/context.rs:82-88 | the cancelled ending keeps the invariant |
| Pipeline.AdvanceKeepsInv | src/ui/command_execution/context.rs:92-104 | advancing keeps the invariant |
| Pipeline.FailStepKeepsInv | src/ui/command_execution/context.rs:106-129 | failing a step keeps the invariant |
| Pipeline.ArriveKeepsInv | src/ui/command_execution/context.rs:47-76 | every signal arrival keeps the invariant |
| Pipeline.SameShapeKeepsInv | src/ui/command_execution/executor.rs:192-203 | changes to the log alone keep the invariant |
| Pipeline.Cancel | src/ui/command_execution/mod.rs:168-175 | the cancel handler on run views. It keeps the invariant (`Pipeline.CancelKeepsInv`), and what follows it is stated by `Pipeline.StepAfterCancel`, `Pipeline.CancelledRunNeverAdvances` and `Pipeline.CancelInFlight` |
| Pipeline.CloseRequest | src/ui/command_execution/mod.rs:190-199 | the close request on run views. It keeps the invariant (`Pipeline.CloseKeepsInv`), and its one report of false is stated by `Pipeline.StepReports` |
| Pipeline.CloseButton | src/ui/command_execution/mod.rs:180-185 | the close request followed by a report of true. It keeps the invariant (`Pipeline.CloseKeepsInv`), and its reports are stated by `Pipeline.StepReports` |
| Pipeline.CancelKeepsInv | src/ui/command_execution/mod.rs:168-175 | the cancel handler keeps the invariant |
| Pipeline.CloseKeepsInv | src/ui/command_execution/mod.rs:180-199 | the close request and the close button keep the invariant |
| Pipeline.LineKeepsInv | src/ui/command_execution/executor.rs:189-194 | logging a line keeps the invariant |
| Pipeline.SignalKeepsInv | src/ui/command_execution/executor.rs:113-205 | every stream or wait callback keeps the invariant |
| Pipeline.StepKeepsInv | src/ui/command_execution/mod.rs:164-199 | every event keeps the invariant. The invariant covers several facts. Steps start in order, each once, and never more than the list holds. A context is live exactly while no completion is shown. Every step before the current one is Success, and only the last started step can be Failed, with the matching failure message. The flag set implies a step in flight. Progress stays within 1..n of n. A success completion means every step started and succeeded |
| Pipeline.RunKeepsInv | src/ui/command_execution/mod.rs:164-211 | the invariant holds after every event history |
| Pipeline.RunAppend | src/ui/command_execution/mod.rs:164-211 | running two histories one after the other is running their concatenation |
| Pipeline.StepExtendsLog | src/ui/command_execution/executor.rs:211-230 | no event removes or rewrites a logged line |
| Pipeline.RunExtendsLog | src/ui/command_execution/executor.rs:211-230 | the log is append-only over any history |
| Pipeline.ArriveAfterCancel | src/ui/command_execution/context.rs:81-88 | once cancelled, an arrival starts no step and can only end the run as cancelled |
| Pipeline.StepAfterCancel | src/ui/command_execution/mod.rs:168-175 | the flag stays set, no step starts, and the only possible ending is "Operation cancelled" |
| Pipeline.CancelledRunNeverAdvances | src/ui/command_execution/mod.rs:168-175 | after cancel, over any history, the flag stays set and no further step starts. A run still going can end only as cancelled, and an ended run keeps its ending |
| Pipeline.CancelInFlight | src/ui/command_execution/mod.rs:168-175 | cancelling during a step force-exits exactly that step's child, and any later history starts no step and ends, if at all, as cancelled |
| Pipeline.StepAfterEnd | src/ui/command_execution/executor.rs:233-244 | after the run has ended, no event changes its completion or statuses, or starts a step |
| Pipeline.EndedRunIsFinal | src/ui/command_execution/executor.rs:233-244 | the same for any later history |
| Pipeline.StepReports | src/ui/command_execution/mod.rs:177-199 | each event reports to the callback exactly its close reports (false for a close request, false then true for the close button) and the outcome if it has just ended the run |
| Pipeline.OneOutcomeReport | src/ui/command_execution/context.rs:84-128 | over any history without close events, the callback hears exactly the outcome once, when the run ends, and nothing else |
| Pipeline.ReportsCompose | src/ui/command_execution/executor.rs:24-38 | the outcome reports of two consecutive stretches compose into one |
| Pipeline.WaitSucceededSettles | src/ui/command_execution/context.rs:63-104 | a successful wait after both stream ends clears the context and the slot and settles as a success |
| Pipeline.StreamClosedEarly | src/ui/command_execution/context.rs:47-54 | a stream end before the exit result only records itself |
| Pipeline.AfterSuccessIsBetween | src/ui/command_execution/context.rs:92-104 | the state after a step's success is a proper state between steps |
| Pipeline.CleanWaitDispatchesNext | src/ui/command_execution/context.rs:92-104 | after both ends, a successful wait dispatches step k+1 from the success state |
| Pipeline.CleanStepDispatchesNext | src/ui/command_execution/context.rs:47-104 | both stream ends and a successful exit, in that order, dispatch the next step |
| Pipeline.CleanStepAdvances | src/ui/command_execution/context.rs:92-104 | if the next step spawns, it is recorded with its argv, and the success line is logged |
| Pipeline.SpawnedStepIsMidway | src/ui/command_execution/executor.rs:40-107 | a spawned step is in flight with progress (index+1 of n) |
| Pipeline.CleanStepFinishes | src/ui/command_execution/executor.rs:32-38 | a successful last step ends the run with "All operations completed successfully!" and reports true once |
| Pipeline.CleanScheduleUnfolds | src/ui/command_execution/context.rs:92-104 | a clean schedule is one clean step followed by the rest |
| Pipeline.LastCleanStep | src/ui/command_execution/executor.rs:32-38 | the last clean step ends in success |
| Pipeline.NextCleanStep | src/ui/command_execution/context.rs:92-104 | a clean step that is not the last leaves the next one in flight |
| Pipeline.CleanScheduleSucceeds | src/ui/command_execution/context.rs:92-104 | from step k in flight, clean completions of every remaining step end in success, with every step marked Success and progress n of n |
| Pipeline.DispatchableTail | src/ui/command_execution/executor.rs:57-93 | a schedule whose steps all resolve and spawn still does after its first step |
| Pipeline.AllStepsSucceed | src/ui/command_execution/mod.rs:204-211 | a run whose steps all resolve, spawn and exit 0 ends with "All operations completed successfully!". Steps start in order, each once, all are marked Success, and the callback hears true exactly once |
| Pipeline.EchoThenRestart | src/ui/command_execution/executor.rs:137-143 | a two-step run (`echo hi`, then privileged `systemctl restart foo`) logs "hi", runs the second step as `pkexec systemctl restart foo`, ends at 2 of 2 and reports success |
| Pipeline.FalseStarts | src/ui/command_execution/mod.rs:204-211 | starting a one-step run of a spawned `false` leaves its only step in flight, the flag set, nothing marked and nothing reported |
| Pipeline.OnlyStepFails | src/ui/command_execution/context.rs:106-129 | both stream ends, then a failed exit with code c, mark the only step Failed. The exit code is logged, the run ends with "Operation failed at step 1 of 1", the flag is cleared and false is reported once |
| Pipeline.FalseFails | src/ui/command_execution/context.rs:106-129 | a one-step run of `false` exiting with code c marks step 1 Failed, logs c, ends with "Operation failed at step 1 of 1" and reports false |
| CommandExecution.App.IsActionRunning | src/ui/command_execution/mod.rs:62-64 | reports the flag; while it holds, every non-empty request to start a run is ignored, and only then |
| CommandExecution.App.RunCommandsWithProgress | src/ui/command_execution/mod.rs:93-212 | empty list or running flag: nothing changes. Otherwise the flag is set and a fresh run is dispatched from step 0, whose state is the pure start above and satisfies the invariant |
| CommandExecution.Run.constructor | src/ui/command_execution/mod.rs:149-162 | a fresh run: not cancelled, empty process slot, empty log, no callbacks |
| CommandExecution.Run.AppendOutput | src/ui/command_execution/executor.rs:211-230 | the dialog becomes the pure append of one line; nothing else changes |
| CommandExecution.Run.FinalizeExecution | src/ui/command_execution/executor.rs:233-244 | clears the global flag and finalizes the dialog; nothing else changes |
| CommandExecution.Run.Complete | src/ui/command_execution/executor.rs:233-244 | the new state is `Pipeline.Finish` of the old one: finalized, with the outcome reported to the callback |
| CommandExecution.Run.BuildArgv | src/ui/command_execution/executor.rs:71-75 | the loop builds exactly the program followed by every argument |
| CommandExecution.Run.ResolveStep | src/ui/command_execution/executor.rs:145-148 | resolution probing PATH only when an AUR step has no configured helper, equal to resolution with the detected helper |
| CommandExecution.Run.ExecuteCommandsSequence | src/ui/command_execution/executor.rs:16-132 | the new state is `Pipeline.Execute` of the old one |
| CommandExecution.Run.RunStep | src/ui/command_execution/executor.rs:40-107 | the new state is `Pipeline.StartStep` of the old one |
| CommandExecution.Run.SpawnStep | src/ui/command_execution/executor.rs:57-107 | the new state is `Pipeline.Spawn` of the old one |
| CommandExecution.Run.AttachContext | src/ui/command_execution/executor.rs:95-107 | the child is stored and recorded, and a fresh context becomes the step in flight. A missing pipe counts at once as an ended stream |
| CommandExecution.Run.HandleOutcome | src/ui/command_execution/context.rs:81-130 | the new state is `Pipeline.Settle` of the old one |
| CommandExecution.Run.CompleteStep | src/ui/command_execution/context.rs:92-104 | the new state is `Pipeline.Advance` of the old one |
| CommandExecution.Run.FailStep | src/ui/command_execution/context.rs:106-129 | the new state is `Pipeline.FailStep` of the old one |
| CommandExecution.Run.Cancel | src/ui/command_execution/mod.rs:168-175 | sets the cancelled flag, logs the error-tagged "[Cancelled by user]" line, disables cancel and force-exits the stored child if any |
| CommandExecution.Run.CloseRequest | src/ui/command_execution/mod.rs:190-199 | clears the global flag, force-exits the stored child if any, reports false and closes the window |
| CommandExecution.Run.CloseButton | src/ui/command_execution/mod.rs:180-185 | the close request, then a report of true |
| CommandExecution.RunningCommandContext.constructor | src/ui/command_execution/context.rs:25-44 | neither stream ended, no exit result |
| CommandExecution.RunningCommandContext.MarkStreamDone | src/ui/command_execution/context.rs:47-54 | records the stream end and tries to finalize (`Pipeline.Arrive`) |
| CommandExecution.RunningCommandContext.SetExitResult | src/ui/command_execution/context.rs:57-60 | stores the result and tries to finalize (`Pipeline.Arrive`) |
| CommandExecution.RunningCommandContext.TryFinalize | src/ui/command_execution/context.rs:63-131 | the new state is `Pipeline.FinalizeLive`: the result is taken, the context stops being live, the slot is cleared, the outcome handled |
| CommandExecution.RunningCommandContext.OnLine | src/ui/command_execution/executor.rs:189-194 | the line is logged with its newline restored, tagged by stream |
| CommandExecution.RunningCommandContext.OnEndOfStream | src/ui/command_execution/executor.rs:195-197 | end of stream marks the stream done |
| CommandExecution.RunningCommandContext.OnReadError | src/ui/command_execution/executor.rs:198-205 | a read error logs one error-tagged line, then marks the stream done |
| CommandExecution.RunningCommandContext.OnWaitCompleted | src/ui/command_execution/executor.rs:113-130 | the wait outcome becomes the step's result (a failed wait logged first) and is stored |
| Utils.SplitPaths | src/utils.rs:43 | at least one entry, none holding the separator ':' |
| Utils.Push | src/utils.rs:44-45 | the candidate path ends with the command name |
| Utils.IsExecutableInPath | src/utils.rs:33-57 | with a path separator, decided by `is_file` alone. With PATH unset, false. Otherwise, true exactly when some PATH entry holds an existing candidate with an execute bit (mode & 0o111 not zero) |
| Utils.FirstExecutable | src/utils.rs:18-26 | None exactly when no candidate is executable; otherwise the first executable candidate in order |
| Utils.DetectAurHelper | src/utils.rs:15-27 | "paru" whenever paru is executable. "yay" exactly when paru is not and yay is. None exactly when neither is. Any result is one of the two |
| Text.ContainsAt | src/core/helpers.rs:109 | substring search holds exactly when the pattern occurs at some offset |
| Text.ContainsInfix | src/core/helpers.rs:195 | a string containing the pattern is found to contain it |
| Text.Lines | src/core/helpers.rs:108 | no resulting line holds a line break |
| Text.LinesOfJoined | src/core/helpers.rs:167 | splitting lines joined with "\n" (none ending in '\r') gives them back |
| Text.TrimStartMatches | src/core/helpers.rs:170-176 | the result is a suffix of the line that no longer starts with the (non-empty) prefix |
| Text.TrimStartMatchesRemovesCopies | src/core/helpers.rs:170-176 | exactly a whole number of copies of the prefix is removed from the front |
| Text.TrimStartCharFacts | src/core/helpers.rs:171-177 | trimming the start keeps a suffix, removes only that character and leaves none in front |
| Text.TrimEndCharFacts | src/core/helpers.rs:171-177 | trimming the end keeps a prefix, removes only that character and leaves none at the end |
| Text.TrimMatchesKeepsMiddle | src/core/helpers.rs:171-177 | trimming both ends keeps a contiguous middle that neither starts nor ends with the character, and removes only that character around it |
| Text.FirstTokenSplits | src/core/helpers.rs:110-122 | the first token is the maximal run of non-whitespace right after the leading whitespace |
| Text.BlankLineHasNoToken | src/core/helpers.rs:110-122 | the token is "" exactly for an all-whitespace line |
| Helpers.LastLineIsLast | src/core/helpers.rs:167-180 | a line with the key is found exactly when one exists, and it is the last such line |
| Helpers.LaterLineWins | src/core/helpers.rs:167-180 | a later line with the key overrides every earlier one |
| Helpers.OtherLineIgnored | src/core/helpers.rs:167-180 | a line without the key leaves the finding unchanged |
| Helpers.LookalikeKeysIgnored | src/core/helpers.rs:168-174 | "PRETTY_NAME=…" and "VERSION_ID=…" lines match neither key |
| Helpers.NameLineIsNotVersionLine | src/core/helpers.rs:168-174 | no line carries both keys, so the else-branch order does not matter |
| Helpers.FieldValueShape | src/core/helpers.rs:169-178 | a value is the line with k copies of the key removed from its front, then with its surrounding double quotes (and only those) removed |
| Helpers.OsRelease | src/core/helpers.rs:183-188 | Some exactly when both a NAME= and a VERSION= line exist, holding the last of each, unquoted |
| Helpers.DistributionInfo | src/core/helpers.rs:162-189 | an unreadable file gives None. Otherwise the loop's final name and version are the last NAME= and VERSION= values, and the result is Some only when both exist |
| Helpers.FilterPackageLines | src/core/helpers.rs:107-123 | one name per matching line, in order, each the line's first whitespace-delimited token, or "" |
| Helpers.MatchingAppend | src/core/helpers.rs:109-121 | filtering a concatenation is concatenating the filtered parts |
| Helpers.MatchingOne | src/core/helpers.rs:109-121 | one line is kept exactly when it contains the pattern |
| Helpers.MatchingExactly | src/core/helpers.rs:109-121 | the kept lines are exactly the input lines containing the pattern |
| Helpers.ListPackagesMatching | src/core/helpers.rs:100-128 | the listing itself. Its sources are stated by `Helpers.ListingSources`, and its filter by `Helpers.FilterPackageLines` and `Helpers.MatchingExactly` |
| Helpers.ListingSources | src/core/helpers.rs:100-128 | the detected helper's successful listing is used, and pacman is then never consulted. Failing that, pacman's successful listing is used. Failing both, the list is empty |
| Helpers.IsPackageInstalled | src/core/helpers.rs:7-35 | installed exactly when the detected helper's query succeeds or pacman's does |
| Helpers.ArePackagesInstalled | src/core/helpers.rs:132-137 | one pair per input name, in input order, the name preserved and paired with its installed answer |
| Helpers.XeroLinuxRecognised | src/core/helpers.rs:193-198 | contents containing "XeroLinux" or "xerolinux" are recognised, and an unreadable file is not |
| Helpers.XeroLinuxOnlyWhenMentioned | src/core/helpers.rs:193-198 | readable contents that mention neither spelling are not recognised. Recognition holds exactly when "XeroLinux" or "xerolinux" occurs at some offset |
| Helpers.IsXeroLinux | src/core/helpers.rs:193-198 | the check itself. Its properties are stated by `Helpers.XeroLinuxRecognised` and `Helpers.XeroLinuxOnlyWhenMentioned` |
| Drivers.GpuPlan | src/ui/pages/drivers.rs:90-159 | the NVIDIA plan as a value. Its order, selection, final configuration step and install flags are stated by `Drivers.GpuPlanOrdered`, `Drivers.GpuPlanSelects`, `Drivers.SetupStepLast`, `Drivers.GpuPlanEmpty` and `Drivers.GpuPlanInstallFlags` |
| Drivers.BuildGpuDriverCommands | src/ui/pages/drivers.rs:90-159 | the conditional pushes build exactly the plan: closed, open and CUDA when each is ticked, then the configuration when a driver is ticked |
| Drivers.StepsDistinct | src/ui/pages/drivers.rs:93-156 | the four plan steps are pairwise different |
| Drivers.GpuPlanOrdered | src/ui/pages/drivers.rs:93-156 | the plan follows the fixed order closed, open, CUDA, configuration, with no step twice, so there are at most four steps |
| Drivers.GpuPlanSelects | src/ui/pages/drivers.rs:93-144 | each option's step is present exactly when the option is ticked |
| Drivers.SetupStepLast | src/ui/pages/drivers.rs:146-156 | the privileged `bash nv-setup.sh` step is present exactly when a driver is ticked, and then it is last |
| Drivers.GpuPlanEmpty | src/ui/pages/drivers.rs:77-84 | the plan is empty exactly when none of the three options is ticked |
| Drivers.GpuPlanInstallFlags | src/ui/pages/drivers.rs:96-141 | every AUR step's arguments begin "-S", "--needed", "--noconfirm" |
| Drivers.GpuPlanResolvesThroughHelper | src/ui/pages/drivers.rs:94-141 | with a helper available, each AUR step resolves to the helper with "--sudo pkexec -S --needed --noconfirm" in front |
| Drivers.HandleGpuSelection | src/ui/pages/drivers.rs:62-85 | both drivers ticked: the conflict error, and nothing is built or run. Otherwise an empty plan runs nothing, and a non-empty plan goes to the task runner under "GPU Driver Installation" |
| Drivers.RunPlanHasOneDriver | src/ui/pages/drivers.rs:64-75 | a plan that passes the conflict check installs at most one driver and has at most three steps when a driver is ticked |
| Drivers.TailscalePlanShape | src/ui/pages/drivers.rs:173-180 | one privileged step running `bash -c …` under pkexec |
| Drivers.AsusRogPlanShape | src/ui/pages/drivers.rs:198-215 | exactly two steps, in order: the AUR install of rog-control-center, asusctl and supergfxctl, then `pkexec systemctl enable --now asusd supergfxd` |
| Seasonal.NextStateAffine | gui/src/ui/seasonal/common.rs:48 | wrapping multiply then wrapping add is (state·1103515245 + 12345) mod 2^64 |
| Seasonal.PreviousUndoesNext | gui/src/ui/seasonal/common.rs:47-50 | the step can be undone: the inverse step recovers the state before a draw |
| Seasonal.NextUndoesPrevious | gui/src/ui/seasonal/common.rs:47-50 | every state is reached by a draw from the stepped-back state |
| Seasonal.NextStateInjective | gui/src/ui/seasonal/common.rs:47-50 | two different states never draw the same value |
| Seasonal.OutputsAreStates | gui/src/ui/seasonal/common.rs:47-50 | the i-th value drawn is the state after i+1 draws |
| Seasonal.OutputsSnoc | gui/src/ui/seasonal/common.rs:47-50 | one more draw appends the next state |
| Seasonal.FirstDraws | gui/src/ui/seasonal/common.rs:47-50 | seed 0 first draws 12345, and seed 1 first draws 1103527590 |
| Seasonal.SimpleRng.constructor | gui/src/ui/seasonal/common.rs:43-45 | the state is the seed |
| Seasonal.SimpleRng.Next | gui/src/ui/seasonal/common.rs:47-50 | the state becomes the next state, which is returned |
| Seasonal.SimpleRng.FractionNumerator | gui/src/ui/seasonal/common.rs:52-54 | the numerator of a fraction draw is the new state mod 1000000, always below 1000000 |
| Seasonal.SimpleRng.Take | gui/src/ui/seasonal/common.rs:47-50 | n draws return exactly the first n outputs of the old state, and leave the state n steps on |
| Seasonal.SameSeedSameSequence | gui/src/ui/seasonal/common.rs:43-50 | two generators with the same seed return the same n values |

## Left out

- Processes, pipes and `wait_async`/`read_line_utf8_async`: they are events and answers passed in (`Launch`, `WaitOutcome`), and the child is an opaque handle. `force_exit` is recorded in `forceExits`; what the child then does is the environment's next event.
- All GTK widget work: progress-bar fractions, text tags, auto-scroll, the builder, button sensitivity beyond a flag, window presentation.
- Floating point. `update_progress`'s fraction is kept as the (current, total) pair, and `SimpleRng::f64` is modelled up to its integer numerator.
- The completion callback is recorded in `callbacks` on every call. With no callback installed the records have no observer.
- `Pipeline.Execute`: the cancelled test at its top is modelled as written. In the program it can never fire: step 0 starts with a fresh flag, and later steps are dispatched only from a non-cancelled finalize.
- Executor.FinalizeDialog: the progress bar's own display on completion is not modelled. `show_completion` (src/ui/command_execution/widgets.rs:83-96) sets the bar to full with the text "Completed" on success, and expands the output on failure. It also makes the close button sensitive. The model's `progress` keeps the last "Step current of total" pair.
- Context.SecondExitFinalizesAgain: `try_finalize` has no guard against a second exit result, so with both streams ended it would finalize again. `wait_async` reports a child's exit once, so the model keeps a single delivery per context.
- `Drivers`: `task_runner::Command` and `task_runner::run` are not part of this model. Their plans are modelled as `CommandStep` lists, assuming `Command::aur` and `Command::privileged` build the matching step kinds.
- Dialog wrappers `show_error` and `show_selection_dialog` are not modelled: the handler's outcome (`Conflict`, `NothingToRun`, `RunPlan`) stands for them.
- `aur_helper()` (crate root) is not part of this model. It is the `configuredHelper` input.
- In `helpers.rs`, `is_flatpak_installed`, `are_flatpaks_installed`, `file_exists`, `directory_exists` and the service/command checks are probes of the running system, so they are left out. The two `-Q` queries are inputs to `IsPackageInstalled`.
- `String::from_utf8_lossy`: the outputs are taken as already-decoded text.
- Text.Lines: splitting is modelled at '\n' only. A final unterminated line ending in '\r' keeps that '\r', as `str::lines` does.
- `open_url`, `navigation.rs`, `dialogs.rs`, the seasonal overlay and the mouse-position tracking are launches or widget code, so they are left out.
- The `ACTION_RUNNING` flag is shared by all runs. The model follows a single run together with the flag. Interleavings of two runs are not modelled, for example a window closed while its last child is still being waited for, then a new run.

# drive_checker, modelled in Dafny

drive_checker checks removable drives. It copies a test file onto each drive,
reads the copy back, compares digests, and repeats that a given number of
times or until it is stopped. This project models the two classes at its
core and proves properties of the model:

- `DriveChecker` is the per-drive state machine. `check(maxIterations)`
  refuses to run unless the status is `PENDING`. It then moves to `RUNNING`
  and derives the output path `<drive>/<name of the test file>`. It loops
  transfer, guarded status write, verify and count, ends at `SUCCESS` (or at
  `FAILED` on an exception), and always deletes the output file in its
  `finally` block. Every status write goes through `setStatusUnlessCanceled`,
  so a `cancel()` from another thread always wins.
- `DrivesCheckWorker` is the batch worker. It creates one checker per drive
  and submits one task per drive until the batch is cancelled. Each task
  publishes `RUNNING` and then one terminal status. The published
  notifications are delivered to the listener in publish order. On shutdown
  it cancels every checker and every future before it records the done time
  and calls `onStop`.

Files:

- `drive_checker.dfy`, module `DriveCheck`. It holds the types, the
  specification functions (`StepSetStatus`, `StepCancel`, `StepPrepare`,
  `StepRelease`, `StepTransfer`, `StepVerify`, `RunCycle`, `RunLoop`,
  `RunTry`, `RunCheck`) and the class `DriveChecker`. Each of the class's
  methods is proved to move the object's `Snapshot()` exactly as the
  matching function says.
- `drive_checker_properties.dfy`, module `DriveCheckProperties`, holds the
  lemmas about `check`.
- `drives_check_worker.dfy`, module `DrivesCheck`, holds the class
  `DrivesCheckWorker` and its value-level steps (`TaskStep`, `ProcessStep`,
  `DoneStep`) and invariant (`Consistent`).
- `drives_check_worker_properties.dfy`, module `DrivesCheckProperties`,
  holds the lemmas about the worker.

How the outside world is modelled:

- **External answers.** The transfer stage, the read-back stage and the file
  system give their answers through an `Env` value, one `Cycle` per loop
  iteration. A transfer yields a digest or a fault (with or without a
  partial file). A read-back yields a digest or a fault. Deleting the
  output file either succeeds or fails.
- **Concurrent cancel.** A `cancel()` from another thread is an event the
  `Env` injects at the points between atomic steps where it can land:
  - before the first status write;
  - after the `RUNNING` write, before `prepare`. `prepare` and `cancel` are
    both `synchronized`, so a cancel cannot land inside `prepare`. One that
    waits for `prepare` lands during the first transfer, which the first
    cycle covers;
  - during a transfer (before the next status write);
  - during a read-back (before the next status write, or before the
    `SUCCESS` write after the last cycle).

  After the final status write a `cancel()` is always refused, so it is not
  modelled there.
- **Running out of script.** If the script runs out of cycles while the
  loop is still going, `check` is `Unfinished`.
- **The iteration counter** is a Java `int` (`Int32`), so `++currIteration`
  wraps around.

The code is followed where a reader might expect otherwise: a `cancel()`
before `check()` leaves the status `CANCELED`, and `check()` then throws
`IllegalStateException` at its guard (DriveChecker.java lines 35-37). It
does not throw a cancellation, and `release()` is not reached
(`CancelBeforeCheck`). The batch worker therefore reports such a drive as
`FAILED`, not `CANCELED` (`CancelledBeforeRunReportsFailed`).

`ReportedStatus` proves that the reported status and the checker's own
status differ in exactly these three cases:
- an interruption leaves the checker `FAILED`, but its task reports
  `CANCELED`;
- a failed delete after a successful loop leaves the checker `SUCCESS`, but
  its task reports `FAILED`;
- a cancel lands and then the delete fails. The catch block's `FAILED`
  write is refused with a cancellation, and the delete's IO error in
  `finally` replaces it. The checker stays `CANCELED`, but its task reports
  `FAILED`. `CancelThenDeleteFailureReportsFailed` shows that this case
  happens.

The worker's invariant `Consistent` (exposed on the class as `Valid()`) is
carried by value-level lemmas, one per operation (`SubmitKeepsConsistent`,
`TaskKeepsConsistent`, `ProcessKeepsConsistent`, `DoneKeepsConsistent`,
`ListenerKeepsConsistent`). Each method is proved to move the worker's
`Snapshot()` as the matching step function does, so those lemmas apply to
it. Only the constructor states `Valid()` itself.

## Model

In the source column, `DriveChecker.java` stands for
`src/main/java/com/handoitasdf/drive_checker/DriveChecker.java` and
`DrivesCheckWorker.java` for
`src/main/java/com/handoitasdf/drive_checker/ui/DrivesCheckWorker.java`;
the cells give the full paths.

| member | source | states |
|---|---|---|
| DriveCheck.TargetFile | src/main/java/com/handoitasdf/drive_checker/DriveChecker.java:136-142 | The target is the drive plus the test file's name: it lies directly on the drive, has the same name and differs from the test file. The IO error is raised exactly when the test file already lies directly on the drive. |
| DriveCheck.StepSetStatus | src/main/java/com/handoitasdf/drive_checker/DriveChecker.java:62-67 | It throws `Cancellation` exactly when the status is `Canceled`, and then changes nothing. Otherwise it sets the requested status. |
| DriveCheck.StepCancel | src/main/java/com/handoitasdf/drive_checker/DriveChecker.java:121-133 | It is accepted exactly from `Pending` or `Running`. It then sets `Canceled` and forwards the cancel to stages that exist. Otherwise it returns false and nothing changes. |
| DriveCheck.StepPrepare | src/main/java/com/handoitasdf/drive_checker/DriveChecker.java:93-102 | It starts the clock, clears the done time and resets the counter. It fails exactly when the target path conflicts, and then before the output path or the stages are set. On success the output path is the target and the stages exist. |
| DriveCheck.StepRelease | src/main/java/com/handoitasdf/drive_checker/DriveChecker.java:104-113 | It always stops the clock and never changes the status. It attempts a delete exactly when an output file exists. The delete fails, and the IO error is raised, exactly when it was attempted and the file system refuses it; the file then stays. A successful delete clears `outputFile`. |
| DriveCheck.StepTransfer | src/main/java/com/handoitasdf/drive_checker/DriveChecker.java:43 | The transfer is logged. It throws exactly when the stage faults, mapping an interruption to `Interrupted` and anything else to an IO error. A completed transfer leaves an output file. Only a cancel that lands changes the status. |
| DriveCheck.StepVerify | src/main/java/com/handoitasdf/drive_checker/DriveChecker.java:45-47 | The verify is logged with the expected digest. It throws exactly when the read-back does not return that digest: a mismatch is the digest IO error, and a stage fault is mapped to its exception. |
| DriveCheck.RunCycle | src/main/java/com/handoitasdf/drive_checker/DriveChecker.java:42-52 | One cycle keeps `Canceled` and stays within `Running`/`Canceled`. A normal end of the loop needs a positive count, the count reached, and an output file. The possible exceptions are listed, and `Cancellation` implies `Canceled`. The log only grows. |
| DriveCheck.RunLoop | src/main/java/com/handoitasdf/drive_checker/DriveChecker.java:42-52 | The same guarantees for the whole `while (true)` loop, proved by recursion on the remaining cycles. |
| DriveCheck.DriveChecker.constructor | src/main/java/com/handoitasdf/drive_checker/DriveChecker.java:26-32 | A new checker is `Pending`, with counter 0 and no output file. |
| DriveCheck.DriveChecker.GetStatus | src/main/java/com/handoitasdf/drive_checker/DriveChecker.java:85-87 | Returns the current status. |
| DriveCheck.DriveChecker.GetCheckedCount | src/main/java/com/handoitasdf/drive_checker/DriveChecker.java:89-91 | Returns the current iteration count. |
| DriveCheck.DriveChecker.SetStatusUnlessCanceled | src/main/java/com/handoitasdf/drive_checker/DriveChecker.java:62-67 | Moves the object as `StepSetStatus` says. It throws exactly after a cancel, and otherwise the status is the requested one. |
| DriveCheck.DriveChecker.Cancel | src/main/java/com/handoitasdf/drive_checker/DriveChecker.java:121-133 | Moves the object as `StepCancel` says. It is accepted exactly from `Pending`/`Running`, after which the status is `Canceled`; a refusal changes nothing. |
| DriveCheck.DriveChecker.Prepare | src/main/java/com/handoitasdf/drive_checker/DriveChecker.java:93-102 | Moves the object as `StepPrepare` says. |
| DriveCheck.DriveChecker.Release | src/main/java/com/handoitasdf/drive_checker/DriveChecker.java:104-113 | Moves the object as `StepRelease` says. |
| DriveCheck.DriveChecker.RunTransfer | src/main/java/com/handoitasdf/drive_checker/DriveChecker.java:43 | Moves the object as `StepTransfer` says. |
| DriveCheck.DriveChecker.RunVerify | src/main/java/com/handoitasdf/drive_checker/DriveChecker.java:45-47 | Moves the object as `StepVerify` says. |
| DriveCheck.DriveChecker.CheckCycle | src/main/java/com/handoitasdf/drive_checker/DriveChecker.java:43-51 | One loop body moves the object as `RunCycle` says. |
| DriveCheck.DriveChecker.CheckLoop | src/main/java/com/handoitasdf/drive_checker/DriveChecker.java:42-52 | The `while (true)` loop, with its `break`, moves the object as `RunLoop` says. |
| DriveCheck.DriveChecker.Check | src/main/java/com/handoitasdf/drive_checker/DriveChecker.java:34-60 | `check` moves the object as `RunCheck` says. If the status is not `Pending`, it throws `IllegalState` and changes nothing. |
| DriveCheckProperties.CheckRefusedUnlessPending | src/main/java/com/handoitasdf/drive_checker/DriveChecker.java:35-38 | On a checker that is not `Pending`, `check` throws `IllegalState` and the checker is unchanged: no prepare, transfer or release. |
| DriveCheckProperties.CancelBeforeCheck | src/main/java/com/handoitasdf/drive_checker/DriveChecker.java:35-38 | `cancel()` before `check()` is accepted and sets `Canceled`; the later `check()` throws `IllegalState` with no file action and no release. |
| DriveCheckProperties.CancelAcceptedAtMostOnce | src/main/java/com/handoitasdf/drive_checker/DriveChecker.java:121-125 | A second `cancel()` is always refused and changes nothing. |
| DriveCheckProperties.CycleCancel | src/main/java/com/handoitasdf/drive_checker/DriveChecker.java:43-47 | After one cycle the status is `Canceled` exactly when it already was, or a cancel landed during one of that cycle's actions. |
| DriveCheckProperties.LoopCancel | src/main/java/com/handoitasdf/drive_checker/DriveChecker.java:42-52 | The same for the whole loop, by induction: `Canceled` exactly when it was already, or a cancel landed during an action the loop performed. |
| DriveCheckProperties.TryCancel | src/main/java/com/handoitasdf/drive_checker/DriveChecker.java:39-53 | After the `try` block the status is `Canceled` exactly when a cancel landed at a point it reached. A normal end leaves `Success`. |
| DriveCheckProperties.CancellationWins | src/main/java/com/handoitasdf/drive_checker/DriveChecker.java:39-59 | The final status is `Canceled` exactly when a concurrent cancel landed at a point the run reached. A finished run ending `Canceled` throws `Cancellation`, or the delete failure that replaces it. |
| DriveCheckProperties.TryEnds | src/main/java/com/handoitasdf/drive_checker/DriveChecker.java:39-53 | How the `try` block of a fresh checker ends: never `IllegalState`, and the clock is not stopped yet. A normal end has `Success` and a positive count. `Cancellation` implies `Canceled`. A run still looping is `Running` or `Canceled`. |
| DriveCheckProperties.Outcomes | src/main/java/com/handoitasdf/drive_checker/DriveChecker.java:34-60 | A started `check` never throws `IllegalState` and returns only with `Success`. Any exception other than a failed delete leaves `Failed` or `Canceled`. A failed delete can leave any terminal status, `Success` included. A finished run has stopped the clock and leaves no output file unless the delete failed. |
| DriveCheckProperties.EndlessNeverReturns | src/main/java/com/handoitasdf/drive_checker/DriveChecker.java:49-51 | With `maxIterations <= 0`, `check` never returns normally: the loop cannot exit by count. |
| DriveCheckProperties.LoopCounts | src/main/java/com/handoitasdf/drive_checker/DriveChecker.java:48-51 | With a positive count the counter never passes it, and the loop exits by count exactly at it. |
| DriveCheckProperties.ReturnedMeansAllCycles | src/main/java/com/handoitasdf/drive_checker/DriveChecker.java:48-59 | A normal return means `Success`, a positive count, `currIteration == maxIterations`, and the output file deleted. |
| DriveCheckProperties.GoodPrefix | src/main/java/com/handoitasdf/drive_checker/DriveChecker.java:42-52 | Good cycles `i..j-1`, each a transfer and a matching verify, advance the counter to `j` and append exactly their actions to the log. |
| DriveCheckProperties.AllCyclesSucceed | src/main/java/com/handoitasdf/drive_checker/DriveChecker.java:39-59 | Take a positive count, every transfer and verify succeeding, and no cancel. Then `check` returns with `Success` and `currIteration == maxIterations`. The log is exactly the good cycles and then the delete, and no output file remains. |
| DriveCheckProperties.LastGoodCycle | src/main/java/com/handoitasdf/drive_checker/DriveChecker.java:43-51 | The good cycle that reaches the count ends the loop by `break`. |
| DriveCheckProperties.DeleteFailureAfterSuccess | src/main/java/com/handoitasdf/drive_checker/DriveChecker.java:53-59 | The same run with a failing delete throws the delete IO error, yet the status stays `Success` and the file remains. |
| DriveCheckProperties.LoopIgnoresDelete | src/main/java/com/handoitasdf/drive_checker/DriveChecker.java:42-52 | The loop does not depend on whether the later delete succeeds. |
| DriveCheckProperties.MismatchFails | src/main/java/com/handoitasdf/drive_checker/DriveChecker.java:45-59 | After good cycles, a read-back that differs from the transfer's digest throws the mismatch IO error and leaves `Failed` with the counter at that cycle. The output file is still deleted. |
| DriveCheckProperties.MismatchCycle | src/main/java/com/handoitasdf/drive_checker/DriveChecker.java:45-47 | A mismatching cycle ends the loop with the mismatch after exactly its transfer and its verify. |
| DriveCheckProperties.CycleSequential | src/main/java/com/handoitasdf/drive_checker/DriveChecker.java:43-45 | One cycle keeps every verify immediately after its own transfer, with that transfer's digest, and the transfers in cycle order. |
| DriveCheckProperties.LoopSequential | src/main/java/com/handoitasdf/drive_checker/DriveChecker.java:42-52 | The same ordering for the whole loop, by induction. |
| DriveCheckProperties.VerifyUsesItsTransfer | src/main/java/com/handoitasdf/drive_checker/DriveChecker.java:43-45 | In every run of `check`, each verify directly follows the transfer of the same iteration and is given that transfer's digest, and transfers happen in iteration order. |
| DriveCheckProperties.TargetConflictWritesNothing | src/main/java/com/handoitasdf/drive_checker/DriveChecker.java:136-142 | A target equal to the test file raises the IO error in `prepare` before any transfer. Nothing is written or deleted, and the run ends `Failed`, or `Canceled` with `Cancellation` if a cancel came first. |
| DrivesCheck.Submitted | src/main/java/com/handoitasdf/drive_checker/ui/DrivesCheckWorker.java:150-160 | The first `n` submissions are the tasks of drives `0..n-1`, in index order, neither cancelled nor started. |
| DrivesCheck.CancelAll | src/main/java/com/handoitasdf/drive_checker/ui/DrivesCheckWorker.java:115-122 | Every future, and nothing else in it, is marked cancelled. |
| DrivesCheck.DrivesCheckWorker.constructor | src/main/java/com/handoitasdf/drive_checker/ui/DrivesCheckWorker.java:39-57 | A new worker is consistent and has a fresh, pending checker for each drive. It has no futures, notifications, listener or timestamps. |
| DrivesCheck.DrivesCheckWorker.Init | src/main/java/com/handoitasdf/drive_checker/ui/DrivesCheckWorker.java:137-145 | One new, distinct checker per drive: checker `k` is for drive `k` with the batch's test file and is `Pending`. |
| DrivesCheck.DrivesCheckWorker.SetListener | src/main/java/com/handoitasdf/drive_checker/ui/DrivesCheckWorker.java:59-61 | Sets the listener and nothing else. |
| DrivesCheck.DrivesCheckWorker.OnWorkerStarted | src/main/java/com/handoitasdf/drive_checker/ui/DrivesCheckWorker.java:96-99 | Sets the start time, then calls `onStart` exactly when a listener is set. |
| DrivesCheck.DrivesCheckWorker.DoInBackground | src/main/java/com/handoitasdf/drive_checker/ui/DrivesCheckWorker.java:148-166 | The submitted tasks are those of drives `0..m-1` in order, where `m` is 0 if the batch was already cancelled, else the first cancelled index or the number of drives. |
| DrivesCheck.DrivesCheckWorker.ExecuteTask | src/main/java/com/handoitasdf/drive_checker/ui/DrivesCheckWorker.java:186-200 | A cancelled or already run task does nothing. Otherwise the task publishes `RUNNING` and runs `check` (the checker moving as `RunCheck` says). It then publishes the status the outcome maps to, and the future records how far the task ran. |
| DrivesCheck.DrivesCheckWorker.Publish | src/main/java/com/handoitasdf/drive_checker/ui/DrivesCheckWorker.java:187 | Appends one notification to the stream and records the task's progress. |
| DrivesCheck.DrivesCheckWorker.Process | src/main/java/com/handoitasdf/drive_checker/ui/DrivesCheckWorker.java:169-173 | Runs every pending notification, one at a time and in publish order, and marks all of them processed. |
| DrivesCheck.DrivesCheckWorker.Done | src/main/java/com/handoitasdf/drive_checker/ui/DrivesCheckWorker.java:107-135 | Every checker moves as `cancel()` says and every future is cancelled. The trace is the checker cancels, then the future cancels, the await, the done time and `onStop`. `onStop` is called exactly when a listener is set. |
| DrivesCheck.DrivesCheckWorker.CancelCheckers | src/main/java/com/handoitasdf/drive_checker/ui/DrivesCheckWorker.java:112-114 | `cancel()` on every checker in list order, each moving as `StepCancel` says. |
| DrivesCheck.DrivesCheckWorker.CancelFutures | src/main/java/com/handoitasdf/drive_checker/ui/DrivesCheckWorker.java:115-122 | `cancel(true)` on every submitted future in list order. |
| DrivesCheckProperties.ClassifyOutcome | src/main/java/com/handoitasdf/drive_checker/ui/DrivesCheckWorker.java:189-200 | A task publishes a status exactly when `check` is over, and that status is terminal: `SUCCESS` exactly on a normal return, `CANCELED` exactly on `Interrupted`/`Cancellation`, `FAILED` exactly on any other exception, `IllegalState` included. |
| DrivesCheckProperties.ReportedStatus | src/main/java/com/handoitasdf/drive_checker/ui/DrivesCheckWorker.java:189-200 | A published `SUCCESS` means the checker is `Success`. A published `CANCELED` means a cancellation with the checker `Canceled`, or an interruption with the checker `Failed`. A published `FAILED` means the checker is `Failed`, or the delete failed with the checker `Success` or `Canceled`. The status and the checker disagree only in those two delete cases and on an interruption. |
| DrivesCheckProperties.CancelThenDeleteFailureReportsFailed | src/main/java/com/handoitasdf/drive_checker/DriveChecker.java:54-59 | A cancel that lands during the first transfer, followed by a failed delete, ends in the delete's IO error while the checker stays `Canceled`; the drive is reported `FAILED`. |
| DrivesCheckProperties.CancelledBeforeRunReportsFailed | src/main/java/com/handoitasdf/drive_checker/ui/DrivesCheckWorker.java:196-198 | A checker cancelled before its task runs makes `check` throw `IllegalState`; the drive is reported `FAILED` and the checker is unchanged. |
| DrivesCheckProperties.StatusesForAppend | src/main/java/com/handoitasdf/drive_checker/ui/DrivesCheckWorker.java:187 | Publishing a notification adds its status to its own drive's statuses and to no other drive's. |
| DrivesCheckProperties.NoStatusesNoNotifications | src/main/java/com/handoitasdf/drive_checker/ui/DrivesCheckWorker.java:187 | A drive has no status in the stream exactly when no notification names it (induction). |
| DrivesCheckProperties.DeliveriesInOrder | src/main/java/com/handoitasdf/drive_checker/ui/DrivesCheckWorker.java:169-173 | With a listener, running the notifications calls it once per notification, in publish order, with that notification's drive and status. Without one, nothing is called. |
| DrivesCheckProperties.StreamShape | src/main/java/com/handoitasdf/drive_checker/ui/DrivesCheckWorker.java:186-200 | In a consistent worker, each drive's published statuses are nothing (exactly when its task never started), `RUNNING`, or `RUNNING` and then one terminal status. |
| DrivesCheckProperties.NeverRunNeverNotified | src/main/java/com/handoitasdf/drive_checker/ui/DrivesCheckWorker.java:150-160 | A drive whose task was never submitted, or never started, has no published notification and receives no listener call from `process`. |
| DrivesCheckProperties.TaskPublishes | src/main/java/com/handoitasdf/drive_checker/ui/DrivesCheckWorker.java:186-200 | A task adds exactly `RUNNING`, then its terminal status if `check` is over, to its own drive's statuses, and nothing to any other drive's. |
| DrivesCheckProperties.SubmitKeepsConsistent | src/main/java/com/handoitasdf/drive_checker/ui/DrivesCheckWorker.java:150-160 | The submission loop keeps the worker consistent, whichever prefix of the drives it submits. |
| DrivesCheckProperties.TaskKeepsConsistent | src/main/java/com/handoitasdf/drive_checker/ui/DrivesCheckWorker.java:186-200 | A task run from a waiting future keeps the worker consistent, whatever `check`'s outcome. |
| DrivesCheckProperties.ProcessKeepsConsistent | src/main/java/com/handoitasdf/drive_checker/ui/DrivesCheckWorker.java:169-173 | `process` keeps the worker consistent. |
| DrivesCheckProperties.DoneKeepsConsistent | src/main/java/com/handoitasdf/drive_checker/ui/DrivesCheckWorker.java:107-135 | `done()` keeps the worker consistent. |
| DrivesCheckProperties.ListenerKeepsConsistent | src/main/java/com/handoitasdf/drive_checker/ui/DrivesCheckWorker.java:59-61 | `setListener` and `onWorkerStarted` keep the worker consistent. |
| DrivesCheckProperties.ShutdownOrder | src/main/java/com/handoitasdf/drive_checker/ui/DrivesCheckWorker.java:110-132 | The shutdown trace is checker `i`'s cancel at position `i`, then future `j`'s cancel at `checkers + j`, and only then the await, the done time and `onStop`. |
| DrivesCheckProperties.CancelStopsChecker | src/main/java/com/handoitasdf/drive_checker/ui/DrivesCheckWorker.java:112-114 | After `done()`'s `cancel()` no checker is `Pending` or `Running`, and a checker that had already finished is left exactly as it was. |
| DrivesCheckProperties.DoneCancelsFutures | src/main/java/com/handoitasdf/drive_checker/ui/DrivesCheckWorker.java:115-122 | After `done()` every submitted future is cancelled, keeps its drive and its progress, and none is added or lost. |

## Left out

- Threads and the thread pool are not modelled:
  - the `SwingWorker` lifecycle;
  - `synchronized` and `volatile`;
  - `executor.shutdown()`/`awaitTermination`: `done()` records it only as an `AwaitExecutor` step;
  - the interruption that `Future.cancel(true)` sends.

  A concurrent `cancel()` is an event injected at fixed points of `check`. A task runs only when `ExecuteTask` is called, and it runs atomically up to the end of `check`.
- The `finally` block of `doInBackground` also shuts the pool down and
  awaits it, so in Java `doInBackground` returns only after every task has
  ended. The model records nothing for that block: `DoInBackground` returns
  as soon as its submission loop ends, and tasks run later through
  `ExecuteTask`.
- `done()` is one atomic step. So the race in which a task starts between its two loops cannot happen inside the model. What such a task would report is proved separately (`CancelledBeforeRunReportsFailed`).
- A task whose `check` is `Unfinished` (the script ran out) stays `InFlight` and never resumes; the model says nothing about what it publishes later.
- The `Env` script is a fuel bound: a `check` that outlives its script is `Unfinished`, not an endless loop.
- `FileTransferrer`, `FileChecker` and `MessageDigestProvider` are not part of this model. Their results come through `Env`. Their `cancel()` hooks are only recorded (`stagesCanceled`), with no effect.
- The file system is only the "output file exists" flag and a delete that succeeds or fails. Paths are sequences of names compared component by component, without `java.io.File` normalisation. The output file is assumed not to exist before the first transfer, so a pre-existing file at the target path is not modelled.
- Timestamps (`Instant`) are flags saying whether they are set. The getters `getStartTime`, `getDoneTime`, `getDrive` and `getCheckers` are not modelled. Logging is left out.
- A listener call carries the drive's index instead of its `File`.
- `CheckCycle`, `CheckLoop`, `RunTransfer`, `RunVerify` and `Publish` exist only in the model. They are helper methods that split the body of `check` and of `Worker.run`, and they match no separate Java method.
- GoodPrefix: requires the cycle count to stay below `Integer.MAX_VALUE`, so that the counter does not wrap.
- MismatchFails: stated only for a mismatch before cycle `Integer.MAX_VALUE`, for the same reason.
- The UI class `ControlPane` is not part of this model.

/** A model of the per-drive check state machine `DriveChecker`.

    The checker writes a test file onto a drive, reads it back and compares
    digests, over and over. The file system, the transfer stage and the
    read-back stage are not modelled as code: their answers are given by an
    `Env` value (an oracle script), and so are the points at which another
    thread calls `cancel()` while `check` is running.

    The pure functions `Step*`, `RunLoop`, `RunTry` and `RunCheck` are the
    specification. The class `DriveChecker` holds the same fields the Java
    object mutates, and each of its methods is proved to move the object from
    `old(Snapshot())` to the state the specification function computes. */
module DriveCheck {

  datatype Option<T> = None | Some(value: T)

  /** Java's 32-bit `int`. */
  newtype Int32 = x: int | -0x8000_0000 <= x < 0x8000_0000

  const INT32_MAX: Int32 := 0x7fff_ffff
  const INT32_MIN: Int32 := -0x8000_0000

  /** `++n` on a Java `int`: wraps around past the largest value. */
  function Increment(n: Int32): Int32 {
    if n == INT32_MAX then INT32_MIN else n + 1
  }

  /** `CheckingStatus`. */
  datatype Status = Pending | Running | Success | Failed | Canceled

  /** A path, as the sequence of its name components; paths are equal when
      their components are. */
  type Path = seq<string>

  /** `File.getName()`: the last name component. */
  function Name(p: Path): string {
    if p == [] then "" else p[|p| - 1]
  }

  /** Why an `IOException` is thrown. Java has one exception class here; the
      model keeps the message apart so that properties can name the cause. */
  datatype IOCause =
    | TargetIsTestFile   // the derived output path is the test file itself
    | StageFailed        // the transfer or read-back stage failed
    | DigestMismatch     // the read-back digest differs from the transfer's
    | DeleteFailed       // the output file could not be deleted

  datatype Exception =
    | IllegalState
    | IOError(cause: IOCause)
    | Interrupted
    | Cancellation

  /** What a transfer or read-back stage may throw. */
  datatype StageFault = StageIOError | StageInterrupted

  function FaultException(f: StageFault): Exception {
    match f
    case StageIOError => IOError(StageFailed)
    case StageInterrupted => Interrupted
  }

  type Digest = seq<bv8>

  /** A transfer either completes with the digest of what it wrote, or throws;
      a failed transfer may or may not have left a (partial) output file. */
  datatype TransferResult =
    | Transferred(digest: Digest)
    | TransferThrew(fault: StageFault, fileWritten: bool)

  /** The read-back stage digests the output file; `FileChecker.check` then
      compares that digest with the one it is given. */
  datatype ReadBackResult =
    | ReadBack(digest: Digest)
    | ReadBackThrew(fault: StageFault)

  /** The oracle answers for one cycle of the loop, and whether a concurrent
      `cancel()` lands while the transfer runs (before the status write that
      follows it) or while the read-back runs (before the next status write). */
  datatype Cycle = Cycle(
    transfer: TransferResult,
    cancelDuringTransfer: bool,
    readBack: ReadBackResult,
    cancelDuringVerify: bool)

  /** Everything `check` learns from the outside world during one call:
      concurrent cancels between the guard and the first status write, and
      between that write and `prepare`; the per-cycle oracle answers; and
      whether deleting the output file succeeds. */
  datatype Env = Env(
    cancelBeforeStart: bool,
    cancelBeforePrepare: bool,
    cycles: seq<Cycle>,
    deleteSucceeds: bool)

  /** The file-system actions of a check, in order. `Verify` records the
      digest the read-back stage was asked to match. */
  datatype Action = Transfer(cycle: nat) | Verify(cycle: nat, expected: Digest) | Delete

  /** The fields of a `DriveChecker` as a value. `outputExists` is the
      file system's answer to `outputFile.exists()`; `stagesCreated` stands
      for non-null `transferrer`/`fileChecker`; `stagesCanceled` records that
      `cancel()` forwarded to them; the two timestamps are kept as "set" flags. */
  datatype Checker = Checker(
    drive: Path,
    testFile: Path,
    status: Status,
    currIteration: Int32,
    outputFile: Option<Path>,
    outputExists: bool,
    stagesCreated: bool,
    stagesCanceled: bool,
    startTimeSet: bool,
    doneTimeSet: bool,
    log: seq<Action>)

  /** A newly constructed checker. */
  function Initial(drive: Path, testFile: Path): Checker {
    Checker(drive, testFile, Pending, 0, None, false, false, false, false, false, [])
  }

  /** `getTargetFile`: the output file is `<drive>/<name of testFile>`, and it
      must not be the test file itself. That happens exactly when the test
      file already lies directly on the drive. */
  function TargetFile(drive: Path, testFile: Path): (r: Result)
    ensures r.Err? <==> |testFile| > 0 && testFile[..|testFile| - 1] == drive
    ensures r.Err? ==> r.error == IOError(TargetIsTestFile)
    ensures r.Ok? ==> |r.path| == |drive| + 1 && r.path[..|drive|] == drive
                      && Name(r.path) == Name(testFile) && r.path != testFile
  {
    var target := drive + [Name(testFile)];
    assert target[..|drive|] == drive;
    assert testFile == target <==> |testFile| > 0 && testFile[..|testFile| - 1] == drive by {
      if |testFile| > 0 && testFile[..|testFile| - 1] == drive {
        assert testFile == testFile[..|testFile| - 1] + [testFile[|testFile| - 1]];
      }
    }
    if testFile == target then Err(IOError(TargetIsTestFile)) else Ok(target)
  }

  datatype Result = Ok(path: Path) | Err(error: Exception)

  /** `setStatusUnlessCanceled`: a status write that a prior cancel refuses. */
  function StepSetStatus(c: Checker, s: Status): (r: (Checker, Option<Exception>))
    ensures r.1.Some? <==> c.status == Canceled
    ensures r.1.Some? ==> r.1.value == Cancellation && r.0 == c
    ensures r.1.None? ==> r.0 == c.(status := s)
  {
    if c.status == Canceled then (c, Some(Cancellation)) else (c.(status := s), None)
  }

  /** `cancel()`: accepted only while pending or running; it then forces the
      status to `Canceled` and forwards to the stages if they exist. */
  function StepCancel(c: Checker): (r: (Checker, bool))
    ensures r.1 <==> c.status == Pending || c.status == Running
    ensures r.1 ==> r.0.status == Canceled
                    && r.0 == c.(status := Canceled, stagesCanceled := c.stagesCanceled || c.stagesCreated)
    ensures !r.1 ==> r.0 == c
  {
    if c.status != Pending && c.status != Running then
      (c, false)
    else
      (c.(status := Canceled, stagesCanceled := c.stagesCanceled || c.stagesCreated), true)
  }

  /** `prepare`: starts the clock, resets the counter, derives the output
      path and creates the stages; a path conflict throws before the output
      path or the stages are recorded. */
  function StepPrepare(c: Checker): (r: (Checker, Option<Exception>))
    ensures r.0.status == c.status && r.0.log == c.log && r.0.outputExists == c.outputExists
    ensures r.0.startTimeSet && !r.0.doneTimeSet && r.0.currIteration == 0
    ensures r.1.None? <==> TargetFile(c.drive, c.testFile).Ok?
    ensures r.1.None? ==> r.0.outputFile == Some(TargetFile(c.drive, c.testFile).path) && r.0.stagesCreated
    ensures r.1.Some? ==> r.1.value == IOError(TargetIsTestFile)
                          && r.0.outputFile == c.outputFile && r.0.stagesCreated == c.stagesCreated
  {
    var c1 := c.(startTimeSet := true, doneTimeSet := false, currIteration := 0);
    match TargetFile(c.drive, c.testFile)
    case Err(e) => (c1, Some(e))
    case Ok(target) => (c1.(outputFile := Some(target), stagesCreated := true), None)
  }

  /** `release`: stops the clock and deletes the output file if there is one;
      a failed delete throws, whatever the status is. */
  function StepRelease(c: Checker, deleteSucceeds: bool): (r: (Checker, Option<Exception>))
    ensures r.0.doneTimeSet && r.0.status == c.status && r.0.currIteration == c.currIteration
    ensures r.0.startTimeSet == c.startTimeSet
    ensures r.1.Some? <==> c.outputFile.Some? && c.outputExists && !deleteSucceeds
    ensures r.1.Some? ==> r.1.value == IOError(DeleteFailed) && r.0.outputExists
    ensures c.outputFile.Some? && c.outputExists && deleteSucceeds ==> r.0.outputFile.None? && !r.0.outputExists
    ensures r.0.log == c.log + (if c.outputFile.Some? && c.outputExists then [Delete] else [])
  {
    var c1 := c.(doneTimeSet := true);
    if c1.outputFile.None? || !c1.outputExists then
      (c1, None)
    else if !deleteSucceeds then
      (c1.(log := c1.log + [Delete]), Some(IOError(DeleteFailed)))
    else
      (c1.(outputFile := None, outputExists := false, log := c1.log + [Delete]), None)
  }

  /** How the `while (true)` loop of `check` ends: by `break`, by an
      exception, or not within the cycles the oracle script provides. */
  datatype LoopEnd = Completed | Threw(e: Exception) | OutOfScript

  /** How one cycle of the loop ends: on to the next cycle, or out of the loop. */
  datatype CycleEnd = Again | Ended(end: LoopEnd)

  /** `transferrer.transfer()` in cycle `i`: writes the output file and
      digests what it writes, or throws; a concurrent `cancel()` may land
      while it runs. */
  function StepTransfer(c: Checker, cycle: Cycle, i: nat): (r: (Checker, Option<Exception>))
    ensures r.1.None? <==> cycle.transfer.Transferred?
    ensures r.1.Some? ==> r.1.value == FaultException(cycle.transfer.fault)
    ensures r.0.log == c.log + [Transfer(i)]
    ensures cycle.transfer.Transferred? ==> r.0.outputExists
    ensures c.outputExists ==> r.0.outputExists
    ensures r.0.status == (if cycle.cancelDuringTransfer then StepCancel(c).0.status else c.status)
    ensures r.0.drive == c.drive && r.0.testFile == c.testFile && r.0.outputFile == c.outputFile
    ensures r.0.currIteration == c.currIteration
    ensures r.0.startTimeSet == c.startTimeSet && r.0.doneTimeSet == c.doneTimeSet
  {
    var c1 := c.(log := c.log + [Transfer(i)]);
    var (c2, thrown) := match cycle.transfer
      case TransferThrew(fault, written) =>
        (c1.(outputExists := c1.outputExists || written), Some(FaultException(fault)))
      case Transferred(_) => (c1.(outputExists := true), None);
    (if cycle.cancelDuringTransfer then StepCancel(c2).0 else c2, thrown)
  }

  /** `fileChecker.check(digest)` in cycle `i`, and the `IOException` that
      `check` throws when it answers false; a concurrent `cancel()` may land
      while it runs. */
  function StepVerify(c: Checker, cycle: Cycle, i: nat, digest: Digest): (r: (Checker, Option<Exception>))
    ensures r.1.None? <==> cycle.readBack == ReadBack(digest)
    ensures r.1.Some? && cycle.readBack.ReadBack? ==> r.1.value == IOError(DigestMismatch)
    ensures r.1.Some? && cycle.readBack.ReadBackThrew? ==> r.1.value == FaultException(cycle.readBack.fault)
    ensures r.0.log == c.log + [Verify(i, digest)]
    ensures r.0.status == (if cycle.cancelDuringVerify then StepCancel(c).0.status else c.status)
    ensures r.0.drive == c.drive && r.0.testFile == c.testFile && r.0.outputFile == c.outputFile
    ensures r.0.outputExists == c.outputExists && r.0.currIteration == c.currIteration
    ensures r.0.startTimeSet == c.startTimeSet && r.0.doneTimeSet == c.doneTimeSet
  {
    var c1 := c.(log := c.log + [Verify(i, digest)]);
    var c2 := if cycle.cancelDuringVerify then StepCancel(c1).0 else c1;
    match cycle.readBack
    case ReadBackThrew(fault) => (c2, Some(FaultException(fault)))
    case ReadBack(readDigest) => (c2, if readDigest == digest then None else Some(IOError(DigestMismatch)))
  }

  /** Cycle `i` of the loop: transfer, the guarded status write, verify
      against that transfer's digest, count, and stop at the requested count
      (never, when that count is not positive). */
  function RunCycle(c: Checker, maxIterations: Int32, cycle: Cycle, i: nat): (r: (Checker, CycleEnd))
    ensures c.status == Canceled ==> r.0.status == Canceled
    ensures c.status == Running || c.status == Canceled ==> r.0.status == Running || r.0.status == Canceled
    ensures r.1 == Ended(Completed) ==> maxIterations > 0 && r.0.currIteration >= maxIterations && r.0.outputExists
    ensures r.1 == Ended(Threw(Cancellation)) ==> r.0.status == Canceled
    ensures r.1.Ended? ==> r.1.end.Completed? || r.1.end == Threw(IOError(StageFailed)) || r.1.end == Threw(Cancellation)
                           || r.1.end == Threw(IOError(DigestMismatch)) || r.1.end == Threw(Interrupted)
    ensures r.0.drive == c.drive && r.0.testFile == c.testFile && r.0.outputFile == c.outputFile
    ensures r.0.startTimeSet == c.startTimeSet && r.0.doneTimeSet == c.doneTimeSet
    ensures c.outputExists ==> r.0.outputExists
    ensures c.log <= r.0.log
  {
    var (c1, thrown1) := StepTransfer(c, cycle, i);
    if thrown1.Some? then
      (c1, Ended(Threw(thrown1.value)))
    else
      var (c2, thrown2) := StepSetStatus(c1, Running);
      if thrown2.Some? then
        (c2, Ended(Threw(thrown2.value)))
      else
        var (c3, thrown3) := StepVerify(c2, cycle, i, cycle.transfer.digest);
        if thrown3.Some? then
          (c3, Ended(Threw(thrown3.value)))
        else
          var c4 := c3.(currIteration := Increment(c3.currIteration));
          (c4, if maxIterations > 0 && c4.currIteration >= maxIterations then Ended(Completed) else Again)
  }

  /** Cycles `i`, `i + 1`, ... of the `while (true)` loop of `check`. */
  function RunLoop(c: Checker, maxIterations: Int32, env: Env, i: nat): (r: (Checker, LoopEnd))
    decreases |env.cycles| - i
    ensures c.status == Canceled ==> r.0.status == Canceled
    ensures c.status == Running || c.status == Canceled ==> r.0.status == Running || r.0.status == Canceled
    ensures r.1.Completed? ==> maxIterations > 0 && r.0.currIteration >= maxIterations && r.0.outputExists
    ensures r.1 == Threw(Cancellation) ==> r.0.status == Canceled
    ensures r.1.Threw? ==> r.1.e == IOError(StageFailed) || r.1.e == IOError(DigestMismatch)
                           || r.1.e == Interrupted || r.1.e == Cancellation
    ensures r.0.drive == c.drive && r.0.testFile == c.testFile && r.0.outputFile == c.outputFile
    ensures r.0.startTimeSet == c.startTimeSet && r.0.doneTimeSet == c.doneTimeSet
    ensures c.outputExists ==> r.0.outputExists
    ensures c.log <= r.0.log
  {
    if i >= |env.cycles| then
      (c, OutOfScript)
    else
      var (c1, next) := RunCycle(c, maxIterations, env.cycles[i], i);
      if next.Ended? then (c1, next.end) else RunLoop(c1, maxIterations, env, i + 1)
  }

  /** The `try` block of `check`: the first status write, `prepare`, the
      loop and the final `SUCCESS` write. */
  function RunTry(c: Checker, maxIterations: Int32, env: Env): (r: (Checker, LoopEnd)) {
    var c0 := if env.cancelBeforeStart then StepCancel(c).0 else c;
    var (c1, thrown1) := StepSetStatus(c0, Running);
    if thrown1.Some? then
      (c1, Threw(thrown1.value))
    else
      var c2 := if env.cancelBeforePrepare then StepCancel(c1).0 else c1;
      var (c3, thrown3) := StepPrepare(c2);
      if thrown3.Some? then
        (c3, Threw(thrown3.value))
      else
        var (c4, end) := RunLoop(c3, maxIterations, env, 0);
        if !end.Completed? then
          (c4, end)
        else
          var (c5, thrown5) := StepSetStatus(c4, Success);
          if thrown5.Some? then (c5, Threw(thrown5.value)) else (c5, Completed)
  }

  /** What a call of `check` does: returns, throws, or is still looping when
      the oracle script runs out. */
  datatype Outcome = Returned | Thrown(e: Exception) | Unfinished

  /** The `finally` block: `release`, whose exception replaces the pending one. */
  function Finally(c: Checker, pending: Outcome, deleteSucceeds: bool): (Checker, Outcome) {
    var (c1, thrown) := StepRelease(c, deleteSucceeds);
    (c1, if thrown.Some? then Thrown(thrown.value) else pending)
  }

  /** `check(maxIterations)`: the guard, then `try` / `catch` (a `FAILED`
      write, itself refused after a cancel) / `finally`. */
  function RunCheck(c: Checker, maxIterations: Int32, env: Env): (Checker, Outcome) {
    if c.status != Pending then
      (c, Thrown(IllegalState))
    else
      var (c1, end) := RunTry(c, maxIterations, env);
      match end
      case OutOfScript => (c1, Unfinished)
      case Completed => Finally(c1, Returned, env.deleteSucceeds)
      case Threw(e) =>
        var (c2, thrown) := StepSetStatus(c1, Failed);
        Finally(c2, Thrown(if thrown.Some? then thrown.value else e), env.deleteSucceeds)
  }

  class DriveChecker {
    const drive: Path
    const testFile: Path
    var status: Status
    var currIteration: Int32
    var outputFile: Option<Path>
    var outputExists: bool
    var stagesCreated: bool
    var stagesCanceled: bool
    var startTimeSet: bool
    var doneTimeSet: bool
    var log: seq<Action>

    /** The object's fields as a value. */
    function Snapshot(): Checker
      reads this
    {
      Checker(drive, testFile, status, currIteration, outputFile, outputExists,
              stagesCreated, stagesCanceled, startTimeSet, doneTimeSet, log)
    }

    constructor (drive: Path, testFile: Path)
      ensures Snapshot() == Initial(drive, testFile)
    {
      this.drive := drive;
      this.testFile := testFile;
      status := Pending;
      currIteration := 0;
      outputFile := None;
      outputExists := false;
      stagesCreated := false;
      stagesCanceled := false;
      startTimeSet := false;
      doneTimeSet := false;
      log := [];
    }

    method GetStatus() returns (s: Status)
      ensures s == status
    {
      s := status;
    }

    method GetCheckedCount() returns (n: Int32)
      ensures n == currIteration
    {
      n := currIteration;
    }

    method SetStatusUnlessCanceled(newStatus: Status) returns (thrown: Option<Exception>)
      modifies this
      ensures (Snapshot(), thrown) == StepSetStatus(old(Snapshot()), newStatus)
      ensures thrown.Some? <==> old(status) == Canceled
      ensures status == if old(status) == Canceled then Canceled else newStatus
    {
      if status == Canceled {
        return Some(Cancellation);
      }
      status := newStatus;
      thrown := None;
    }

    method Cancel() returns (accepted: bool)
      modifies this
      ensures (Snapshot(), accepted) == StepCancel(old(Snapshot()))
      ensures accepted <==> old(status) == Pending || old(status) == Running
      ensures accepted ==> status == Canceled
      ensures !accepted ==> Snapshot() == old(Snapshot())
    {
      if status != Pending && status != Running {
        return false;
      }
      status := Canceled;
      if stagesCreated {
        stagesCanceled := true;
      }
      accepted := true;
    }

    method Prepare() returns (thrown: Option<Exception>)
      modifies this
      ensures (Snapshot(), thrown) == StepPrepare(old(Snapshot()))
    {
      startTimeSet := true;
      doneTimeSet := false;
      currIteration := 0;
      var target := TargetFile(drive, testFile);
      if target.Err? {
        return Some(target.error);
      }
      outputFile := Some(target.path);
      stagesCreated := true;
      thrown := None;
    }

    method Release(deleteSucceeds: bool) returns (thrown: Option<Exception>)
      modifies this
      ensures (Snapshot(), thrown) == StepRelease(old(Snapshot()), deleteSucceeds)
    {
      doneTimeSet := true;
      if outputFile.None? || !outputExists {
        return None;
      }
      log := log + [Delete];
      if !deleteSucceeds {
        return Some(IOError(DeleteFailed));
      }
      outputFile := None;
      outputExists := false;
      thrown := None;
    }

    /** `transferrer.transfer()`, with the concurrent `cancel()` that may
        land while it runs. */
    method RunTransfer(cycle: Cycle, i: nat) returns (thrown: Option<Exception>)
      modifies this
      ensures (Snapshot(), thrown) == StepTransfer(old(Snapshot()), cycle, i)
    {
      log := log + [Transfer(i)];
      match cycle.transfer {
        case TransferThrew(fault, written) =>
          outputExists := outputExists || written;
          thrown := Some(FaultException(fault));
        case Transferred(_) =>
          outputExists := true;
          thrown := None;
      }
      if cycle.cancelDuringTransfer {
        var accepted := Cancel();
      }
    }

    /** `fileChecker.check(digest)` and the `IOException` for a false answer,
        with the concurrent `cancel()` that may land while it runs. */
    method RunVerify(cycle: Cycle, i: nat, digest: Digest) returns (thrown: Option<Exception>)
      modifies this
      ensures (Snapshot(), thrown) == StepVerify(old(Snapshot()), cycle, i, digest)
    {
      log := log + [Verify(i, digest)];
      if cycle.cancelDuringVerify {
        var accepted := Cancel();
      }
      match cycle.readBack {
        case ReadBackThrew(fault) =>
          thrown := Some(FaultException(fault));
        case ReadBack(readDigest) =>
          thrown := if readDigest == digest then None else Some(IOError(DigestMismatch));
      }
    }

    /** One pass through the body of the `while (true)` loop of `check`. */
    method CheckCycle(maxIterations: Int32, cycle: Cycle, i: nat) returns (next: CycleEnd)
      modifies this
      ensures (Snapshot(), next) == RunCycle(old(Snapshot()), maxIterations, cycle, i)
    {
      next := Again;
      var thrown := RunTransfer(cycle, i);
      if thrown.Some? {
        return Ended(Threw(thrown.value));
      }
      thrown := SetStatusUnlessCanceled(Running);
      if thrown.Some? {
        return Ended(Threw(thrown.value));
      }
      thrown := RunVerify(cycle, i, cycle.transfer.digest);
      if thrown.Some? {
        return Ended(Threw(thrown.value));
      }
      currIteration := Increment(currIteration);
      if maxIterations > 0 && currIteration >= maxIterations {
        next := Ended(Completed);
      }
    }

    /** The `while (true)` loop of `check`. */
    method CheckLoop(maxIterations: Int32, env: Env) returns (end: LoopEnd)
      modifies this
      ensures (Snapshot(), end) == RunLoop(old(Snapshot()), maxIterations, env, 0)
    {
      ghost var entry := Snapshot();
      var i := 0;
      while true
        invariant i <= |env.cycles|
        invariant RunLoop(Snapshot(), maxIterations, env, i) == RunLoop(entry, maxIterations, env, 0)
        decreases |env.cycles| - i
      {
        ghost var head := Snapshot();
        if i == |env.cycles| {
          return OutOfScript;
        }
        var next := CheckCycle(maxIterations, env.cycles[i], i);
        if next.Ended? {
          return next.end;
        }
        assert RunLoop(head, maxIterations, env, i) == RunLoop(Snapshot(), maxIterations, env, i + 1);
        i := i + 1;
      }
    }

    method Check(maxIterations: Int32, env: Env) returns (outcome: Outcome)
      modifies this
      ensures (Snapshot(), outcome) == RunCheck(old(Snapshot()), maxIterations, env)
      ensures old(status) != Pending ==> outcome == Thrown(IllegalState) && Snapshot() == old(Snapshot())
    {
      if status != Pending {
        return Thrown(IllegalState);
      }
      ghost var start := Snapshot();
      var end: LoopEnd := Completed;
      var accepted: bool;
      if env.cancelBeforeStart {
        accepted := Cancel();
      }
      var thrown := SetStatusUnlessCanceled(Running);
      if thrown.Some? {
        end := Threw(thrown.value);
      } else {
        if env.cancelBeforePrepare {
          accepted := Cancel();
        }
        thrown := Prepare();
        if thrown.Some? {
          end := Threw(thrown.value);
        } else {
          end := CheckLoop(maxIterations, env);
          if end.Completed? {
            thrown := SetStatusUnlessCanceled(Success);
            if thrown.Some? {
              end := Threw(thrown.value);
            }
          }
        }
      }
      assert (Snapshot(), end) == RunTry(start, maxIterations, env);
      if end.OutOfScript? {
        return Unfinished;
      }
      if end.Threw? {
        var again := SetStatusUnlessCanceled(Failed);
        outcome := Thrown(if again.Some? then again.value else end.e);
      } else {
        outcome := Returned;
      }
      var releaseError := Release(env.deleteSucceeds);
      if releaseError.Some? {
        outcome := Thrown(releaseError.value);
      }
    }
  }
}

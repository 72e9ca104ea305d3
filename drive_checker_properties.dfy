/** What a call of `DriveChecker.check` guarantees, proved about the
    specification functions of module `DriveCheck`. Every lemma about a whole
    call starts from a newly constructed checker (`IsFresh`): a checker leaves
    `Pending` only through `check` or `cancel`, never to return. */
module DriveCheckProperties {
  import opened DriveCheck

  predicate IsFresh(c: Checker) {
    c == Initial(c.drive, c.testFile)
  }

  /** Whether the concurrent `cancel()` scripted for action `a` happens:
      during that transfer, or during that read-back. */
  predicate CancelsAt(env: Env, a: Action) {
    match a
    case Transfer(i) => i < |env.cycles| && env.cycles[i].cancelDuringTransfer
    case Verify(i, _) => i < |env.cycles| && env.cycles[i].cancelDuringVerify
    case Delete => false
  }

  /** Whether a concurrent `cancel()` landed at some point the run reached:
      before the first status write, before `prepare`, or during a transfer
      or read-back that appears in the run's log. */
  predicate CancelLanded(env: Env, log: seq<Action>) {
    env.cancelBeforeStart || env.cancelBeforePrepare
    || exists k :: 0 <= k < |log| && CancelsAt(env, log[k])
  }

  /** A cycle in which everything succeeds and no cancel lands. */
  predicate GoodCycle(cycle: Cycle) {
    cycle.transfer.Transferred? && cycle.readBack == ReadBack(cycle.transfer.digest)
    && !cycle.cancelDuringTransfer && !cycle.cancelDuringVerify
  }

  predicate GoodUpTo(env: Env, n: nat) {
    n <= |env.cycles| && forall j :: 0 <= j < n ==> GoodCycle(env.cycles[j])
  }

  /** The log of `n` good cycles: transfer, then verify against its digest. */
  function GoodLog(env: Env, n: nat): seq<Action>
    requires GoodUpTo(env, n)
  {
    if n == 0 then []
    else GoodLog(env, n - 1) + [Transfer(n - 1), Verify(n - 1, env.cycles[n - 1].transfer.digest)]
  }

  /** Every verify directly follows the transfer of the same cycle and is
      given that transfer's digest; transfers happen in increasing cycle order. */
  predicate Sequential(env: Env, log: seq<Action>) {
    (forall k :: 0 <= k < |log| && log[k].Verify? ==>
       0 < k && log[k - 1] == Transfer(log[k].cycle) && log[k].cycle < |env.cycles|
       && env.cycles[log[k].cycle].transfer == Transferred(log[k].expected))
    && (forall k, m :: 0 <= k < m < |log| && log[k].Transfer? && log[m].Transfer? ==> log[k].cycle < log[m].cycle)
  }

  /** Every transfer and verify in `log` belongs to a cycle before `i`. */
  predicate Before(log: seq<Action>, i: nat) {
    forall k :: 0 <= k < |log| && !log[k].Delete? ==> log[k].cycle < i
  }

  // ---------------------------------------------------------------------
  // The guard and cancel()

  /** `check` on a checker that is not pending throws `IllegalState` and
      changes nothing: no prepare, transfer or release. */
  lemma CheckRefusedUnlessPending(c: Checker, maxIterations: Int32, env: Env)
    requires c.status != Pending
    ensures RunCheck(c, maxIterations, env) == (c, Thrown(IllegalState))
  {
  }

  /** `cancel()` before `check()`: the cancel is accepted, and `check` then
      throws `IllegalState` at the guard, so nothing is written and
      `release` is not reached. */
  lemma CancelBeforeCheck(c: Checker, maxIterations: Int32, env: Env)
    requires IsFresh(c)
    ensures StepCancel(c).1 && StepCancel(c).0.status == Canceled
    ensures var c1 := StepCancel(c).0;
      RunCheck(c1, maxIterations, env) == (c1, Thrown(IllegalState)) && c1.log == [] && !c1.doneTimeSet
  {
  }

  /** A second `cancel()` always returns false and changes nothing. */
  lemma CancelAcceptedAtMostOnce(c: Checker)
    ensures var c1 := StepCancel(c).0; !StepCancel(c1).1 && StepCancel(c1).0 == c1
  {
  }

  // ---------------------------------------------------------------------
  // Cancellation wins

  /** Some action of `log` from position `from` on met a scripted cancel. */
  predicate CancelIn(env: Env, log: seq<Action>, from: nat) {
    exists k :: from <= k < |log| && CancelsAt(env, log[k])
  }

  /** Splitting the actions of an extended log at the end of its prefix. */
  lemma CancelInSplit(env: Env, a: seq<Action>, b: seq<Action>, from: nat)
    requires a <= b && from <= |a|
    ensures CancelIn(env, b, from) <==> CancelIn(env, a, from) || CancelIn(env, b, |a|)
  {
    if CancelIn(env, a, from) {
      var k :| from <= k < |a| && CancelsAt(env, a[k]);
      assert b[k] == a[k];
    }
    if CancelIn(env, b, from) {
      var k :| from <= k < |b| && CancelsAt(env, b[k]);
      if k < |a| {
        assert a[k] == b[k];
      }
    }
  }

  /** One cycle: the status ends `Canceled` exactly when it was already, or
      a cancel scripted for one of the cycle's own actions landed. */
  lemma CycleCancel(c: Checker, maxIterations: Int32, env: Env, i: nat)
    requires i < |env.cycles|
    requires c.status == Running || c.status == Canceled
    ensures var r := RunCycle(c, maxIterations, env.cycles[i], i);
      r.0.status == Canceled <==> c.status == Canceled || CancelIn(env, r.0.log, |c.log|)
  {
    var cycle := env.cycles[i];
    var r := RunCycle(c, maxIterations, cycle, i);
    var (c1, thrown1) := StepTransfer(c, cycle, i);
    assert c1.log[|c.log|] == Transfer(i);
    assert CancelsAt(env, Transfer(i)) == cycle.cancelDuringTransfer;
    if thrown1.Some? {
      assert r.0 == c1;
      assert |r.0.log| == |c.log| + 1;
    } else {
      var (c2, thrown2) := StepSetStatus(c1, Running);
      if thrown2.Some? {
        assert r.0 == c1;
        assert |r.0.log| == |c.log| + 1;
      } else {
        var (c3, thrown3) := StepVerify(c2, cycle, i, cycle.transfer.digest);
        assert r.0.status == c3.status && r.0.log == c3.log;
        assert c3.log == c.log + [Transfer(i), Verify(i, cycle.transfer.digest)];
        assert CancelsAt(env, c3.log[|c.log| + 1]) == cycle.cancelDuringVerify;
      }
    }
  }

  /** The loop: the status ends `Canceled` exactly when it was already, or a
      cancel scripted for one of the actions the loop performed landed. */
  lemma {:induction false} LoopCancel(c: Checker, maxIterations: Int32, env: Env, i: nat)
    requires c.status == Running || c.status == Canceled
    decreases |env.cycles| - i
    ensures var r := RunLoop(c, maxIterations, env, i);
      r.0.status == Canceled <==> c.status == Canceled || CancelIn(env, r.0.log, |c.log|)
  {
    if i < |env.cycles| {
      var (c1, next) := RunCycle(c, maxIterations, env.cycles[i], i);
      CycleCancel(c, maxIterations, env, i);
      if next.Again? {
        LoopCancel(c1, maxIterations, env, i + 1);
        var r := RunLoop(c1, maxIterations, env, i + 1);
        CancelInSplit(env, c1.log, r.0.log, |c.log|);
      }
    }
  }

  /** Cancellation always wins: a run ends `Canceled` exactly when a
      concurrent `cancel()` landed at a point it reached, and a finished
      run that ends `Canceled` throws `Cancellation` (or the delete failure
      of `release`, which replaces it). */
  lemma CancellationWins(c: Checker, maxIterations: Int32, env: Env)
    requires IsFresh(c)
    ensures var r := RunCheck(c, maxIterations, env);
      (r.0.status == Canceled <==> CancelLanded(env, r.0.log))
      && (r.0.status == Canceled && !r.1.Unfinished? ==>
            r.1 == Thrown(Cancellation) || r.1 == Thrown(IOError(DeleteFailed)))
  {
    var (c1, end) := RunTry(c, maxIterations, env);
    TryCancel(c, maxIterations, env);
    var r := RunCheck(c, maxIterations, env);
    if !end.OutOfScript? {
      CancelInSplit(env, c1.log, r.0.log, 0);
      assert !CancelIn(env, r.0.log, |c1.log|) by {
        assert r.0.log == c1.log || r.0.log == c1.log + [Delete];
      }
    }
  }

  /** `CancellationWins` for the `try` block alone. */
  lemma TryCancel(c: Checker, maxIterations: Int32, env: Env)
    requires IsFresh(c)
    ensures var (c1, end) := RunTry(c, maxIterations, env);
      (c1.status == Canceled <==> env.cancelBeforeStart || env.cancelBeforePrepare || CancelIn(env, c1.log, 0))
      && (end == Completed ==> c1.status == Success)
  {
    var c0 := if env.cancelBeforeStart then StepCancel(c).0 else c;
    var (c1, thrown1) := StepSetStatus(c0, Running);
    if thrown1.None? {
      var c2 := if env.cancelBeforePrepare then StepCancel(c1).0 else c1;
      var (c3, thrown3) := StepPrepare(c2);
      if thrown3.None? {
        LoopCancel(c3, maxIterations, env, 0);
      }
    }
  }

  // ---------------------------------------------------------------------
  // How a run ends

  /** Every way a started run can end: it never throws `IllegalState`; it
      returns only with `Success`; any exception other than a failed delete
      leaves `Failed` or `Canceled`, and `Cancellation` leaves `Canceled`; a
      failed delete may leave any terminal status, `Success` included; a run
      still looping is `Running` or `Canceled`. A finished run has stopped
      the clock and left no output file behind unless the delete failed. */
  lemma Outcomes(c: Checker, maxIterations: Int32, env: Env)
    requires IsFresh(c)
    ensures var (c1, o) := RunCheck(c, maxIterations, env);
      o != Thrown(IllegalState)
      && (o == Returned ==> c1.status == Success && maxIterations > 0)
      && (o.Thrown? && o.e != IOError(DeleteFailed) ==> c1.status == Failed || c1.status == Canceled)
      && (o == Thrown(Cancellation) ==> c1.status == Canceled)
      && (o == Thrown(IOError(DeleteFailed)) ==>
            (c1.status == Success || c1.status == Failed || c1.status == Canceled) && c1.outputExists && !env.deleteSucceeds)
      && (o.Unfinished? ==> c1.status == Running || c1.status == Canceled)
      && (!o.Unfinished? ==> c1.doneTimeSet && (c1.outputExists ==> o == Thrown(IOError(DeleteFailed))))
  {
    var (c1, end) := RunTry(c, maxIterations, env);
    TryEnds(c, maxIterations, env);
    if end.Threw? {
      var (c2, thrown) := StepSetStatus(c1, Failed);
      assert c2.status == Failed || c2.status == Canceled;
    }
  }

  /** How the `try` block of a fresh checker ends. */
  lemma TryEnds(c: Checker, maxIterations: Int32, env: Env)
    requires IsFresh(c)
    ensures var (c1, end) := RunTry(c, maxIterations, env);
      end != Threw(IllegalState)
      && !c1.doneTimeSet
      && (end == Completed ==> c1.status == Success && maxIterations > 0)
      && (end == Threw(Cancellation) ==> c1.status == Canceled)
      && (end.OutOfScript? ==> c1.status == Running || c1.status == Canceled)
  {
  }

  /** With a non-positive count the loop never ends by count, so `check`
      never returns normally. */
  lemma EndlessNeverReturns(c: Checker, maxIterations: Int32, env: Env)
    requires maxIterations <= 0
    ensures RunCheck(c, maxIterations, env).1 != Returned
  {
  }

  /** With a positive count the counter runs 0, 1, ... and the loop stops
      exactly when it reaches the count. */
  lemma {:induction false} LoopCounts(c: Checker, maxIterations: Int32, env: Env, i: nat)
    requires 0 <= i < maxIterations as int && c.currIteration as int == i
    decreases |env.cycles| - i
    ensures var r := RunLoop(c, maxIterations, env, i);
      r.0.currIteration as int <= maxIterations as int
      && (r.1.Completed? ==> r.0.currIteration == maxIterations)
  {
    if i < |env.cycles| {
      var (c1, next) := RunCycle(c, maxIterations, env.cycles[i], i);
      assert c1.currIteration as int <= i + 1;
      if next.Again? {
        assert c1.currIteration as int == i + 1;
        LoopCounts(c1, maxIterations, env, i + 1);
      }
    }
  }

  /** A run that returns normally performed exactly the requested number of
      cycles, ends `Success` and has deleted its output file. */
  lemma ReturnedMeansAllCycles(c: Checker, maxIterations: Int32, env: Env)
    requires IsFresh(c)
    ensures var (c1, o) := RunCheck(c, maxIterations, env);
      o == Returned ==>
        c1.status == Success && maxIterations > 0 && c1.currIteration == maxIterations
        && c1.outputFile.None? && !c1.outputExists
  {
    var (c1, o) := RunCheck(c, maxIterations, env);
    if o == Returned {
      var c0 := if env.cancelBeforeStart then StepCancel(c).0 else c;
      var (c1', _) := StepSetStatus(c0, Running);
      var c2 := if env.cancelBeforePrepare then StepCancel(c1').0 else c1';
      var (c3, _) := StepPrepare(c2);
      LoopCounts(c3, maxIterations, env, 0);
    }
  }

  // ---------------------------------------------------------------------
  // Runs in which everything succeeds, or one read-back mismatches

  /** Good cycles `i`, ..., `j - 1` in which the count is not reached lead
      the loop to cycle `j` with the counter at `j` and their actions logged. */
  lemma {:induction false} GoodPrefix(c: Checker, maxIterations: Int32, env: Env, i: nat, j: nat)
    requires i <= j < INT32_MAX as int && GoodUpTo(env, j)
    requires maxIterations <= 0 || j < maxIterations as int
    requires c.status == Running && c.currIteration as int == i && c.log == GoodLog(env, i)
    decreases j - i
    ensures RunLoop(c, maxIterations, env, i)
         == RunLoop(c.(currIteration := j as Int32, outputExists := c.outputExists || i < j, log := GoodLog(env, j)),
                    maxIterations, env, j)
  {
    if i < j {
      var cycle := env.cycles[i];
      var (c1, next) := RunCycle(c, maxIterations, cycle, i);
      assert GoodCycle(cycle);
      assert c1 == c.(currIteration := (i + 1) as Int32, outputExists := true, log := GoodLog(env, i + 1));
      assert next == Again;
      GoodPrefix(c1, maxIterations, env, i + 1, j);
    }
  }

  /** With a positive count, a target that differs from the test file, good
      cycles up to the count, no cancel and a delete that succeeds, `check`
      returns normally after exactly that many transfer/verify cycles, with
      `Success`, and leaves no output file. */
  lemma AllCyclesSucceed(c: Checker, maxIterations: Int32, env: Env)
    requires IsFresh(c) && TargetFile(c.drive, c.testFile).Ok?
    requires maxIterations > 0 && GoodUpTo(env, maxIterations as int)
    requires !env.cancelBeforeStart && !env.cancelBeforePrepare && env.deleteSucceeds
    ensures var (c1, o) := RunCheck(c, maxIterations, env);
      o == Returned && c1.status == Success && c1.currIteration == maxIterations
      && c1.log == GoodLog(env, maxIterations as int) + [Delete]
      && c1.outputFile.None? && !c1.outputExists && c1.doneTimeSet
  {
    var n := maxIterations as int;
    var (c1, _) := StepSetStatus(c, Running);
    var (c3, _) := StepPrepare(c1);
    GoodPrefix(c3, maxIterations, env, 0, n - 1);
    var cn := c3.(currIteration := (n - 1) as Int32, outputExists := c3.outputExists || 0 < n - 1, log := GoodLog(env, n - 1));
    assert GoodCycle(env.cycles[n - 1]);
    LastGoodCycle(cn, maxIterations, env.cycles[n - 1], n - 1);
  }

  /** The good cycle that reaches the count ends the loop normally. */
  lemma LastGoodCycle(c: Checker, maxIterations: Int32, cycle: Cycle, j: nat)
    requires c.status == Running && GoodCycle(cycle)
    requires j + 1 == maxIterations as int && c.currIteration as int == j
    ensures RunCycle(c, maxIterations, cycle, j)
      == (c.(currIteration := maxIterations, outputExists := true,
             log := c.log + [Transfer(j), Verify(j, cycle.transfer.digest)]), Ended(Completed))
  {
    var d := cycle.transfer.digest;
    var (t1, _) := StepTransfer(c, cycle, j);
    assert t1 == c.(outputExists := true, log := c.log + [Transfer(j)]);
    var (t3, e3) := StepVerify(t1, cycle, j, d);
    assert t3 == t1.(log := c.log + [Transfer(j), Verify(j, d)]) && e3.None?;
    assert Increment(t3.currIteration) == maxIterations;
  }

  /** The same run with a delete that fails: `check` throws the delete
      failure although the loop succeeded and the status stays `Success`. */
  lemma DeleteFailureAfterSuccess(c: Checker, maxIterations: Int32, env: Env)
    requires IsFresh(c) && TargetFile(c.drive, c.testFile).Ok?
    requires maxIterations > 0 && GoodUpTo(env, maxIterations as int)
    requires !env.cancelBeforeStart && !env.cancelBeforePrepare && !env.deleteSucceeds
    ensures var (c1, o) := RunCheck(c, maxIterations, env);
      o == Thrown(IOError(DeleteFailed)) && c1.status == Success && c1.outputExists
  {
    AllCyclesSucceed(c, maxIterations, env.(deleteSucceeds := true));
    var n := maxIterations as int;
    var (c1, _) := StepSetStatus(c, Running);
    var (c3, _) := StepPrepare(c1);
    assert RunLoop(c3, maxIterations, env, 0) == RunLoop(c3, maxIterations, env.(deleteSucceeds := true), 0) by {
      LoopIgnoresDelete(c3, maxIterations, env, 0);
    }
  }

  /** The loop never consults the delete oracle. */
  lemma {:induction false} LoopIgnoresDelete(c: Checker, maxIterations: Int32, env: Env, i: nat)
    decreases |env.cycles| - i
    ensures RunLoop(c, maxIterations, env, i) == RunLoop(c, maxIterations, env.(deleteSucceeds := !env.deleteSucceeds), i)
  {
    if i < |env.cycles| {
      var (c1, next) := RunCycle(c, maxIterations, env.cycles[i], i);
      if next.Again? {
        LoopIgnoresDelete(c1, maxIterations, env, i + 1);
      }
    }
  }

  /** A read-back whose digest differs from the transfer's, after good
      cycles and before the count is reached, makes `check` throw the
      mismatch with status `Failed`, and the output file is still deleted. */
  lemma MismatchFails(c: Checker, maxIterations: Int32, env: Env, j: nat)
    requires IsFresh(c) && TargetFile(c.drive, c.testFile).Ok?
    requires j < INT32_MAX as int && (maxIterations <= 0 || j < maxIterations as int)
    requires GoodUpTo(env, j) && j < |env.cycles|
    requires env.cycles[j].transfer.Transferred? && env.cycles[j].readBack.ReadBack?
    requires env.cycles[j].readBack.digest != env.cycles[j].transfer.digest
    requires !env.cycles[j].cancelDuringTransfer && !env.cycles[j].cancelDuringVerify
    requires !env.cancelBeforeStart && !env.cancelBeforePrepare && env.deleteSucceeds
    ensures var (c1, o) := RunCheck(c, maxIterations, env);
      o == Thrown(IOError(DigestMismatch)) && c1.status == Failed && c1.currIteration as int == j
      && c1.log == GoodLog(env, j) + [Transfer(j), Verify(j, env.cycles[j].transfer.digest), Delete]
      && c1.outputFile.None? && !c1.outputExists
  {
    var (c1, _) := StepSetStatus(c, Running);
    var (c3, _) := StepPrepare(c1);
    GoodPrefix(c3, maxIterations, env, 0, j);
    var cj := c3.(currIteration := j as Int32, outputExists := c3.outputExists || 0 < j, log := GoodLog(env, j));
    assert RunLoop(c3, maxIterations, env, 0) == RunLoop(cj, maxIterations, env, j);
    MismatchCycle(cj, maxIterations, env, j);
  }

  /** The cycle whose read-back mismatches ends the loop with the mismatch. */
  lemma MismatchCycle(c: Checker, maxIterations: Int32, env: Env, j: nat)
    requires c.status == Running && j < |env.cycles|
    requires env.cycles[j].transfer.Transferred? && env.cycles[j].readBack.ReadBack?
    requires env.cycles[j].readBack.digest != env.cycles[j].transfer.digest
    requires !env.cycles[j].cancelDuringTransfer && !env.cycles[j].cancelDuringVerify
    ensures RunLoop(c, maxIterations, env, j)
      == (c.(outputExists := true, log := c.log + [Transfer(j), Verify(j, env.cycles[j].transfer.digest)]),
          Threw(IOError(DigestMismatch)))
  {
    var d := env.cycles[j].transfer.digest;
    var (t1, _) := StepTransfer(c, env.cycles[j], j);
    assert t1 == c.(outputExists := true, log := c.log + [Transfer(j)]);
    var (t3, e3) := StepVerify(t1, env.cycles[j], j, d);
    assert t3 == t1.(log := c.log + [Transfer(j), Verify(j, d)]);
    assert e3 == Some(IOError(DigestMismatch));
  }

  // ---------------------------------------------------------------------
  // Order of the file-system actions

  /** The loop keeps every verify right after its own cycle's transfer, with
      that transfer's digest, and the transfers in cycle order. */
  lemma {:induction false} LoopSequential(c: Checker, maxIterations: Int32, env: Env, i: nat)
    requires Sequential(env, c.log) && Before(c.log, i)
    decreases |env.cycles| - i
    ensures Sequential(env, RunLoop(c, maxIterations, env, i).0.log)
  {
    if i < |env.cycles| {
      var cycle := env.cycles[i];
      var (c1, next) := RunCycle(c, maxIterations, cycle, i);
      CycleSequential(c, maxIterations, env, i);
      if next.Again? {
        LoopSequential(c1, maxIterations, env, i + 1);
      }
    }
  }

  lemma CycleSequential(c: Checker, maxIterations: Int32, env: Env, i: nat)
    requires i < |env.cycles| && Sequential(env, c.log) && Before(c.log, i)
    ensures var r := RunCycle(c, maxIterations, env.cycles[i], i);
      Sequential(env, r.0.log) && Before(r.0.log, i + 1)
  {
    var cycle := env.cycles[i];
    var (c1, thrown1) := StepTransfer(c, cycle, i);
    AppendTransfer(env, c.log, i);
    if thrown1.None? {
      var (c2, thrown2) := StepSetStatus(c1, Running);
      if thrown2.None? {
        AppendVerify(env, c1.log, i, cycle.transfer.digest);
      }
    }
  }

  lemma AppendTransfer(env: Env, log: seq<Action>, i: nat)
    requires Sequential(env, log) && Before(log, i)
    ensures Sequential(env, log + [Transfer(i)]) && Before(log + [Transfer(i)], i + 1)
  {
    var log' := log + [Transfer(i)];
    forall k, m | 0 <= k < m < |log'| && log'[k].Transfer? && log'[m].Transfer?
      ensures log'[k].cycle < log'[m].cycle
    {
      if m == |log| {
        assert log'[k] == log[k];
      }
    }
  }

  lemma AppendVerify(env: Env, log: seq<Action>, i: nat, digest: Digest)
    requires Sequential(env, log) && Before(log, i + 1)
    requires |log| > 0 && log[|log| - 1] == Transfer(i)
    requires i < |env.cycles| && env.cycles[i].transfer == Transferred(digest)
    ensures Sequential(env, log + [Verify(i, digest)]) && Before(log + [Verify(i, digest)], i + 1)
  {
  }

  /** In every run, each verify directly follows the transfer of the same
      cycle and is given the digest that transfer produced, and transfers
      happen in cycle order. */
  lemma VerifyUsesItsTransfer(c: Checker, maxIterations: Int32, env: Env)
    requires IsFresh(c)
    ensures Sequential(env, RunCheck(c, maxIterations, env).0.log)
  {
    var c0 := if env.cancelBeforeStart then StepCancel(c).0 else c;
    var (c1, thrown1) := StepSetStatus(c0, Running);
    if thrown1.None? {
      var c2 := if env.cancelBeforePrepare then StepCancel(c1).0 else c1;
      var (c3, thrown3) := StepPrepare(c2);
      if thrown3.None? {
        LoopSequential(c3, maxIterations, env, 0);
        var log := RunLoop(c3, maxIterations, env, 0).0.log;
        AppendDelete(env, log);
        var final := RunCheck(c, maxIterations, env).0.log;
        assert final == log || final == log + [Delete];
      }
    }
  }

  lemma AppendDelete(env: Env, log: seq<Action>)
    requires Sequential(env, log)
    ensures Sequential(env, log + [Delete])
  {
    var log' := log + [Delete];
    forall k, m | 0 <= k < m < |log'| && log'[k].Transfer? && log'[m].Transfer?
      ensures log'[k].cycle < log'[m].cycle
    {
      assert m < |log|;
    }
  }

  // ---------------------------------------------------------------------
  // The output path

  /** When the derived output path is the test file, `check` throws that
      path conflict (or `Cancellation`, if a cancel landed first) before any
      transfer: no file is written and none is deleted. */
  lemma TargetConflictWritesNothing(c: Checker, maxIterations: Int32, env: Env)
    requires IsFresh(c) && TargetFile(c.drive, c.testFile).Err?
    ensures var (c1, o) := RunCheck(c, maxIterations, env);
      (o == Thrown(IOError(TargetIsTestFile)) || o == Thrown(Cancellation))
      && (o == Thrown(IOError(TargetIsTestFile)) <==> !env.cancelBeforeStart && !env.cancelBeforePrepare)
      && c1.log == [] && !c1.outputExists && c1.outputFile.None?
      && (c1.status == Failed || c1.status == Canceled) && c1.doneTimeSet
  {
  }
}

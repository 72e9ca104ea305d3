/** What the batch worker guarantees, proved about the value-level steps of
    module `DrivesCheck`: every step keeps the worker `Consistent`, each task
    publishes `RUNNING` and then one terminal status, a drive without a task
    hears nothing, `process` delivers in publish order, and `done()` cancels
    everything before it records the done time. */
module DrivesCheckProperties {
  import opened DriveCheck
  import opened DriveCheckProperties
  import opened DrivesCheck

  // ---------------------------------------------------------------------
  // Outcome classification of `Worker.run`
  // ---------------------------------------------------------------------

  /** A task publishes a status exactly when `check` is over, and that status
      is terminal: `SUCCESS` for a normal return, `CANCELED` for an
      interruption or a cancellation, `FAILED` for anything else. */
  lemma ClassifyOutcome(o: Outcome)
    ensures Classify(o).Some? <==> !o.Unfinished?
    ensures Classify(o).Some? ==> Terminal(Classify(o).value)
    ensures Classify(o) == Some(Success) <==> o == Returned
    ensures Classify(o) == Some(Canceled) <==> o == Thrown(Interrupted) || o == Thrown(Cancellation)
    ensures Classify(o) == Some(Failed) <==> o.Thrown? && o.e != Interrupted && o.e != Cancellation
  {
  }

  /** How the published status of a fresh checker's run relates to the
      checker's own final status. They agree except in three cases: an
      interruption leaves the checker `FAILED` but is reported `CANCELED`;
      and a failed delete, which replaces whatever the `try` block ended
      with, is reported `FAILED` while the checker stays `SUCCESS` (after a
      successful loop) or `CANCELED` (after a cancel landed). The last
      ensures lists every disagreement. */
  lemma ReportedStatus(c: Checker, maxIterations: Int32, env: Env)
    requires IsFresh(c)
    ensures var (c1, o) := RunCheck(c, maxIterations, env);
      (Classify(o) == Some(Success) ==> c1.status == Success)
      && (Classify(o) == Some(Canceled) ==>
            (o == Thrown(Cancellation) && c1.status == Canceled)
            || (o == Thrown(Interrupted) && c1.status == Failed))
      && (Classify(o) == Some(Failed) ==>
            c1.status == Failed
            || (o == Thrown(IOError(DeleteFailed)) && (c1.status == Success || c1.status == Canceled)))
    ensures var (c1, o) := RunCheck(c, maxIterations, env);
      Classify(o).Some? && Classify(o).value != c1.status ==>
        (o == Thrown(Interrupted) && c1.status == Failed)
        || (o == Thrown(IOError(DeleteFailed)) && (c1.status == Success || c1.status == Canceled))
  {
    var (c1, end) := RunTry(c, maxIterations, env);
    TryEnds(c, maxIterations, env);
    Outcomes(c, maxIterations, env);
    if end.Threw? {
      var (c2, thrown) := StepSetStatus(c1, Failed);
      assert thrown.Some? <==> c1.status == Canceled;
    }
  }

  /** The third disagreement happens: a cancel lands during the first
      transfer, so the catch block's `FAILED` write is refused with a
      cancellation, and the failed delete in `finally` replaces it. The
      drive is reported `FAILED` while the checker stays `CANCELED`. */
  lemma CancelThenDeleteFailureReportsFailed(c: Checker)
    requires IsFresh(c) && TargetFile(c.drive, c.testFile).Ok?
    ensures var env := Env(false, false, [Cycle(Transferred([1]), true, ReadBack([1]), false)], false);
      var (c1, o) := RunCheck(c, 3, env);
      c1.status == Canceled && o == Thrown(IOError(DeleteFailed)) && Classify(o) == Some(Failed)
  {
    var env := Env(false, false, [Cycle(Transferred([1]), true, ReadBack([1]), false)], false);
    var (c1, _) := StepSetStatus(c, Running);
    var (c3, _) := StepPrepare(c1);
    var (c4, t) := StepTransfer(c3, env.cycles[0], 0);
    assert c4.status == Canceled && c4.outputExists && c4.outputFile.Some?;
    assert RunCycle(c3, 3, env.cycles[0], 0) == (c4, Ended(Threw(Cancellation)));
    assert RunTry(c, 3, env) == (c4, Threw(Cancellation));
  }

  /** A checker cancelled before its task runs (by `done()`, between the two
      loops) makes `check` throw `IllegalState`: the drive is reported
      `FAILED`, not `CANCELED`, and the checker is left as it was. */
  lemma CancelledBeforeRunReportsFailed(c: Checker, maxIterations: Int32, env: Env)
    requires c.status == Canceled
    ensures RunCheck(c, maxIterations, env) == (c, Thrown(IllegalState))
    ensures Classify(RunCheck(c, maxIterations, env).1) == Some(Failed)
  {
  }

  // ---------------------------------------------------------------------
  // The stream of notifications
  // ---------------------------------------------------------------------

  /** Publishing one more notification adds its status to its own drive's
      statuses and to no other drive's. */
  lemma StatusesForAppend(ns: seq<Notification>, n: Notification)
    ensures forall k :: (StatusesFor(ns + [n], k) ==
      StatusesFor(ns, k) + (if n.drive == k then [n.status] else []))
  {
    assert (ns + [n])[..|ns|] == ns;
  }

  /** A drive has no status in the stream exactly when no notification is
      about it. */
  lemma {:induction false} NoStatusesNoNotifications(ns: seq<Notification>, k: nat)
    ensures StatusesFor(ns, k) == [] <==> forall i :: 0 <= i < |ns| ==> ns[i].drive != k
  {
    if ns != [] {
      var init := ns[..|ns| - 1];
      NoStatusesNoNotifications(init, k);
      assert forall i :: 0 <= i < |init| ==> init[i] == ns[i];
    }
  }

  /** Running published notifications with a listener calls it once per
      notification, in publish order, with that notification's drive and
      status; without a listener nothing is called. */
  lemma {:induction false} DeliveriesInOrder(ns: seq<Notification>, hasListener: bool)
    ensures !hasListener ==> Deliveries(ns, hasListener) == []
    ensures hasListener ==> |Deliveries(ns, hasListener)| == |ns|
    ensures hasListener ==> forall i :: 0 <= i < |ns| ==>
      Deliveries(ns, hasListener)[i] == OnDriveStatusChanged(ns[i].drive, ns[i].status)
  {
    if ns != [] && hasListener {
      var init := ns[..|ns| - 1];
      DeliveriesInOrder(init, hasListener);
      assert forall i :: 0 <= i < |init| ==> init[i] == ns[i];
    }
  }

  /** In a consistent worker the stream holds, for every drive, nothing if
      its task never started, `RUNNING` while it runs, and `RUNNING` followed
      by one terminal status once it is over. */
  lemma StreamShape(w: Worker, drives: seq<Path>, testFile: Path, k: nat)
    requires Consistent(w, drives, testFile) && k < |drives|
    ensures var st := StatusesFor(w.published, k);
      (st == [] <==> k >= |w.checkerFutures| || w.checkerFutures[k].run == NotStarted)
      && (st == [] || st == [Running] || (|st| == 2 && st[0] == Running && Terminal(st[1])))
  {
  }

  /** A drive whose task was never submitted, or never started, receives no
      notification at all: none is published and none is delivered. */
  lemma NeverRunNeverNotified(w: Worker, drives: seq<Path>, testFile: Path, k: nat)
    requires Consistent(w, drives, testFile) && k < |drives|
    requires k >= |w.checkerFutures| || w.checkerFutures[k].run == NotStarted
    ensures forall i :: 0 <= i < |w.published| ==> w.published[i].drive != k
    ensures forall s, i :: 0 <= i < |ProcessStep(w).calls| ==>
      ProcessStep(w).calls[i] != OnDriveStatusChanged(k, s) || i < |w.calls|
  {
    NoStatusesNoNotifications(w.published, k);
    var pending := w.published[w.processed..];
    assert forall i :: 0 <= i < |pending| ==> pending[i] == w.published[w.processed + i];
    NoDeliveryFor(pending, w.hasListener, k);
    assert ProcessStep(w).calls == w.calls + Deliveries(pending, w.hasListener);
  }

  /** Notifications none of which names drive `k` call the listener for `k`
      not at all. */
  lemma NoDeliveryFor(ns: seq<Notification>, hasListener: bool, k: nat)
    requires forall i :: 0 <= i < |ns| ==> ns[i].drive != k
    ensures forall s, i :: 0 <= i < |Deliveries(ns, hasListener)| ==>
      Deliveries(ns, hasListener)[i] != OnDriveStatusChanged(k, s)
  {
    DeliveriesInOrder(ns, hasListener);
  }

  /** A task that starts publishes, for its own drive, `RUNNING` and then the
      terminal status its outcome maps to, and nothing for any other drive. */
  lemma TaskPublishes(w: Worker, k: nat, o: Outcome)
    requires k < |w.checkerFutures|
    ensures StatusesFor(TaskStep(w, k, o).published, k) == StatusesFor(w.published, k)
      + [Running] + (if Classify(o).Some? then [Classify(o).value] else [])
    ensures forall j :: j != k ==>
      StatusesFor(TaskStep(w, k, o).published, j) == StatusesFor(w.published, j)
  {
    var running := w.published + [Notification(k, Running)];
    StatusesForAppend(w.published, Notification(k, Running));
    if Classify(o).Some? {
      var done := running + [Notification(k, Classify(o).value)];
      assert TaskStep(w, k, o).published == done;
      StatusesForAppend(running, Notification(k, Classify(o).value));
    } else {
      assert TaskStep(w, k, o).published == running;
    }
  }

  // ---------------------------------------------------------------------
  // Every step keeps the worker consistent
  // ---------------------------------------------------------------------

  /** The submission loop, whatever prefix of the drives it submits. */
  lemma SubmitKeepsConsistent(w: Worker, drives: seq<Path>, testFile: Path, m: nat, cancelled: bool)
    requires Consistent(w, drives, testFile) && w.checkerFutures == [] && m <= |drives|
    ensures Consistent(w.(checkerFutures := Submitted(m), cancelled := cancelled), drives, testFile)
  {
  }

  /** A task run, when its future was waiting. */
  lemma TaskKeepsConsistent(w: Worker, drives: seq<Path>, testFile: Path, k: nat, o: Outcome)
    requires Consistent(w, drives, testFile) && k < |w.checkerFutures|
    requires w.checkerFutures[k].run == NotStarted
    ensures Consistent(TaskStep(w, k, o), drives, testFile)
  {
    var w' := TaskStep(w, k, o);
    TaskStreamMatches(w, |drives|, k, o);
    ClassifyOutcome(o);
    assert w'.driveCheckers == w.driveCheckers && |w'.checkerFutures| == |w.checkerFutures|;
    assert forall j :: 0 <= j < |w.checkerFutures| ==> w'.checkerFutures[j].drive == w.checkerFutures[j].drive;
  }

  /** The stream half of `TaskKeepsConsistent`. */
  lemma TaskStreamMatches(w: Worker, n: nat, k: nat, o: Outcome)
    requires StreamMatches(w.published, w.checkerFutures, n) && k < |w.checkerFutures|
    requires w.checkerFutures[k].run == NotStarted
    ensures StreamMatches(TaskStep(w, k, o).published, TaskStep(w, k, o).checkerFutures, n)
  {
    TaskStreamDrives(w, k, o);
    TaskStreamStatuses(w, n, k, o);
  }

  /** A task publishes only about its own drive. */
  lemma TaskStreamDrives(w: Worker, k: nat, o: Outcome)
    requires k < |w.checkerFutures|
    requires forall i :: 0 <= i < |w.published| ==> w.published[i].drive < |w.checkerFutures|
    ensures var w' := TaskStep(w, k, o);
      forall i :: 0 <= i < |w'.published| ==> w'.published[i].drive < |w'.checkerFutures|
  {
    var w' := TaskStep(w, k, o);
    forall i | 0 <= i < |w'.published|
      ensures w'.published[i].drive < |w'.checkerFutures|
    {
      if i >= |w.published| {
        assert w'.published[i].drive == k;
      } else {
        assert w'.published[i] == w.published[i];
      }
    }
  }

  /** A task's statuses are what its new run state stands for. */
  lemma TaskStreamStatuses(w: Worker, n: nat, k: nat, o: Outcome)
    requires k < |w.checkerFutures| && w.checkerFutures[k].run == NotStarted
    requires forall j :: 0 <= j < n ==>
      StatusesFor(w.published, j) == if j < |w.checkerFutures| then RunStatuses(w.checkerFutures[j].run) else []
    ensures var w' := TaskStep(w, k, o);
      forall j :: 0 <= j < n ==>
        StatusesFor(w'.published, j) == if j < |w'.checkerFutures| then RunStatuses(w'.checkerFutures[j].run) else []
  {
    forall j | 0 <= j < n
      ensures var w' := TaskStep(w, k, o);
        StatusesFor(w'.published, j) == if j < |w'.checkerFutures| then RunStatuses(w'.checkerFutures[j].run) else []
    {
      TaskStatusesAt(w, k, o, j);
    }
  }

  /** `TaskStreamStatuses` for one drive `j`. */
  lemma TaskStatusesAt(w: Worker, k: nat, o: Outcome, j: nat)
    requires k < |w.checkerFutures| && w.checkerFutures[k].run == NotStarted
    requires StatusesFor(w.published, j) ==
      if j < |w.checkerFutures| then RunStatuses(w.checkerFutures[j].run) else []
    ensures var w' := TaskStep(w, k, o);
      StatusesFor(w'.published, j) == if j < |w'.checkerFutures| then RunStatuses(w'.checkerFutures[j].run) else []
  {
    var w' := TaskStep(w, k, o);
    var s := Classify(o);
    var run := if s.Some? then Finished(s.value) else InFlight;
    assert w'.checkerFutures == w.checkerFutures[k := w.checkerFutures[k].(run := run)];
    TaskPublishes(w, k, o);
    if j == k {
      assert StatusesFor(w.published, k) == [];
      assert RunStatuses(w'.checkerFutures[k].run) == [Running] + (if s.Some? then [s.value] else []);
    } else {
      assert StatusesFor(w'.published, j) == StatusesFor(w.published, j);
      assert |w'.checkerFutures| == |w.checkerFutures|;
      if j < |w.checkerFutures| {
        assert w'.checkerFutures[j] == w.checkerFutures[j];
      }
    }
  }

  /** `process`. */
  lemma ProcessKeepsConsistent(w: Worker, drives: seq<Path>, testFile: Path)
    requires Consistent(w, drives, testFile)
    ensures Consistent(ProcessStep(w), drives, testFile)
  {
  }

  /** `done()`. */
  lemma DoneKeepsConsistent(w: Worker, drives: seq<Path>, testFile: Path)
    requires Consistent(w, drives, testFile)
    ensures Consistent(DoneStep(w), drives, testFile)
  {
  }

  /** `setListener` and `onWorkerStarted`. */
  lemma ListenerKeepsConsistent(w: Worker, drives: seq<Path>, testFile: Path, calls: seq<ListenerCall>)
    requires Consistent(w, drives, testFile)
    ensures Consistent(w.(hasListener := true), drives, testFile)
    ensures Consistent(w.(startTimeSet := true, calls := calls), drives, testFile)
  {
  }

  // ---------------------------------------------------------------------
  // The shutdown sequence
  // ---------------------------------------------------------------------

  lemma {:induction false} CheckerCancelsAt(n: nat)
    ensures |CheckerCancels(n)| == n
    ensures forall i :: 0 <= i < n ==> CheckerCancels(n)[i] == CancelChecker(i)
  {
    if n > 0 {
      CheckerCancelsAt(n - 1);
    }
  }

  lemma {:induction false} FutureCancelsAt(n: nat)
    ensures |FutureCancels(n)| == n
    ensures forall i :: 0 <= i < n ==> FutureCancels(n)[i] == CancelFuture(i)
  {
    if n > 0 {
      FutureCancelsAt(n - 1);
    }
  }

  /** `done()` cancels every checker in list order, then every future in list
      order, and only after all of them awaits the pool, records the done
      time and calls `onStop`, in that order. */
  lemma ShutdownOrder(checkers: nat, futures: nat)
    ensures var t := ShutdownTrace(checkers, futures);
      |t| == checkers + futures + 3
      && (forall i :: 0 <= i < checkers ==> t[i] == CancelChecker(i))
      && (forall j :: 0 <= j < futures ==> t[checkers + j] == CancelFuture(j))
      && t[checkers + futures..] == [AwaitExecutor, RecordDoneTime, NotifyStop]
  {
    CheckerCancelsAt(checkers);
    FutureCancelsAt(futures);
  }

  /** After `cancel()` no checker is `PENDING` or `RUNNING`, and one that was
      already over is left exactly as it was. */
  lemma CancelStopsChecker(c: Checker)
    ensures StepCancel(c).0.status != Pending && StepCancel(c).0.status != Running
    ensures c.status != Pending && c.status != Running ==> StepCancel(c).0 == c
  {
  }

  /** After `done()` every submitted future is cancelled, tasks keep how far
      they ran, and no future is added or lost. */
  lemma DoneCancelsFutures(w: Worker)
    ensures |DoneStep(w).checkerFutures| == |w.checkerFutures|
    ensures forall k :: 0 <= k < |w.checkerFutures| ==>
      DoneStep(w).checkerFutures[k].cancelRequested
      && DoneStep(w).checkerFutures[k].run == w.checkerFutures[k].run
      && DoneStep(w).checkerFutures[k].drive == w.checkerFutures[k].drive
  {
  }
}

/**
 * The batch worker that checks several drives at once, `DrivesCheckWorker`:
 * one `DriveChecker` per drive, a submission loop that hands one task per
 * drive to a thread pool, the per-drive task that runs the check and
 * publishes status notifications, the delivery of those notifications to a
 * listener, and the shutdown sequence.
 *
 * The pool is not modelled as threads: a future is a value record saying
 * whether its task was cancelled and how far it ran, and `ExecuteTask` is
 * the pool running one waiting task to the end of its `check`.
 */
module DrivesCheck {
  import opened DriveCheck

  /** How far the pool ran a submitted task. */
  datatype Run = NotStarted | InFlight | Finished(status: Status)

  /** A future returned by the pool for the task of drive `drive`. */
  datatype Submission = Submission(drive: nat, cancelRequested: bool, run: Run)

  /** A published status change of drive number `drive`. */
  datatype Notification = Notification(drive: nat, status: Status)

  /** A call made on the listener. */
  datatype ListenerCall = OnStart | OnStop | OnDriveStatusChanged(drive: nat, status: Status)

  /** One step of the shutdown sequence. */
  datatype ShutdownStep =
    | CancelChecker(index: nat)
    | CancelFuture(index: nat)
    | AwaitExecutor
    | RecordDoneTime
    | NotifyStop

  /** The status a task publishes once `check` is over: its `catch` clauses.
      `None` while `check` is still running. */
  function Classify(o: Outcome): Option<Status> {
    match o
    case Returned => Some(Success)
    case Thrown(e) =>
      if e == Interrupted || e == Cancellation then Some(Canceled) else Some(Failed)
    case Unfinished => None
  }

  predicate Terminal(s: Status) {
    s == Success || s == Canceled || s == Failed
  }

  /** The statuses published so far for drive `k`, in publish order. */
  function StatusesFor(ns: seq<Notification>, k: nat): seq<Status> {
    if ns == [] then []
    else
      var last := ns[|ns| - 1];
      StatusesFor(ns[..|ns| - 1], k) + (if last.drive == k then [last.status] else [])
  }

  /** What the stream holds for a task that ran this far. */
  function RunStatuses(r: Run): seq<Status> {
    match r
    case NotStarted => []
    case InFlight => [Running]
    case Finished(s) => [Running, s]
  }

  /** The listener calls that running the published notifications `ns` makes. */
  function Deliveries(ns: seq<Notification>, hasListener: bool): seq<ListenerCall> {
    if ns == [] || !hasListener then []
    else
      var last := ns[|ns| - 1];
      Deliveries(ns[..|ns| - 1], hasListener) + [OnDriveStatusChanged(last.drive, last.status)]
  }

  /** The checker cancels of the shutdown sequence, in list order. */
  function CheckerCancels(n: nat): seq<ShutdownStep> {
    if n == 0 then [] else CheckerCancels(n - 1) + [CancelChecker(n - 1)]
  }

  /** The future cancels of the shutdown sequence, in list order. */
  function FutureCancels(n: nat): seq<ShutdownStep> {
    if n == 0 then [] else FutureCancels(n - 1) + [CancelFuture(n - 1)]
  }

  /** The whole shutdown sequence for `checkers` checkers and `futures` futures. */
  function ShutdownTrace(checkers: nat, futures: nat): seq<ShutdownStep> {
    CheckerCancels(checkers) + FutureCancels(futures) + [AwaitExecutor, RecordDoneTime, NotifyStop]
  }

  /** The futures of the first `n` drives, just submitted. */
  function Submitted(n: nat): (r: seq<Submission>)
    ensures |r| == n
    ensures forall k :: 0 <= k < n ==> r[k] == Submission(k, false, NotStarted)
  {
    if n == 0 then [] else Submitted(n - 1) + [Submission(n - 1, false, NotStarted)]
  }

  /** Every future after `cancel(true)`. */
  function CancelAll(fs: seq<Submission>): (r: seq<Submission>)
    ensures |r| == |fs|
    ensures forall k :: 0 <= k < |fs| ==> r[k] == fs[k].(cancelRequested := true)
  {
    if fs == [] then [] else CancelAll(fs[..|fs| - 1]) + [fs[|fs| - 1].(cancelRequested := true)]
  }

  function Min(a: nat, b: nat): nat {
    if a < b then a else b
  }

  /** The stream `ns` holds, for each of `n` drives, exactly what the task
      behind its future in `fs` has published, and nothing for a drive
      without a future. */
  predicate StreamMatches(ns: seq<Notification>, fs: seq<Submission>, n: nat) {
    (forall i :: 0 <= i < |ns| ==> ns[i].drive < |fs|)
    && (forall k :: 0 <= k < n ==>
          StatusesFor(ns, k) == if k < |fs| then RunStatuses(fs[k].run) else [])
  }

  /** The worker's mutable fields as a value. */
  datatype Worker = Worker(
    driveCheckers: seq<DriveChecker>,
    checkerFutures: seq<Submission>,
    cancelled: bool,
    published: seq<Notification>,
    processed: nat,
    hasListener: bool,
    calls: seq<ListenerCall>,
    shutdown: seq<ShutdownStep>,
    startTimeSet: bool,
    doneTimeSet: bool)

  /** Checker `k` is a distinct object for drive `k`, future `k` is drive
      `k`'s task and a finished task ended on a terminal status, the stream
      is in step with the futures, and `process` has not run past the end of
      the stream. */
  predicate Consistent(w: Worker, drives: seq<Path>, testFile: Path) {
    |w.driveCheckers| == |drives|
    && (forall k :: 0 <= k < |drives| ==>
          w.driveCheckers[k].drive == drives[k] && w.driveCheckers[k].testFile == testFile)
    && (forall i, j :: 0 <= i < j < |w.driveCheckers| ==> w.driveCheckers[i] != w.driveCheckers[j])
    && |w.checkerFutures| <= |drives|
    && (forall k :: 0 <= k < |w.checkerFutures| ==> w.checkerFutures[k].drive == k)
    && (forall k :: 0 <= k < |w.checkerFutures| && w.checkerFutures[k].run.Finished? ==>
          Terminal(w.checkerFutures[k].run.status))
    && StreamMatches(w.published, w.checkerFutures, |drives|)
    && w.processed <= |w.published|
  }

  /** What task `k` does to the worker once its `check` ended with `o`:
      `RUNNING` is published, then the status `o` maps to, if any. */
  function TaskStep(w: Worker, k: nat, o: Outcome): Worker
    requires k < |w.checkerFutures|
  {
    var s := Classify(o);
    w.(published := w.published + [Notification(k, Running)]
         + (if s.Some? then [Notification(k, s.value)] else []),
       checkerFutures := w.checkerFutures[k :=
         w.checkerFutures[k].(run := if s.Some? then Finished(s.value) else InFlight)])
  }

  /** What `process` does to the worker: every pending notification is run. */
  function ProcessStep(w: Worker): Worker
    requires w.processed <= |w.published|
  {
    w.(processed := |w.published|,
       calls := w.calls + Deliveries(w.published[w.processed..], w.hasListener))
  }

  /** What `done()` does to the worker's own fields. */
  function DoneStep(w: Worker): Worker {
    w.(checkerFutures := CancelAll(w.checkerFutures),
       shutdown := w.shutdown + ShutdownTrace(|w.driveCheckers|, |w.checkerFutures|),
       doneTimeSet := true,
       calls := w.calls + if w.hasListener then [OnStop] else [])
  }

  class DrivesCheckWorker {
    const drives: seq<Path>
    const testFile: Path
    const iterationCount: Int32
    var driveCheckers: seq<DriveChecker>
    var checkerFutures: seq<Submission>
    /** `isCancelled()` of the batch. */
    var cancelled: bool
    /** The published notifications, and how many of them `process` has run. */
    var published: seq<Notification>
    var processed: nat
    /** Whether `setListener` was called, and the calls the listener received. */
    var hasListener: bool
    var calls: seq<ListenerCall>
    var shutdown: seq<ShutdownStep>
    var startTimeSet: bool
    var doneTimeSet: bool

    function Snapshot(): Worker
      reads this
    {
      Worker(driveCheckers, checkerFutures, cancelled, published, processed,
             hasListener, calls, shutdown, startTimeSet, doneTimeSet)
    }

    predicate Valid()
      reads this
    {
      Consistent(Snapshot(), drives, testFile)
    }

    constructor (drives: seq<Path>, testFile: Path, iterationCount: Int32)
      ensures Valid()
      ensures this.drives == drives && this.testFile == testFile && this.iterationCount == iterationCount
      ensures forall k :: 0 <= k < |drives| ==>
        fresh(driveCheckers[k]) && driveCheckers[k].Snapshot() == Initial(drives[k], testFile)
      ensures Snapshot() == Worker(driveCheckers, [], false, [], 0, false, [], [], false, false)
    {
      this.drives := drives;
      this.testFile := testFile;
      this.iterationCount := iterationCount;
      driveCheckers := [];
      checkerFutures := [];
      cancelled := false;
      published := [];
      processed := 0;
      hasListener := false;
      calls := [];
      shutdown := [];
      startTimeSet := false;
      doneTimeSet := false;
      new;
      Init();
    }

    /** `init`: a fresh checker for every drive, in drive order. */
    method Init()
      modifies this
      ensures |driveCheckers| == |drives|
      ensures forall k :: 0 <= k < |drives| ==>
        fresh(driveCheckers[k]) && driveCheckers[k].Snapshot() == Initial(drives[k], testFile)
      ensures forall i, j :: 0 <= i < j < |driveCheckers| ==> driveCheckers[i] != driveCheckers[j]
      ensures Snapshot() == old(Snapshot()).(driveCheckers := driveCheckers)
    {
      driveCheckers := [];
      for i := 0 to |drives|
        invariant |driveCheckers| == i
        invariant forall k :: 0 <= k < i ==>
          fresh(driveCheckers[k]) && driveCheckers[k].Snapshot() == Initial(drives[k], testFile)
        invariant forall a, b :: 0 <= a < b < i ==> driveCheckers[a] != driveCheckers[b]
        invariant Snapshot() == old(Snapshot()).(driveCheckers := driveCheckers)
      {
        var checker := new DriveChecker(drives[i], testFile);
        driveCheckers := driveCheckers + [checker];
      }
    }

    /** `setListener`. */
    method SetListener()
      modifies this
      ensures Snapshot() == old(Snapshot()).(hasListener := true)
    {
      hasListener := true;
    }

    /** `onWorkerStarted`: the start time, then `onStart` if a listener is set. */
    method OnWorkerStarted()
      modifies this
      ensures Snapshot() == old(Snapshot()).(startTimeSet := true,
        calls := old(calls) + if hasListener then [OnStart] else [])
    {
      startTimeSet := true;
      if hasListener {
        calls := calls + [OnStart];
      }
    }

    /** `doInBackground`'s submission loop. The batch is cancelled (from the
        event thread) just before the iteration `cancelAt`, if the list is
        that long; every iteration checks `isCancelled()` first. */
    method DoInBackground(cancelAt: nat)
      requires checkerFutures == []
      modifies this
      ensures Snapshot() == old(Snapshot()).(
        cancelled := old(cancelled) || cancelAt < |drives|,
        checkerFutures := Submitted(if old(cancelled) then 0 else Min(cancelAt, |drives|)))
    {
      var i := 0;
      while i < |drives|
        invariant 0 <= i <= |drives|
        invariant old(cancelled) ==> i == 0
        invariant !old(cancelled) ==> i <= cancelAt
        invariant Snapshot() == old(Snapshot()).(checkerFutures := Submitted(i))
      {
        if i == cancelAt {
          cancelled := true;
        }
        if cancelled {
          break;
        }
        checkerFutures := checkerFutures + [Submission(i, false, NotStarted)];
        i := i + 1;
      }
    }

    /** The pool runs task `k` (`Worker.run`), unless it already ran or its
        future was cancelled first: `RUNNING`, then `check`, then the status
        its outcome maps to; `env` is what `check` meets on the way. */
    method ExecuteTask(k: nat, env: Env)
      requires k < |checkerFutures| && k < |driveCheckers|
      modifies this, driveCheckers[k]
      ensures driveCheckers == old(driveCheckers)
      ensures old(checkerFutures[k].run) != NotStarted || old(checkerFutures[k].cancelRequested) ==>
        Snapshot() == old(Snapshot()) && driveCheckers[k].Snapshot() == old(driveCheckers[k].Snapshot())
      ensures old(checkerFutures[k].run) == NotStarted && !old(checkerFutures[k].cancelRequested) ==>
        var (c, o) := RunCheck(old(driveCheckers[k].Snapshot()), iterationCount, env);
        driveCheckers[k].Snapshot() == c && Snapshot() == TaskStep(old(Snapshot()), k, o)
    {
      var future := checkerFutures[k];
      if future.run != NotStarted || future.cancelRequested {
        return;
      }
      var checker := driveCheckers[k];
      Publish(k, Running, InFlight);
      var outcome := checker.Check(iterationCount, env);
      var status := Classify(outcome);
      if status.Some? {
        Publish(k, status.value, Finished(status.value));
      }
    }

    /** `publish` of drive `k`'s status `s`, its task having run as far as `run`. */
    method Publish(k: nat, s: Status, run: Run)
      requires k < |checkerFutures|
      modifies this
      ensures Snapshot() == old(Snapshot()).(published := old(published) + [Notification(k, s)],
        checkerFutures := old(checkerFutures)[k := old(checkerFutures[k]).(run := run)])
    {
      published := published + [Notification(k, s)];
      checkerFutures := checkerFutures[k := checkerFutures[k].(run := run)];
    }

    /** `process`: run the notifications published since the last call, one
        at a time and in publish order. */
    method Process()
      requires processed <= |published|
      modifies this
      ensures Snapshot() == ProcessStep(old(Snapshot()))
    {
      ghost var start := processed;
      while processed < |published|
        invariant start <= processed <= |published|
        invariant Snapshot() == old(Snapshot()).(processed := processed,
          calls := old(calls) + Deliveries(published[start..processed], hasListener))
        decreases |published| - processed
      {
        var n := published[processed];
        if hasListener {
          calls := calls + [OnDriveStatusChanged(n.drive, n.status)];
        }
        assert published[start..processed + 1][..processed - start] == published[start..processed];
        processed := processed + 1;
      }
      assert published[start..processed] == published[start..];
    }

    /** `done()`: cancel every checker, then every submitted future, await
        the pool, record the done time and call `onStop`. */
    method Done()
      requires forall i, j :: 0 <= i < j < |driveCheckers| ==> driveCheckers[i] != driveCheckers[j]
      modifies this, driveCheckers
      ensures driveCheckers == old(driveCheckers)
      ensures forall k :: 0 <= k < |driveCheckers| ==>
        driveCheckers[k].Snapshot() == StepCancel(old(driveCheckers[k].Snapshot())).0
      ensures Snapshot() == DoneStep(old(Snapshot()))
    {
      CancelCheckers();
      CancelFutures();
      TraceSplits(old(shutdown), |driveCheckers|, |old(checkerFutures)|);
      shutdown := shutdown + [AwaitExecutor, RecordDoneTime];
      doneTimeSet := true;
      shutdown := shutdown + [NotifyStop];
      if hasListener {
        calls := calls + [OnStop];
      }
    }

    /** The first loop of `done()`: `cancel()` on every checker, in list order. */
    method CancelCheckers()
      requires forall i, j :: 0 <= i < j < |driveCheckers| ==> driveCheckers[i] != driveCheckers[j]
      modifies this, driveCheckers
      ensures driveCheckers == old(driveCheckers)
      ensures forall k :: 0 <= k < |driveCheckers| ==>
        driveCheckers[k].Snapshot() == StepCancel(old(driveCheckers[k].Snapshot())).0
      ensures Snapshot() == old(Snapshot()).(shutdown := old(shutdown) + CheckerCancels(|driveCheckers|))
    {
      var checkers := driveCheckers;
      for i := 0 to |checkers|
        invariant forall k :: 0 <= k < i ==>
          checkers[k].Snapshot() == StepCancel(old(checkers[k].Snapshot())).0
        invariant forall k :: i <= k < |checkers| ==>
          checkers[k].Snapshot() == old(checkers[k].Snapshot())
        invariant Snapshot() == old(Snapshot()).(shutdown := old(shutdown) + CheckerCancels(i))
      {
        var accepted := checkers[i].Cancel();
        shutdown := shutdown + [CancelChecker(i)];
      }
    }

    /** The second loop of `done()`: `cancel(true)` on every submitted future. */
    method CancelFutures()
      modifies this
      ensures Snapshot() == old(Snapshot()).(checkerFutures := CancelAll(old(checkerFutures)),
        shutdown := old(shutdown) + FutureCancels(|old(checkerFutures)|))
    {
      var futures := checkerFutures;
      for i := 0 to |futures|
        invariant |checkerFutures| == |futures|
        invariant forall k :: 0 <= k < i ==> checkerFutures[k] == futures[k].(cancelRequested := true)
        invariant forall k :: i <= k < |futures| ==> checkerFutures[k] == futures[k]
        invariant Snapshot() == old(Snapshot()).(checkerFutures := checkerFutures,
          shutdown := old(shutdown) + FutureCancels(i))
      {
        checkerFutures := checkerFutures[i := checkerFutures[i].(cancelRequested := true)];
        shutdown := shutdown + [CancelFuture(i)];
      }
      assert checkerFutures == CancelAll(futures);
    }
  }

  /** The shutdown trace appended in three parts, as `done()` writes it. */
  lemma TraceSplits(before: seq<ShutdownStep>, checkers: nat, futures: nat)
    ensures before + CheckerCancels(checkers) + FutureCancels(futures) + [AwaitExecutor, RecordDoneTime] + [NotifyStop]
      == before + ShutdownTrace(checkers, futures)
  {
  }
}

/**
 Nothing accepted is lost: every successful Enqueue is processed or still on the table,
 crashes and failing database calls included; and without those, every save ends up
 processed once the daemon has come to rest.
 */
module DaemonDelivery {
  import opened Wrappers
  import opened QueueTable
  import opened DaemonSteps

  /** A `processed` event for p stands in the log at index `from` or later. */
  ghost predicate ProcessedSince(log: seq<Event>, from: nat, p: string) {
    exists j :: from <= j < |log| && log[j] == Event(Processed, p)
  }

  /** The row the worker is about to delete: its processed event is already logged. */
  predicate Doomed(s: State, id: nat) {
    s.worker.Appended? && s.worker.entry.id == id
  }

  ghost predicate HasLiveRow(s: State, p: string) {
    exists id :: id in s.queue.rows && s.queue.rows[id].path == p && !Doomed(s, id)
  }

  /** What a successful Enqueue(p), made when the log had `from` entries, is owed. */
  ghost predicate Accepted(s: State, p: string, from: nat) {
    from <= |s.log| && (ProcessedSince(s.log, from, p) || HasLiveRow(s, p))
  }

  lemma LogGrows(s: State, step: Step)
    ensures s.log <= Apply(s, step).log
  {
    match step
    case CallbackEnqueue(_, _, _, _) =>
    case HttpEnqueue(_, _, _, _) =>
    case WorkerDequeue(_) =>
    case WorkerRemove(_) =>
    case _ =>
  }

  lemma ProcessedStays(log: seq<Event>, log': seq<Event>, from: nat, p: string)
    requires log <= log' && ProcessedSince(log, from, p)
    ensures ProcessedSince(log', from, p)
  {
    var j :| from <= j < |log| && log[j] == Event(Processed, p);
    assert log'[j] == Event(Processed, p);
  }

  lemma EnqueueIsAccepted(s: State, step: Step, p: string)
    requires Inv(s) && EnqueuedPath(s, step) == Some(p)
    ensures HasLiveRow(Apply(s, step), p)
  {
    StepShape(s, step);
    hide Apply, Valid, SqlEnqueue;
    EnqueueKeepsRows(s.queue, p, step.mtime, step.gap);
    var id :| HasRow(Apply(s, step).queue, id, p, Pending);
    if s.worker.Appended? {
      assert HasRow(Apply(s, step).queue, s.worker.entry.id, s.worker.entry.path, Processing);
    }
  }

  /** A live row survives any step, except that appending its processed event settles it. */
  lemma LiveRowStays(s: State, step: Step, p: string, from: nat)
    requires Inv(s) && HasLiveRow(s, p) && from <= |s.log|
    ensures HasLiveRow(Apply(s, step), p) || ProcessedSince(Apply(s, step).log, from, p)
  {
    var s' := Apply(s, step);
    var id :| id in s.queue.rows && s.queue.rows[id].path == p && !Doomed(s, id);
    RowSurvives(s, step, id);
    if Doomed(s', id) {
      AppendSettles(s, step);
    }
  }

  lemma RowSurvives(s: State, step: Step, id: nat)
    requires Inv(s) && id in s.queue.rows && !Doomed(s, id)
    ensures id in Apply(s, step).queue.rows && Apply(s, step).queue.rows[id].path == s.queue.rows[id].path
    ensures Doomed(Apply(s, step), id) ==> step == WorkerAppend(true) && s.worker.Holding? && s.worker.entry.id == id
  {
    StepShape(s, step);
    hide Apply, Valid, SqlEnqueue;
    if EnqueuedPath(s, step).Some? {
      EnqueueKeepsRows(s.queue, EnqueuedPath(s, step).value, step.mtime, step.gap);
    }
  }

  lemma AppendSettles(s: State, step: Step)
    requires step == WorkerAppend(true) && s.worker.Holding?
    ensures Apply(s, step).log == s.log + [Event(Processed, s.worker.entry.path)]
    ensures forall from | 0 <= from <= |s.log| :: ProcessedSince(Apply(s, step).log, from, s.worker.entry.path)
  {
    var log' := Apply(s, step).log;
    assert log'[|s.log|] == Event(Processed, s.worker.entry.path);
  }

  lemma StepKeepsAccepted(s: State, step: Step, p: string, from: nat)
    requires Inv(s) && Accepted(s, p, from)
    ensures Accepted(Apply(s, step), p, from)
  {
    LogGrows(s, step);
    if ProcessedSince(s.log, from, p) {
      ProcessedStays(s.log, Apply(s, step).log, from, p);
    } else {
      LiveRowStays(s, step, p, from);
    }
  }

  lemma {:induction false} EnqueuedStaysAccepted(interval: int, steps: seq<Step>, k: nat, n: nat, p: string)
    requires k < n <= |steps| && EnqueuedPath(At(Init(interval), steps, k), steps[k]) == Some(p)
    ensures Accepted(At(Init(interval), steps, n), p, |At(Init(interval), steps, k).log|)
  {
    if n == k + 1 {
      RunKeepsInv(Init(interval), steps, k);
      AcceptedAtOnce(At(Init(interval), steps, k), steps[k], p);
    } else {
      EnqueuedStaysAccepted(interval, steps, k, n - 1, p);
      AcceptedNext(interval, steps, n, p, |At(Init(interval), steps, k).log|);
    }
  }

  lemma AcceptedNext(interval: int, steps: seq<Step>, n: nat, p: string, from: nat)
    requires 0 < n <= |steps| && Accepted(At(Init(interval), steps, n - 1), p, from)
    ensures Accepted(At(Init(interval), steps, n), p, from)
  {
    RunKeepsInv(Init(interval), steps, n - 1);
    hide Inv, Accepted, Apply;
    StepKeepsAccepted(At(Init(interval), steps, n - 1), steps[n - 1], p, from);
  }

  lemma AcceptedAtOnce(s: State, step: Step, p: string)
    requires Inv(s) && EnqueuedPath(s, step) == Some(p)
    ensures Accepted(Apply(s, step), p, |s.log|)
  {
    LogGrows(s, step);
    EnqueueIsAccepted(s, step, p);
  }

  /**
   At least once, or still on the table. In every run, with crashes at any point and any
   database call failing: a successful Enqueue(p) at step k is, at every later
   point n, followed by a processed event for p, or p has a row.
   */
  lemma AtLeastOnceOrOnTable(interval: int, steps: seq<Step>, k: nat, n: nat, p: string)
    requires k < n <= |steps| && EnqueuedPath(At(Init(interval), steps, k), steps[k]) == Some(p)
    ensures var s := At(Init(interval), steps, n);
            || ProcessedSince(s.log, |At(Init(interval), steps, k).log|, p)
            || exists id :: id in s.queue.rows && s.queue.rows[id].path == p
  {
    EnqueuedStaysAccepted(interval, steps, k, n, p);
  }

  /* ---------- saves ---------- */

  /** A save of p on its way to the queue: at the watcher, in an armed timer, or in a callback that has fired. */
  ghost predicate InFlight(s: State, p: string) {
    || s.watcher == SaveLogged(p)
    || (exists t :: t in s.armed && s.armed[t].path == p)
    || (exists cb :: cb in s.callbacks && s.callbacks[cb] == Callback(p, Fired))
  }

  ghost predicate Noticed(s: State, p: string, from: nat) {
    from <= |s.log| && (ProcessedSince(s.log, from, p) || HasLiveRow(s, p) || InFlight(s, p))
  }

  /** No crash, and no Enqueue of a callback fails. */
  predicate KeepsSaves(step: Step) {
    !step.Crash? && (step.CallbackEnqueue? ==> step.dbOk)
  }

  /**
   No crash, no failing Enqueue of a callback and no failing call of the worker. The failures the code ignores, of
   `saved` and `enqueued` events, and those it reports to an HTTP client do no harm.
   */
  predicate NoFault(step: Step) {
    match step
    case Crash => false
    case CallbackEnqueue(_, _, _, dbOk) => dbOk
    case WorkerDequeue(dbOk) => dbOk
    case WorkerAppend(dbOk) => dbOk
    case WorkerRemove(dbOk) => dbOk
    case _ => true
  }

  ghost predicate FreshIds(s: State) {
    && (forall id | id in s.armed :: id < s.nextId)
    && (forall id | id in s.callbacks :: id < s.nextId)
    && (forall p | p in s.timers :: s.timers[p] < s.nextId)
    && (forall p | p in s.timers && s.timers[p] in s.armed :: s.armed[s.timers[p]].path == p)
    && (forall p, q | p in s.timers && q in s.timers && p != q :: s.timers[p] != s.timers[q])
  }

  lemma StepKeepsFreshIds(s: State, step: Step)
    requires FreshIds(s)
    ensures FreshIds(Apply(s, step))
  {
    match step
    case WatcherArm => if s.watcher.SaveLogged? { ArmKeepsFreshIds(s, s.watcher.path); }
    case Fire(_) => FireKeepsFreshIds(s, step);
    case CallbackDelete(_) => DeleteKeepsFreshIds(s, step);
    case Crash =>
    case _ => OtherStepsKeepFreshIds(s, step);
  }

  lemma DeleteKeepsFreshIds(s: State, step: Step)
    requires FreshIds(s) && step.CallbackDelete?
    ensures FreshIds(Apply(s, step))
  {}

  lemma OtherStepsKeepFreshIds(s: State, step: Step)
    requires FreshIds(s) && !step.WatcherArm? && !step.Fire? && !step.CallbackDelete? && !step.Crash?
    ensures FreshIds(Apply(s, step))
  {
    hide FreshIds, SqlEnqueue, SqlDequeue, SqlRemove;
    FewerIdsStayFresh(s, Apply(s, step));
  }

  lemma FireKeepsFreshIds(s: State, step: Step)
    requires FreshIds(s) && step.Fire?
    ensures FreshIds(Apply(s, step))
  {}

  lemma FewerIdsStayFresh(s: State, s': State)
    requires FreshIds(s) && s.nextId <= s'.nextId
    requires s'.armed == s.armed && s'.timers == s.timers && s'.callbacks.Keys <= s.callbacks.Keys
    ensures FreshIds(s')
  {}

  lemma ArmKeepsFreshIds(s: State, path: string)
    requires FreshIds(s)
    ensures FreshIds(ArmTimer(s, path))
  {}

  lemma {:induction false} RunKeepsFreshIds(s: State, steps: seq<Step>, n: nat)
    requires FreshIds(s) && n <= |steps|
    ensures FreshIds(At(s, steps, n))
  {
    if n > 0 {
      RunKeepsFreshIds(s, steps, n - 1);
      StepKeepsFreshIds(At(s, steps, n - 1), steps[n - 1]);
    }
  }

  lemma FlightContinues(s: State, step: Step, p: string)
    requires Inv(s) && FreshIds(s) && InFlight(s, p) && KeepsSaves(step)
    ensures InFlight(Apply(s, step), p) || HasLiveRow(Apply(s, step), p)
  {
    if EnqueuedPath(s, step) == Some(p) {
      EnqueueIsAccepted(s, step, p);
    } else if s.watcher == SaveLogged(p) {
      LoggedSaveContinues(s, step, p);
    } else if t :| t in s.armed && s.armed[t].path == p {
      ArmedTimerContinues(s, step, t);
    } else {
      var cb :| cb in s.callbacks && s.callbacks[cb] == Callback(p, Fired);
      FiredCallbackContinues(s, step, cb);
    }
  }

  lemma LoggedSaveContinues(s: State, step: Step, p: string)
    requires s.watcher == SaveLogged(p) && !step.Crash?
    ensures InFlight(Apply(s, step), p)
  {
    if step.WatcherArm? {
      assert Apply(s, step).armed[if p in s.timers then s.timers[p] else s.nextId].path == p;
    }
  }

  lemma ArmedTimerContinues(s: State, step: Step, t: nat)
    requires FreshIds(s) && t in s.armed && !step.Crash?
    ensures InFlight(Apply(s, step), s.armed[t].path)
  {
    var s' := Apply(s, step);
    if Fires(s, step) && step.timer == t {
      assert s'.callbacks[s.nextId] == Callback(s.armed[t].path, Fired);
    } else {
      assert t in s'.armed && s'.armed[t].path == s.armed[t].path;
    }
  }

  lemma FiredCallbackContinues(s: State, step: Step, cb: nat)
    requires FreshIds(s) && cb in s.callbacks && s.callbacks[cb].stage == Fired && KeepsSaves(step)
    requires EnqueuedPath(s, step) != Some(s.callbacks[cb].path)
    ensures InFlight(Apply(s, step), s.callbacks[cb].path)
  {
    var s' := Apply(s, step);
    assert cb in s'.callbacks && s'.callbacks[cb] == s.callbacks[cb];
  }

  lemma StepKeepsNoticed(s: State, step: Step, p: string, from: nat)
    requires Inv(s) && FreshIds(s) && Noticed(s, p, from) && KeepsSaves(step)
    ensures Noticed(Apply(s, step), p, from)
  {
    LogGrows(s, step);
    if ProcessedSince(s.log, from, p) {
      ProcessedStays(s.log, Apply(s, step).log, from, p);
    } else if HasLiveRow(s, p) {
      LiveRowStays(s, step, p, from);
    } else {
      FlightContinues(s, step, p);
    }
  }

  /** Debounce loses no save: after step k takes up a save of p, it stays noticed. */
  lemma {:induction false} SavesStayNoticed(interval: int, steps: seq<Step>, k: nat, n: nat, p: string)
    requires k < n <= |steps| && SavedPath(At(Init(interval), steps, k), steps[k]) == Some(p)
    requires forall i | k < i < n :: KeepsSaves(steps[i])
    ensures Noticed(At(Init(interval), steps, n), p, |At(Init(interval), steps, k + 1).log|)
  {
    var s0 := Init(interval);
    if n > k + 1 {
      SavesStayNoticed(interval, steps, k, n - 1, p);
      RunKeepsInv(s0, steps, n - 1);
      RunKeepsFreshIds(s0, steps, n - 1);
      StepKeepsNoticed(At(s0, steps, n - 1), steps[n - 1], p, |At(s0, steps, k + 1).log|);
    }
  }

  /** Without faults the worker's own row is the only one in processing. */
  ghost predicate OnlyWorkerProcesses(s: State) {
    forall id | id in s.queue.rows && s.queue.rows[id].status == Processing ::
      (s.worker.Holding? || s.worker.Appended?) && s.worker.entry.id == id
  }

  lemma StepKeepsOnlyWorkerProcesses(s: State, step: Step)
    requires Inv(s) && OnlyWorkerProcesses(s) && NoFault(step)
    ensures OnlyWorkerProcesses(Apply(s, step))
  {
    StepShape(s, step);
    if EnqueuedPath(s, step).Some? {
      EnqueueAddsPending(s.queue, EnqueuedPath(s, step).value, step.mtime, step.gap);
    }
    hide Apply, Valid, SqlEnqueue, FirstPending;
  }

  lemma EnqueueAddsPending(t: Table, path: string, mtime: int, gap: nat)
    ensures
      var t' := SqlEnqueue(t, path, mtime, gap);
      forall id | id in t'.rows && t'.rows[id].status == Processing :: id in t.rows && t.rows[id].status == Processing
  {}

  lemma {:induction false} RunKeepsOnlyWorkerProcesses(interval: int, steps: seq<Step>, n: nat)
    requires n <= |steps| && forall i | 0 <= i < n :: NoFault(steps[i])
    ensures OnlyWorkerProcesses(At(Init(interval), steps, n))
  {
    if n > 0 {
      RunKeepsOnlyWorkerProcesses(interval, steps, n - 1);
      RunKeepsInv(Init(interval), steps, n - 1);
      StepKeepsOnlyWorkerProcesses(At(Init(interval), steps, n - 1), steps[n - 1]);
    }
  }

  /** No timer armed, no callback running, nothing pending, watcher and worker idle. */
  ghost predicate AtRest(s: State) {
    && s.armed == map[]
    && s.callbacks == map[]
    && (forall id: nat :: !IsPending(s.queue.rows, id))
    && !s.watcher.SaveLogged?
    && !s.worker.Holding? && !s.worker.Appended?
  }

  /**
   End to end: in every run without faults that has come to rest, each save of a .md
   path is followed in the log by a processed event for that path.
   */
  lemma EverySaveIsProcessed(interval: int, steps: seq<Step>, k: nat, p: string)
    requires forall i | 0 <= i < |steps| :: NoFault(steps[i])
    requires k < |steps| && SavedPath(At(Init(interval), steps, k), steps[k]) == Some(p)
    requires AtRest(At(Init(interval), steps, |steps|))
    ensures ProcessedSince(At(Init(interval), steps, |steps|).log, |At(Init(interval), steps, k + 1).log|, p)
  {
    var s := At(Init(interval), steps, |steps|);
    SavesStayNoticed(interval, steps, k, |steps|, p);
    RunKeepsOnlyWorkerProcesses(interval, steps, |steps|);
    assert !InFlight(s, p);
    assert forall id | id in s.queue.rows :: !IsPending(s.queue.rows, id);
    assert !HasLiveRow(s, p);
  }
}

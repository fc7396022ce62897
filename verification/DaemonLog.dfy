/**
 The event log against the calls it tells of: one enqueued event for each successful Enqueue
 but those whose append failed, is still to come or was lost in a crash; one saved event for each
 save taken up. And what a fault does to the worker.
 */
module DaemonLog {
  import opened Wrappers
  import opened Strings
  import opened QueueTable
  import opened DaemonSteps
  import opened DaemonDelivery

  /* ---------- enqueued events ---------- */

  /** Callbacks of p that are past Enqueue and not yet past Append. */
  ghost function CallbacksOf(s: State, p: string): set<nat> {
    set cb | cb in s.callbacks && s.callbacks[cb] == Callback(p, InQueue)
  }

  /** Handlers are there only between Enqueue and Append. */
  ghost function HandlersOf(s: State, p: string): set<nat> {
    set h | h in s.handlers && s.handlers[h] == p
  }

  ghost function Unlogged(s: State, p: string): nat {
    |CallbacksOf(s, p)| + |HandlersOf(s, p)|
  }

  /** The enqueued events of p that will never be written, because of this step. */
  ghost function LostIn(s: State, step: Step, p: string): nat {
    match step
    case CallbackAppend(cb, false) => if cb in CallbacksOf(s, p) then 1 else 0
    case HttpAppend(h, false) => if h in HandlersOf(s, p) then 1 else 0
    case Crash => Unlogged(s, p)
    case _ => 0
  }

  function EnqueuesIn(s: State, step: Step, p: string): nat {
    if EnqueuedPath(s, step) == Some(p) then 1 else 0
  }

  ghost predicate HandlersFresh(s: State) {
    forall h | h in s.handlers :: h < s.nextId
  }

  lemma StepKeepsHandlersFresh(s: State, step: Step)
    requires HandlersFresh(s)
    ensures HandlersFresh(Apply(s, step))
  {
    hide QueueAfter, WorkerAfter;
  }

  function Times(log: seq<Event>, kind: Kind, p: string): nat {
    multiset(log)[Event(kind, p)]
  }

  lemma OneMoreEvent(log: seq<Event>, kind: Kind, path: string, dbOk: bool, kind': Kind, p: string)
    ensures Times(AppendEvent(log, kind, path, dbOk), kind', p) ==
      Times(log, kind', p) + if dbOk && kind == kind' && path == p then 1 else 0
  {}

  /** The balance of one step. */
  lemma StepBalances(s: State, step: Step, p: string)
    requires FreshIds(s) && HandlersFresh(s)
    ensures
      var s' := Apply(s, step);
      Times(s'.log, Enqueued, p) + Unlogged(s', p) + LostIn(s, step, p) ==
        Times(s.log, Enqueued, p) + Unlogged(s, p) + EnqueuesIn(s, step, p)
  {
    match step
    case WatcherEvent(_, _, _) => OtherEventsDoNotCount(s, step, p);
    case WorkerAppend(_) => OtherEventsDoNotCount(s, step, p);
    case Fire(_) => FireBalances(s, step, p);
    case CallbackEnqueue(_, _, _, _) => CallbackEnqueueBalances(s, step, p);
    case CallbackAppend(_, _) => CallbackAppendBalances(s, step, p);
    case CallbackDelete(_) => CallbackDeleteBalances(s, step, p);
    case HttpEnqueue(_, _, _, _) => HttpEnqueueBalances(s, step, p);
    case HttpAppend(_, _) => HttpAppendBalances(s, step, p);
    case Crash => CrashBalances(s, p);
    case _ => QuietStepBalances(s, step, p);
  }

  lemma SameInFlight(s: State, s': State, p: string)
    requires s'.handlers == s.handlers && CallbacksOf(s', p) == CallbacksOf(s, p)
    ensures Unlogged(s', p) == Unlogged(s, p)
  {}

  lemma OtherEventsDoNotCount(s: State, step: Step, p: string)
    requires step.WatcherEvent? || step.WorkerAppend?
    ensures
      var s' := Apply(s, step);
      Times(s'.log, Enqueued, p) == Times(s.log, Enqueued, p) && Unlogged(s', p) == Unlogged(s, p)
  {
    hide WorkerAfter;
  }

  lemma QuietStepBalances(s: State, step: Step, p: string)
    requires step.Tick? || step.WatcherArm? || step.WatcherStop? || step.WorkerDequeue? || step.WorkerRemove?
      || step.WorkerStop?
    ensures
      var s' := Apply(s, step);
      s'.log == s.log && Unlogged(s', p) == Unlogged(s, p)
  {
    hide QueueAfter, WorkerAfter;
  }

  lemma FireBalances(s: State, step: Step, p: string)
    requires FreshIds(s) && step.Fire?
    ensures Apply(s, step).log == s.log && Unlogged(Apply(s, step), p) == Unlogged(s, p)
  {
    assert CallbacksOf(Apply(s, step), p) == CallbacksOf(s, p);
  }

  lemma CallbackEnqueueBalances(s: State, step: Step, p: string)
    requires step.CallbackEnqueue?
    ensures Apply(s, step).log == s.log
    ensures Unlogged(Apply(s, step), p) == Unlogged(s, p) + EnqueuesIn(s, step, p)
  {
    hide QueueAfter;
    if EnqueuesIn(s, step, p) == 1 {
      OneMoreCallback(s, Apply(s, step), step.callback, p);
    } else {
      assert CallbacksOf(Apply(s, step), p) == CallbacksOf(s, p);
    }
  }

  lemma OneMoreCallback(s: State, s': State, cb: nat, p: string)
    requires cb in s.callbacks && s.callbacks[cb].stage == Fired && s'.handlers == s.handlers
    requires s'.callbacks == s.callbacks[cb := Callback(p, InQueue)]
    ensures Unlogged(s', p) == Unlogged(s, p) + 1
  {
    CallbackComes(s, s', cb, p);
    hide CallbacksOf;
  }

  lemma CallbackComes(s: State, s': State, cb: nat, p: string)
    requires cb in s.callbacks && s.callbacks[cb].stage == Fired
    requires s'.callbacks == s.callbacks[cb := Callback(p, InQueue)]
    ensures |CallbacksOf(s', p)| == |CallbacksOf(s, p)| + 1
  {
    var was, now := CallbacksOf(s, p), CallbacksOf(s', p);
    assert cb !in was;
    forall k ensures k in now <==> k in was || k == cb {
      if k == cb {
      } else if k in s.callbacks {
        assert s'.callbacks[k] == s.callbacks[k];
      }
    }
    hide CallbacksOf;
    assert now == was + {cb};
  }

  /** A callback of p gets past Append. */
  lemma OneLessCallback(s: State, s': State, cb: nat, p: string)
    requires cb in CallbacksOf(s, p) && s'.handlers == s.handlers
    requires s'.callbacks == s.callbacks[cb := Callback(p, InLog)]
    ensures Unlogged(s', p) + 1 == Unlogged(s, p)
  {
    assert CallbacksOf(s', p) == CallbacksOf(s, p) - {cb};
  }

  lemma CallbackAppendBalances(s: State, step: Step, p: string)
    requires step.CallbackAppend?
    ensures Times(Apply(s, step).log, Enqueued, p) + Unlogged(Apply(s, step), p) + LostIn(s, step, p) ==
      Times(s.log, Enqueued, p) + Unlogged(s, p)
  {
    var s', cb := Apply(s, step), step.callback;
    if cb in CallbacksOf(s, p) {
      OneLessCallback(s, s', cb, p);
      OneMoreEvent(s.log, Enqueued, p, step.dbOk, Enqueued, p);
      hide Unlogged, Times, AppendEvent;
    } else {
      OtherCallbackAppends(s, step, p);
    }
  }

  lemma OtherCallbackAppends(s: State, step: Step, p: string)
    requires step.CallbackAppend? && step.callback !in CallbacksOf(s, p)
    ensures Times(Apply(s, step).log, Enqueued, p) == Times(s.log, Enqueued, p)
    ensures Unlogged(Apply(s, step), p) == Unlogged(s, p)
  {
    assert CallbacksOf(Apply(s, step), p) == CallbacksOf(s, p);
  }

  lemma CallbackDeleteBalances(s: State, step: Step, p: string)
    requires step.CallbackDelete?
    ensures Apply(s, step).log == s.log && Unlogged(Apply(s, step), p) == Unlogged(s, p)
  {
    assert CallbacksOf(Apply(s, step), p) == CallbacksOf(s, p);
  }

  lemma HttpEnqueueBalances(s: State, step: Step, p: string)
    requires HandlersFresh(s) && step.HttpEnqueue?
    ensures Apply(s, step).log == s.log
    ensures Unlogged(Apply(s, step), p) == Unlogged(s, p) + EnqueuesIn(s, step, p)
  {
    hide QueueAfter, TrimSpace;
    var s' := Apply(s, step);
    match EnqueuedPath(s, step)
    case None =>
    case Some(path) => OneMoreHandler(s, s', path, p);
  }

  lemma OneMoreHandler(s: State, s': State, path: string, p: string)
    requires HandlersFresh(s) && s'.callbacks == s.callbacks && s'.handlers == s.handlers[s.nextId := path]
    ensures Unlogged(s', p) == Unlogged(s, p) + if path == p then 1 else 0
  {
    HandlerCounts(s, s', path, p);
    assert CallbacksOf(s', p) == CallbacksOf(s, p);
    hide CallbacksOf, HandlersOf;
  }

  lemma HandlerCounts(s: State, s': State, path: string, p: string)
    requires HandlersFresh(s) && s'.handlers == s.handlers[s.nextId := path]
    ensures |HandlersOf(s', p)| == |HandlersOf(s, p)| + if path == p then 1 else 0
  {
    if path == p {
      assert HandlersOf(s', p) == HandlersOf(s, p) + {s.nextId};
    } else {
      assert HandlersOf(s', p) == HandlersOf(s, p);
    }
  }

  lemma HttpAppendBalances(s: State, step: Step, p: string)
    requires step.HttpAppend?
    ensures Times(Apply(s, step).log, Enqueued, p) + Unlogged(Apply(s, step), p) + LostIn(s, step, p) ==
      Times(s.log, Enqueued, p) + Unlogged(s, p)
  {
    if step.handler in s.handlers {
      OneLessHandler(s, Apply(s, step), step.handler, p);
      OneMoreEvent(s.log, Enqueued, s.handlers[step.handler], step.dbOk, Enqueued, p);
      hide Unlogged, Times, AppendEvent;
    }
  }

  lemma OneLessHandler(s: State, s': State, h: nat, p: string)
    requires h in s.handlers && s'.callbacks == s.callbacks && s'.handlers == s.handlers - {h}
    ensures Unlogged(s', p) + (if s.handlers[h] == p then 1 else 0) == Unlogged(s, p)
  {
    HandlerLeaves(s, s', h, p);
    assert CallbacksOf(s', p) == CallbacksOf(s, p);
    hide CallbacksOf, HandlersOf;
  }

  lemma HandlerLeaves(s: State, s': State, h: nat, p: string)
    requires h in s.handlers && s'.handlers == s.handlers - {h}
    ensures |HandlersOf(s', p)| + (if s.handlers[h] == p then 1 else 0) == |HandlersOf(s, p)|
  {
    if s.handlers[h] == p {
      assert HandlersOf(s', p) == HandlersOf(s, p) - {h};
    } else {
      assert HandlersOf(s', p) == HandlersOf(s, p);
    }
  }

  lemma CrashBalances(s: State, p: string)
    ensures Apply(s, Crash).log == s.log && Unlogged(Apply(s, Crash), p) == 0
  {
    assert CallbacksOf(Apply(s, Crash), p) == {} && HandlersOf(Apply(s, Crash), p) == {};
  }

  /* ---------- over a run ---------- */

  function Enqueues(s: State, steps: seq<Step>, n: nat, p: string): nat
    requires n <= |steps|
  {
    if n == 0 then 0 else Enqueues(s, steps, n - 1, p) + EnqueuesIn(At(s, steps, n - 1), steps[n - 1], p)
  }

  ghost function Lost(s: State, steps: seq<Step>, n: nat, p: string): nat
    requires n <= |steps|
  {
    if n == 0 then 0 else Lost(s, steps, n - 1, p) + LostIn(At(s, steps, n - 1), steps[n - 1], p)
  }

  /**
   In every run, faults and crashes included: each successful Enqueue of p is an enqueued event in the log, or
   still to be logged, or lost.
   */
  lemma {:induction false} EnqueuesAreLogged(interval: int, steps: seq<Step>, n: nat, p: string)
    requires n <= |steps|
    ensures HandlersFresh(At(Init(interval), steps, n))
    ensures
      var s := At(Init(interval), steps, n);
      Times(s.log, Enqueued, p) + Unlogged(s, p) + Lost(Init(interval), steps, n, p) ==
        Enqueues(Init(interval), steps, n, p)
  {
    if n == 0 {
      NothingUnlogged(interval, p);
    } else {
      var s := At(Init(interval), steps, n - 1);
      EnqueuesAreLogged(interval, steps, n - 1, p);
      RunKeepsFreshIds(Init(interval), steps, n - 1);
      StepKeepsHandlersFresh(s, steps[n - 1]);
      hide Apply, Unlogged, LostIn, EnqueuesIn, Times, FreshIds, HandlersFresh;
      StepBalances(s, steps[n - 1], p);
    }
  }

  lemma NothingUnlogged(interval: int, p: string)
    ensures Times(Init(interval).log, Enqueued, p) == Unlogged(Init(interval), p) == 0
    ensures HandlersFresh(Init(interval))
  {
    assert CallbacksOf(Init(interval), p) == {} && HandlersOf(Init(interval), p) == {};
  }

  ghost predicate AppendFails(step: Step) {
    step.Crash? || (step.CallbackAppend? && !step.dbOk) || (step.HttpAppend? && !step.dbOk)
  }

  /** So without crashes and failed appends, the log tells every Enqueue whose caller has moved on. */
  lemma {:induction false} NothingIsLost(s: State, steps: seq<Step>, n: nat, p: string)
    requires n <= |steps| && forall i | 0 <= i < n :: !AppendFails(steps[i])
    ensures Lost(s, steps, n, p) == 0
  {
    if n > 0 {
      NothingIsLost(s, steps, n - 1, p);
      assert !AppendFails(steps[n - 1]);
    }
  }

  /* ---------- saved events ---------- */

  /** The filesystem reports a write or creation of p while the watcher waits, and the append works. */
  function SavesIn(s: State, step: Step, p: string): nat {
    if s.watcher == Waiting && step == WatcherEvent(p, true, true) then 1 else 0
  }

  function Saves(s: State, steps: seq<Step>, n: nat, p: string): nat
    requires n <= |steps|
  {
    if n == 0 then 0 else Saves(s, steps, n - 1, p) + SavesIn(At(s, steps, n - 1), steps[n - 1], p)
  }

  lemma StepLogsSaves(s: State, step: Step, stem: string)
    ensures
      var p := stem + ".md";
      Times(Apply(s, step).log, Saved, p) == Times(s.log, Saved, p) + SavesIn(s, step, p)
  {
    MarkdownIff(stem + ".md");
    if step.WatcherEvent? {
      WatcherLogsSaves(s, step, stem + ".md");
    } else {
      OthersLogNoSaves(s, step, stem + ".md");
    }
  }

  lemma WatcherLogsSaves(s: State, step: Step, p: string)
    requires step.WatcherEvent? && IsMarkdown(p)
    ensures Times(Apply(s, step).log, Saved, p) == Times(s.log, Saved, p) + SavesIn(s, step, p)
  {
    hide IsMarkdown, Times, AppendEvent;
    if SavedPath(s, step).Some? {
      OneMoreEvent(s.log, Saved, step.name, step.dbOk, Saved, p);
    }
  }

  lemma OthersLogNoSaves(s: State, step: Step, p: string)
    requires !step.WatcherEvent?
    ensures Times(Apply(s, step).log, Saved, p) == Times(s.log, Saved, p)
  {
    hide QueueAfter, WorkerAfter, TrimSpace;
  }

  /** One saved event of a .md file for each such report. */
  lemma {:induction false} SavesAreLogged(interval: int, steps: seq<Step>, n: nat, stem: string)
    requires n <= |steps|
    ensures Times(At(Init(interval), steps, n).log, Saved, stem + ".md") ==
      Saves(Init(interval), steps, n, stem + ".md")
  {
    if n > 0 {
      SavesAreLogged(interval, steps, n - 1, stem);
      StepLogsSaves(At(Init(interval), steps, n - 1), steps[n - 1], stem);
      hide Apply, SavesIn, Times;
    }
  }

  /* ---------- the end of the worker ---------- */

  /** The worker's own call fails, or it is told to stop between two entries. */
  predicate EndsWorker(s: State, step: Step) {
    || (s.worker == Polling && (step == WorkerDequeue(false) || step == WorkerStop))
    || (s.worker.Holding? && step == WorkerAppend(false))
    || (s.worker.Appended? && step == WorkerRemove(false))
  }

  lemma RemoveOfHeldRow(t: Table, e: Entry)
    requires HasRow(t, e.id, e.path, Processing)
    ensures SqlRemove(t, e.id).1 == Done
  {}

  /** A worker that runs ends in exactly these steps, and its table and log stay as they are. */
  lemma WorkerEndsIff(s: State, step: Step)
    requires Inv(s) && s.worker != WorkerGone
    ensures Apply(s, step).worker == WorkerGone <==> EndsWorker(s, step)
    ensures EndsWorker(s, step) ==> Apply(s, step).queue == s.queue && Apply(s, step).log == s.log
  {
    WorkerShape(s, step);
    if s.worker.Appended? {
      RemoveOfHeldRow(s.queue, s.worker.entry);
    }
    hide SqlDequeue, SqlRemove, SqlEnqueue, Valid;
  }

  /** Without a worker nothing is processed: no new processed event, and every row as it was. */
  ghost predicate LeftAlone(s: State, s': State) {
    && s'.worker == WorkerGone
    && (forall p :: Times(s'.log, Processed, p) == Times(s.log, Processed, p))
    && forall id | id in s.queue.rows :: HasRow(s'.queue, id, s.queue.rows[id].path, s.queue.rows[id].status)
  }

  lemma StepLeavesAlone(s: State, step: Step)
    requires Inv(s) && s.worker == WorkerGone && !step.Crash?
    ensures LeftAlone(s, Apply(s, step))
  {
    StepShape(s, step);
    GoneWorkerLogsNothing(s, step);
    hide Apply, SqlEnqueue, Valid;
    if EnqueuedPath(s, step).Some? {
      EnqueueKeepsRows(s.queue, EnqueuedPath(s, step).value, step.mtime, step.gap);
    }
  }

  lemma GoneWorkerLogsNothing(s: State, step: Step)
    requires s.worker == WorkerGone
    ensures forall p :: Times(Apply(s, step).log, Processed, p) == Times(s.log, Processed, p)
  {
    hide QueueAfter, WorkerAfter, TrimSpace;
  }

  /** Once gone, the worker stays away until the process starts anew. */
  lemma {:induction false} GoneWorkerStaysGone(interval: int, steps: seq<Step>, k: nat, n: nat)
    requires k <= n <= |steps| && At(Init(interval), steps, k).worker == WorkerGone
    requires forall i | k <= i < n :: !steps[i].Crash?
    ensures LeftAlone(At(Init(interval), steps, k), At(Init(interval), steps, n))
  {
    if k < n {
      GoneWorkerStaysGone(interval, steps, k, n - 1);
      RunKeepsInv(Init(interval), steps, n - 1);
      StepLeavesAlone(At(Init(interval), steps, n - 1), steps[n - 1]);
      hide Apply, Inv, Times;
    }
  }

  /** The watcher ends only between two events; once gone, it takes up no save until the process starts anew. */
  lemma WatcherEndsIff(s: State, step: Step)
    ensures s.watcher != WatcherGone ==>
      (Apply(s, step).watcher == WatcherGone <==> s.watcher == Waiting && step == WatcherStop)
    ensures s.watcher == WatcherGone && !step.Crash? ==>
      Apply(s, step).watcher == WatcherGone && forall p :: Times(Apply(s, step).log, Saved, p) == Times(s.log, Saved, p)
  {
    hide QueueAfter, WorkerAfter, TrimSpace, IsMarkdown;
  }

  /** After a crash the process starts like a new one over the same database, a worker included. */
  lemma CrashRestarts(s: State)
    ensures Apply(s, Crash) == Init(s.interval).(now := s.now, queue := s.queue, log := s.log, nextId := s.nextId)
  {}
}

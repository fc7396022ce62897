/**
 The debounce timers of fsWatcher, at the granularity of arm, fire, enqueue, log and
 delete: no save goes unheard even when it lands inside a running callback; and when
 saves of a path do not overlap its callbacks, there is exactly one Enqueue per burst.
 */
module DaemonDebounce {
  import opened Wrappers
  import opened DaemonSteps
  import opened DaemonDelivery

  /** The path whose timer is reset or started in this step. */
  function ArmedPath(s: State, step: Step): Option<string> {
    if step.WatcherArm? && s.watcher.SaveLogged? then Some(s.watcher.path) else None
  }

  /** The path whose timer fires in this step. */
  function FiredPath(s: State, step: Step): Option<string> {
    if Fires(s, step) then Some(s.armed[step.timer].path) else None
  }

  ghost predicate DueTimer(s: State, p: string, t: int) {
    exists k :: k in s.armed && s.armed[k].path == p && s.armed[k].due >= t
  }

  lemma {:induction false} TimeMovesForward(s: State, steps: seq<Step>, k: nat, n: nat)
    requires k <= n <= |steps|
    ensures At(s, steps, k).now <= At(s, steps, n).now
  {
    if k < n {
      TimeMovesForward(s, steps, k, n - 1);
      assert At(s, steps, n) == Apply(At(s, steps, n - 1), steps[n - 1]);
      NowNeverDrops(At(s, steps, n - 1), steps[n - 1]);
    }
  }

  lemma NowNeverDrops(s: State, step: Step)
    ensures s.now <= Apply(s, step).now
  {
    match step
    case Tick(_) =>
    case _ =>
  }

  lemma DueTimerStays(s: State, step: Step, p: string, t: int)
    requires FreshIds(s) && DueTimer(s, p, t) && !step.Crash? && t <= s.now + s.interval
    ensures DueTimer(Apply(s, step), p, t) || (FiredPath(s, step) == Some(p) && s.now >= t)
  {
    var k :| k in s.armed && s.armed[k].path == p && s.armed[k].due >= t;
    if FiredPath(s, step) != Some(p) || step.timer != k {
      assert k in Apply(s, step).armed && Apply(s, step).armed[k].path == p && Apply(s, step).armed[k].due >= t;
    }
  }

  lemma {:induction false} IntervalIsFixed(s: State, steps: seq<Step>, n: nat)
    requires n <= |steps|
    ensures At(s, steps, n).interval == s.interval
  {
    if n > 0 {
      IntervalIsFixed(s, steps, n - 1);
      StepKeepsInterval(At(s, steps, n - 1), steps[n - 1]);
    }
  }

  lemma StepKeepsInterval(s: State, step: Step)
    ensures Apply(s, step).interval == s.interval
  {
    match step
    case Tick(_) =>
    case _ =>
  }

  /**
   No save goes unheard. When the save of p at step k arms at time t, then at every later
   point without a crash either a timer of p is armed and due no earlier than
   t + interval, or a callback of p has started at t + interval or later.
   */
  lemma {:induction false} EverySaveIsHeard(interval: int, steps: seq<Step>, k: nat, n: nat, p: string)
    requires k < n <= |steps| && ArmedPath(At(Init(interval), steps, k), steps[k]) == Some(p)
    requires forall i | k < i < n :: !steps[i].Crash?
    ensures var due := At(Init(interval), steps, k).now + interval;
            || DueTimer(At(Init(interval), steps, n), p, due)
            || exists m :: k < m < n && FiredPath(At(Init(interval), steps, m), steps[m]) == Some(p) &&
                           At(Init(interval), steps, m).now >= due
  {
    var s0 := Init(interval);
    var s, before := At(s0, steps, k), At(s0, steps, n - 1);
    IntervalIsFixed(s0, steps, k);
    if n == k + 1 {
      ArmIsDue(s, steps[k]);
    } else {
      EverySaveIsHeard(interval, steps, k, n - 1, p);
      hide ArmedPath;
      if DueTimer(before, p, s.now + interval) {
        DueTimerStaysAlong(interval, steps, k, n, p);
      }
    }
  }

  lemma DueTimerStaysAlong(interval: int, steps: seq<Step>, k: nat, n: nat, p: string)
    requires k + 1 < n <= |steps| && !steps[n - 1].Crash?
    requires DueTimer(At(Init(interval), steps, n - 1), p, At(Init(interval), steps, k).now + interval)
    ensures
      var due := At(Init(interval), steps, k).now + interval;
      || DueTimer(At(Init(interval), steps, n), p, due)
      || (FiredPath(At(Init(interval), steps, n - 1), steps[n - 1]) == Some(p)
        && At(Init(interval), steps, n - 1).now >= due)
  {
    var s0 := Init(interval);
    IntervalIsFixed(s0, steps, n - 1);
    TimeMovesForward(s0, steps, k, n - 1);
    RunKeepsFreshIds(s0, steps, n - 1);
    hide FreshIds, DueTimer, Apply, FiredPath;
    DueTimerStays(At(s0, steps, n - 1), steps[n - 1], p, At(s0, steps, k).now + interval);
  }

  lemma ArmIsDue(s: State, step: Step)
    requires ArmedPath(s, step).Some?
    ensures DueTimer(Apply(s, step), ArmedPath(s, step).value, s.now + s.interval)
  {
    var p := ArmedPath(s, step).value;
    var timer := if p in s.timers then s.timers[p] else s.nextId;
    assert timer in Apply(s, step).armed;
  }

  /* ---------- counting ---------- */

  function TimersOf(armed: map<nat, Timer>, p: string): set<nat> {
    set k | k in armed && armed[k].path == p
  }

  /** The timer objects of p that are armed. */
  function ArmedFor(s: State, p: string): set<nat> {
    TimersOf(s.armed, p)
  }

  function CountArms(s: State, steps: seq<Step>, p: string, n: nat): nat
    requires n <= |steps|
  {
    if n == 0 then 0
    else CountArms(s, steps, p, n - 1) + if ArmedPath(At(s, steps, n - 1), steps[n - 1]) == Some(p) then 1 else 0
  }

  function CountFires(s: State, steps: seq<Step>, p: string, n: nat): nat
    requires n <= |steps|
  {
    if n == 0 then 0
    else CountFires(s, steps, p, n - 1) + if FiredPath(At(s, steps, n - 1), steps[n - 1]) == Some(p) then 1 else 0
  }

  /** Enqueue calls made by the callbacks of p. */
  function CountEnqueues(s: State, steps: seq<Step>, p: string, n: nat): nat
    requires n <= |steps|
  {
    if n == 0 then 0
    else CountEnqueues(s, steps, p, n - 1) + if CallbackEnqueues(At(s, steps, n - 1), steps[n - 1], p) then 1 else 0
  }

  predicate CallbackEnqueues(s: State, step: Step, p: string) {
    step.CallbackEnqueue? && EnqueuedPath(s, step) == Some(p)
  }

  lemma TimersOfArm(armed: map<nat, Timer>, k: nat, t: Timer, p: string)
    requires k in armed ==> armed[k].path == t.path
    ensures TimersOf(armed[k := t], p) == if t.path == p then TimersOf(armed, p) + {k} else TimersOf(armed, p)
  {}

  lemma ArmedForArm(s: State, path: string, p: string)
    requires FreshIds(s)
    ensures |ArmedFor(ArmTimer(s, path), p)| <= |ArmedFor(s, p)| + (if path == p then 1 else 0)
  {
    var timer, t := if path in s.timers then s.timers[path] else s.nextId, Timer(path, s.now + s.interval);
    assert timer in s.armed ==> s.armed[timer].path == path;
    assert ArmTimer(s, path).armed == s.armed[timer := t];
    TimersOfArm(s.armed, timer, t, p);
    hide FreshIds, ArmTimer, TimersOf;
  }

  lemma ArmedForFire(s: State, step: Step, p: string)
    requires Fires(s, step)
    ensures |ArmedFor(Apply(s, step), p)| == |ArmedFor(s, p)| - (if FiredPath(s, step) == Some(p) then 1 else 0)
  {
    assert ArmedFor(Apply(s, step), p) == ArmedFor(s, p) - {step.timer};
    assert FiredPath(s, step) == Some(p) <==> step.timer in ArmedFor(s, p);
  }

  lemma ArmedForStep(s: State, step: Step, p: string)
    requires FreshIds(s)
    ensures |ArmedFor(Apply(s, step), p)| + (if FiredPath(s, step) == Some(p) then 1 else 0)
            <= |ArmedFor(s, p)| + (if ArmedPath(s, step) == Some(p) then 1 else 0)
  {
    hide FreshIds;
    if ArmedPath(s, step).Some? {
      ArmedForArm(s, s.watcher.path, p);
    } else if FiredPath(s, step).Some? {
      ArmedForFire(s, step, p);
    } else if step.Crash? {
      assert ArmedFor(Apply(s, step), p) == {};
    } else {
      OtherStepsLeaveTimers(s, step);
      assert ArmedFor(Apply(s, step), p) == ArmedFor(s, p);
    }
  }

  /** Firings plus armed timers of a path never exceed its saves, whatever happens. */
  lemma {:induction false} FiringsNeverExceedSaves(interval: int, steps: seq<Step>, p: string, n: nat)
    requires n <= |steps|
    ensures CountFires(Init(interval), steps, p, n) + |ArmedFor(At(Init(interval), steps, n), p)|
            <= CountArms(Init(interval), steps, p, n)
  {
    if n > 0 {
      FiringsNeverExceedSaves(interval, steps, p, n - 1);
      RunKeepsFreshIds(Init(interval), steps, n - 1);
      ArmedForStep(At(Init(interval), steps, n - 1), steps[n - 1], p);
    } else {
      assert ArmedFor(Init(interval), p) == {};
    }
  }

  /* ---------- exactness ---------- */

  ghost predicate Busy(s: State, p: string) {
    exists cb :: cb in s.callbacks && s.callbacks[cb].path == p
  }

  /**
   What path p needs, whatever other paths do. Its timers are urgent: time does not pass one that is due. No
   save of p arms while a callback of p runs or at the very instant its timer is due. Enqueue succeeds in
   callbacks of p. A crash finds no timer of p armed and no callback of p before its Enqueue.
   */
  ghost predicate Orderly(s: State, step: Step, p: string) {
    match step
    case Tick(elapsed) => forall k | k in s.armed && s.armed[k].path == p :: s.now + elapsed <= s.armed[k].due
    case WatcherArm => s.watcher == SaveLogged(p) ==>
      && !Busy(s, p)
      && forall k | k in s.armed && s.armed[k].path == p :: s.armed[k].due != s.now
    case CallbackEnqueue(cb, _, _, dbOk) => cb in s.callbacks && s.callbacks[cb] == Callback(p, Fired) ==> dbOk
    case Crash => ArmedFor(s, p) == {} && FiredFor(s, p) == {}
    case _ => true
  }

  ghost predicate OrderlyRun(s: State, steps: seq<Step>, p: string, n: nat)
    requires n <= |steps|
  {
    n == 0 || (OrderlyRun(s, steps, p, n - 1) && Orderly(At(s, steps, n - 1), steps[n - 1], p))
  }

  function NewSave(s: State, step: Step, p: string): seq<int> {
    if ArmedPath(s, step) == Some(p) then [s.now] else []
  }

  /** The times at which saves of p armed its timer. */
  function SaveTimes(s: State, steps: seq<Step>, p: string, n: nat): seq<int>
    requires n <= |steps|
  {
    if n == 0 then []
    else SaveTimes(s, steps, p, n - 1) + NewSave(At(s, steps, n - 1), steps[n - 1], p)
  }

  /** Maximal bursts: a save at `interval` or more after the one before starts a new one. */
  function Bursts(times: seq<int>, interval: int): nat {
    var n := |times|;
    if n == 0 then 0
    else if n > 1 && times[n - 1] - times[n - 2] < interval then Bursts(times[..n - 1], interval)
    else Bursts(times[..n - 1], interval) + 1
  }

  /** One timer at most, in the map while armed, due one interval after the last save, and never beside a callback. */
  ghost predicate OneTimer(s: State, p: string, times: seq<int>) {
    && (forall k | k in s.armed && s.armed[k].path == p ::
          && p in s.timers && s.timers[p] == k
          && |times| > 0 && s.armed[k].due == times[|times| - 1] + s.interval && s.now <= s.armed[k].due
          && !Busy(s, p))
    && (p in s.timers && s.timers[p] !in s.armed ==> Busy(s, p))
    && (forall a, b | a in s.callbacks && b in s.callbacks && s.callbacks[a].path == p && s.callbacks[b].path == p ::
      a == b)
    && (|times| > 0 && ArmedFor(s, p) == {} ==> times[|times| - 1] + s.interval <= s.now)
  }

  function FiredFor(s: State, p: string): set<nat> {
    set cb | cb in s.callbacks && s.callbacks[cb] == Callback(p, Fired)
  }

  ghost predicate Exact(s: State, p: string, times: seq<int>, fires: nat, enqueues: nat) {
    && OneTimer(s, p, times)
    && fires + |ArmedFor(s, p)| == Bursts(times, s.interval)
    && enqueues + |FiredFor(s, p)| == fires
  }

  /** A save of p resets its timer or starts one. */
  lemma OwnArmKeepsExact(s: State, s': State, timer: nat, p: string, times: seq<int>, fires: nat, enqueues: nat)
    requires Exact(s, p, times, fires, enqueues) && s.interval > 0
    requires s'.armed == s.armed[timer := Timer(p, s.now + s.interval)] && s'.timers == s.timers[p := timer]
    requires s'.now == s.now && s'.interval == s.interval && s'.callbacks == s.callbacks
    requires if p in s.timers then timer == s.timers[p] && (timer in s.armed ==> s.armed[timer].path == p)
      else timer !in s.armed
    requires !Busy(s, p) && forall k | k in s.armed && s.armed[k].path == p :: s.armed[k].due != s.now
    ensures Exact(s', p, times + [s.now], fires, enqueues)
  {
    assert (times + [s.now])[..|times|] == times;
    assert ArmedFor(s', p) == {timer} && FiredFor(s', p) == FiredFor(s, p);
    assert ArmedFor(s, p) == if p in s.timers then {timer} else {};
    assert !Busy(s', p);
  }

  /** A save of another path. */
  lemma OtherArmKeepsExact(s: State, s': State, timer: nat, path: string, p: string, times: seq<int>, fires: nat,
      enqueues: nat)
    requires Exact(s, p, times, fires, enqueues) && path != p
    requires s'.armed == s.armed[timer := Timer(path, s.now + s.interval)] && s'.timers == s.timers[path := timer]
    requires s'.now == s.now && s'.interval == s.interval && s'.callbacks == s.callbacks
    requires (timer in s.armed ==> s.armed[timer].path == path) && (p in s.timers ==> s.timers[p] != timer)
    ensures Exact(s', p, times, fires, enqueues)
  {
    assert ArmedFor(s', p) == ArmedFor(s, p) && FiredFor(s', p) == FiredFor(s, p);
    assert Busy(s, p) <==> Busy(s', p);
  }

  lemma ArmKeepsExact(s: State, p: string, times: seq<int>, fires: nat, enqueues: nat)
    requires FreshIds(s) && Exact(s, p, times, fires, enqueues) && Orderly(s, WatcherArm, p)
    requires s.watcher.SaveLogged? && s.interval > 0
    ensures s.watcher.path == p ==> Exact(Apply(s, WatcherArm), p, times + [s.now], fires, enqueues)
    ensures s.watcher.path != p ==> Exact(Apply(s, WatcherArm), p, times, fires, enqueues)
  {
    var s', path := Apply(s, WatcherArm), s.watcher.path;
    var timer := if path in s.timers then s.timers[path] else s.nextId;
    assert s'.timers == s.timers[path := timer];
    hide Exact;
    if path == p {
      OwnArmKeepsExact(s, s', timer, p, times, fires, enqueues);
    } else {
      OtherArmKeepsExact(s, s', timer, path, p, times, fires, enqueues);
    }
  }

  /** A timer t fires and its callback starts under a fresh number. */
  lemma FiringKeepsExact(s: State, s': State, t: nat, cb: nat, p: string, times: seq<int>, fires: nat, enqueues: nat)
    requires Exact(s, p, times, fires, enqueues) && t in s.armed && s.armed[t].due <= s.now && cb !in s.callbacks
    requires p in s.timers && s.timers[p] == t ==> s.armed[t].path == p
    requires s'.armed == s.armed - {t} && s'.callbacks == s.callbacks[cb := Callback(s.armed[t].path, Fired)]
    requires s'.now == s.now && s'.interval == s.interval && s'.timers == s.timers
    ensures Exact(s', p, times, fires + (if s.armed[t].path == p then 1 else 0), enqueues)
  {
    assert s'.callbacks[cb].path == s.armed[t].path;
    if s.armed[t].path == p {
      assert ArmedFor(s, p) == {t} && ArmedFor(s', p) == {};
      assert FiredFor(s', p) == FiredFor(s, p) + {cb};
      assert Busy(s', p);
    } else {
      assert ArmedFor(s', p) == ArmedFor(s, p) && FiredFor(s', p) == FiredFor(s, p);
      BusyElsewhere(s, s', cb, p);
    }
  }

  lemma FireKeepsExact(s: State, t: nat, p: string, times: seq<int>, fires: nat, enqueues: nat)
    requires FreshIds(s) && Exact(s, p, times, fires, enqueues) && Fires(s, Fire(t))
    ensures Exact(Apply(s, Fire(t)), p, times, fires + (if s.armed[t].path == p then 1 else 0), enqueues)
  {
    assert s.nextId !in s.callbacks;
    hide Exact, FreshIds;
    FiringKeepsExact(s, Apply(s, Fire(t)), t, s.nextId, p, times, fires, enqueues);
  }

  /** A callback goes on to a later stage. */
  lemma StageKeepsExact(s: State, s': State, cb: nat, stage: Stage, p: string, times: seq<int>, fires: nat,
      enqueues: nat)
    requires Exact(s, p, times, fires, enqueues) && cb in s.callbacks && stage != Fired
    requires s'.callbacks == s.callbacks[cb := Callback(s.callbacks[cb].path, stage)]
    requires s'.now == s.now && s'.interval == s.interval && s'.timers == s.timers && s'.armed == s.armed
    ensures Exact(s', p, times, fires, enqueues + (if s.callbacks[cb] == Callback(p, Fired) then 1 else 0))
  {
    hide Bursts, TimersOf;
    assert Busy(s, p) <==> Busy(s', p) by {
      if s.callbacks[cb].path == p {
        assert s'.callbacks[cb].path == p;
      } else {
        BusyElsewhere(s, s', cb, p);
      }
    }
    hide Busy;
    FiredForStage(s, s', cb, stage, p);
    hide FiredFor;
  }

  lemma FiredForStage(s: State, s': State, cb: nat, stage: Stage, p: string)
    requires cb in s.callbacks && stage != Fired
      && s'.callbacks == s.callbacks[cb := Callback(s.callbacks[cb].path, stage)]
    ensures |FiredFor(s, p)| == |FiredFor(s', p)| + (if s.callbacks[cb] == Callback(p, Fired) then 1 else 0)
  {
    assert FiredFor(s, p) == if s.callbacks[cb] == Callback(p, Fired) then FiredFor(s', p) + {cb} else FiredFor(s', p);
  }

  /** A callback ends and takes its path out of the map. */
  lemma EndKeepsExact(s: State, s': State, cb: nat, p: string, times: seq<int>, fires: nat, enqueues: nat)
    requires Exact(s, p, times, fires, enqueues) && cb in s.callbacks && s.callbacks[cb].stage != Fired
    requires s'.callbacks == s.callbacks - {cb} && s'.timers == s.timers - {s.callbacks[cb].path}
    requires s'.now == s.now && s'.interval == s.interval && s'.armed == s.armed
    ensures Exact(s', p, times, fires, enqueues)
  {
    assert FiredFor(s', p) == FiredFor(s, p);
    if s.callbacks[cb].path == p {
      assert Busy(s, p);
    } else {
      BusyElsewhere(s, s', cb, p);
    }
  }

  /** A callback of another path fails. */
  lemma FailureElsewhereKeepsExact(s: State, s': State, cb: nat, p: string, times: seq<int>, fires: nat, enqueues: nat)
    requires Exact(s, p, times, fires, enqueues) && cb in s.callbacks && s.callbacks[cb].path != p
    requires s'.callbacks == s.callbacks - {cb} && s'.timers == s.timers
    requires s'.now == s.now && s'.interval == s.interval && s'.armed == s.armed
    ensures Exact(s', p, times, fires, enqueues)
  {
    assert FiredFor(s', p) == FiredFor(s, p);
    BusyElsewhere(s, s', cb, p);
  }

  /** The steps of a callback after it has fired. */
  lemma CallbackKeepsExact(s: State, step: Step, p: string, times: seq<int>, fires: nat, enqueues: nat)
    requires Exact(s, p, times, fires, enqueues) && Orderly(s, step, p)
    requires step.CallbackEnqueue? || step.CallbackAppend? || step.CallbackDelete?
    ensures Exact(Apply(s, step), p, times, fires, enqueues + (if CallbackEnqueues(s, step, p) then 1 else 0))
  {
    var s', cb := Apply(s, step), step.callback;
    hide Exact, Busy;
    if cb in s.callbacks && s' != s {
      match step
      case CallbackEnqueue(_, _, _, dbOk) =>
        if dbOk {
          StageKeepsExact(s, s', cb, InQueue, p, times, fires, enqueues);
        } else {
          FailureElsewhereKeepsExact(s, s', cb, p, times, fires, enqueues);
        }
      case CallbackAppend(_, _) => StageKeepsExact(s, s', cb, InLog, p, times, fires, enqueues);
      case CallbackDelete(_) => EndKeepsExact(s, s', cb, p, times, fires, enqueues);
    }
  }

  lemma BusyElsewhere(s: State, s': State, cb: nat, p: string)
    requires cb in s.callbacks ==> s.callbacks[cb].path != p
    requires s'.callbacks == s.callbacks - {cb} ||
             (cb in s'.callbacks && s'.callbacks[cb].path != p && s'.callbacks == s.callbacks[cb := s'.callbacks[cb]])
    ensures Busy(s, p) <==> Busy(s', p)
  {
    if Busy(s, p) {
      var c :| c in s.callbacks && s.callbacks[c].path == p;
      assert c in s'.callbacks && s'.callbacks[c].path == p;
    }
  }

  lemma OtherStepsLeaveTimers(s: State, step: Step)
    requires ArmedPath(s, step).None? && FiredPath(s, step).None? && !step.Crash?
    ensures Apply(s, step).armed == s.armed && Apply(s, step).interval == s.interval
    ensures !step.CallbackEnqueue? && !step.CallbackAppend? && !step.CallbackDelete? ==>
              Apply(s, step).callbacks == s.callbacks && Apply(s, step).timers == s.timers
  {
    match step
    case CallbackEnqueue(_, _, _, _) =>
    case CallbackAppend(_, _) =>
    case HttpEnqueue(_, _, _, _) =>
    case WorkerDequeue(_) =>
    case WorkerRemove(_) =>
    case _ =>
  }

  lemma StepKeepsExact(s: State, step: Step, p: string, times: seq<int>, fires: nat, enqueues: nat)
    requires FreshIds(s) && Exact(s, p, times, fires, enqueues) && Orderly(s, step, p) && s.interval > 0
    ensures Exact(Apply(s, step), p,
                  times + NewSave(s, step, p),
                  fires + (if FiredPath(s, step) == Some(p) then 1 else 0),
                  enqueues + (if CallbackEnqueues(s, step, p) then 1 else 0))
  {
    assert times + [] == times;
    match step
    case WatcherArm => if s.watcher.SaveLogged? { ArmKeepsExact(s, p, times, fires, enqueues); }
    case Fire(t) => if Fires(s, step) { FireKeepsExact(s, t, p, times, fires, enqueues); }
    case CallbackEnqueue(_, _, _, _) => CallbackKeepsExact(s, step, p, times, fires, enqueues);
    case CallbackAppend(_, _) => CallbackKeepsExact(s, step, p, times, fires, enqueues);
    case CallbackDelete(_) => CallbackKeepsExact(s, step, p, times, fires, enqueues);
    case Crash => CrashKeepsExact(s, Apply(s, step), p, times, fires, enqueues);
    case _ => OtherStepKeepsExact(s, step, p, times, fires, enqueues);
  }

  lemma OtherStepKeepsExact(s: State, step: Step, p: string, times: seq<int>, fires: nat, enqueues: nat)
    requires Exact(s, p, times, fires, enqueues) && Orderly(s, step, p)
    requires !step.WatcherArm? && !step.Fire? && !step.CallbackEnqueue? && !step.CallbackAppend?
      && !step.CallbackDelete? && !step.Crash?
    ensures Exact(Apply(s, step), p, times, fires, enqueues)
  {
    OtherStepsLeaveTimers(s, step);
    NowNeverDrops(s, step);
    OnlyTickMovesTime(s, step);
    hide Apply;
    WaitingKeepsExact(s, Apply(s, step), p, times, fires, enqueues);
  }

  lemma OnlyTickMovesTime(s: State, step: Step)
    ensures Apply(s, step).now == if step.Tick? then s.now + step.elapsed else s.now
  {
    match step
    case Tick(_) =>
    case _ =>
  }

  /** Time passes, but not beyond a timer of p that is due. */
  lemma WaitingKeepsExact(s: State, s': State, p: string, times: seq<int>, fires: nat, enqueues: nat)
    requires Exact(s, p, times, fires, enqueues)
    requires s'.armed == s.armed && s'.callbacks == s.callbacks && s'.timers == s.timers && s'.interval == s.interval
    requires s.now <= s'.now && forall k | k in s.armed && s.armed[k].path == p ::
      s'.now == s.now || s'.now <= s.armed[k].due
    ensures Exact(s', p, times, fires, enqueues)
  {
    assert ArmedFor(s', p) == ArmedFor(s, p) && FiredFor(s', p) == FiredFor(s, p);
    assert Busy(s', p) <==> Busy(s, p);
  }

  lemma CrashKeepsExact(s: State, s': State, p: string, times: seq<int>, fires: nat, enqueues: nat)
    requires Exact(s, p, times, fires, enqueues) && ArmedFor(s, p) == {} && FiredFor(s, p) == {}
    requires s'.armed == map[] && s'.callbacks == map[] && s'.timers == map[] && s'.interval == s.interval
      && s'.now == s.now
    ensures Exact(s', p, times, fires, enqueues)
  {
    assert ArmedFor(s', p) == {} && FiredFor(s', p) == {};
  }

  lemma {:induction false} OrderlyRunsAreExact(interval: int, steps: seq<Step>, p: string, n: nat)
    requires interval > 0 && n <= |steps|
    requires OrderlyRun(Init(interval), steps, p, n)
    ensures
      var s0 := Init(interval);
      Exact(At(s0, steps, n), p,
            SaveTimes(s0, steps, p, n), CountFires(s0, steps, p, n), CountEnqueues(s0, steps, p, n))
  {
    var s0 := Init(interval);
    if n > 0 {
      OrderlyRunsAreExact(interval, steps, p, n - 1);
      RunKeepsFreshIds(s0, steps, n - 1);
      IntervalIsFixed(s0, steps, n - 1);
      hide FreshIds, Exact, Orderly, Apply, FiredPath, CallbackEnqueues, NewSave;
      StepKeepsExact(At(s0, steps, n - 1), steps[n - 1], p, SaveTimes(s0, steps, p, n - 1),
                     CountFires(s0, steps, p, n - 1), CountEnqueues(s0, steps, p, n - 1));
    } else {
      assert ArmedFor(s0, p) == {} && FiredFor(s0, p) == {};
    }
  }

  /**
   Debounce is exact for each path whose own steps are orderly: it has at most one armed timer, which is the
   one in the map; and once no timer of p is armed and no callback of p runs, its callbacks have made
   exactly one Enqueue per burst of its own saves, whatever other paths did.
   */
  lemma OneEnqueuePerBurst(interval: int, steps: seq<Step>, p: string)
    requires interval > 0
    requires OrderlyRun(Init(interval), steps, p, |steps|)
    ensures
      var s := At(Init(interval), steps, |steps|);
      forall k | k in s.armed && s.armed[k].path == p :: p in s.timers && s.timers[p] == k
    ensures
      var s := At(Init(interval), steps, |steps|);
      ArmedFor(s, p) == {} && !Busy(s, p) ==>
        CountEnqueues(Init(interval), steps, p, |steps|) ==
          Bursts(SaveTimes(Init(interval), steps, p, |steps|), interval)
  {
    var s := At(Init(interval), steps, |steps|);
    OrderlyRunsAreExact(interval, steps, p, |steps|);
    IntervalIsFixed(Init(interval), steps, |steps|);
    if !Busy(s, p) {
      assert forall cb | cb in s.callbacks :: s.callbacks[cb].path != p;
      assert FiredFor(s, p) == {};
    }
  }
}

/**
 When firings and Enqueues match the bursts of a path: over every run, crashes and failures included,
 if and only if each save finds an armed timer in the map exactly when it continues a burst, no callback of
 the path fails to enqueue, and no crash takes one of its timers or of its callbacks before the Enqueue.
 */
module DaemonBursts {
  import opened Wrappers
  import opened Strings
  import opened DaemonSteps
  import opened DaemonDelivery
  import opened DaemonDebounce
  import opened DaemonTimers

  /**
   Firings, with the timers still armed, are the bursts; Enqueues, with the callbacks before theirs, are the
   firings.
   */
  predicate Matches(s: State, p: string, times: seq<int>, fires: nat, enqueues: nat) {
    fires + |ArmedFor(s, p)| == Bursts(times, s.interval) && enqueues + |FiredFor(s, p)| == fires
  }

  /** The save at this moment belongs to the burst of the one before. */
  predicate ContinuesBurst(s: State, times: seq<int>) {
    |times| > 0 && s.now - times[|times| - 1] < s.interval
  }

  predicate FindsArmedTimer(s: State, p: string) {
    p in s.timers && s.timers[p] in s.armed
  }

  /** What a step must meet for path p; `times` are the saves of p so far. */
  predicate InStep(s: State, step: Step, p: string, times: seq<int>) {
    match step
    case WatcherArm => s.watcher == SaveLogged(p) ==> (FindsArmedTimer(s, p) <==> ContinuesBurst(s, times))
    case CallbackEnqueue(cb, _, _, dbOk) => cb in s.callbacks && s.callbacks[cb] == Callback(p, Fired) ==> dbOk
    case Crash => ArmedFor(s, p) == {} && FiredFor(s, p) == {}
    case _ => true
  }

  ghost predicate MatchesAfter(s: State, step: Step, p: string, times: seq<int>, fires: nat, enqueues: nat) {
    Matches(Apply(s, step), p, times + NewSave(s, step, p),
            fires + (if FiredPath(s, step) == Some(p) then 1 else 0),
            enqueues + (if CallbackEnqueues(s, step, p) then 1 else 0))
  }

  /* ---------- one step ---------- */

  lemma StaysMatchingIff(s: State, step: Step, p: string, times: seq<int>, fires: nat, enqueues: nat)
    requires FreshIds(s) && Matches(s, p, times, fires, enqueues)
    ensures MatchesAfter(s, step, p, times, fires, enqueues) <==> InStep(s, step, p, times)
  {
    assert times + [] == times;
    match step
    case WatcherArm => if s.watcher.SaveLogged? { ArmMatchesIff(s, p, times, fires, enqueues); }
    case Fire(t) => if Fires(s, step) { FireKeepsMatch(s, step, p, times, fires, enqueues); }
    case CallbackEnqueue(cb, _, _, dbOk) =>
      if cb in s.callbacks && s.callbacks[cb].stage == Fired {
        EnqueueMatchesIff(s, step, p, times, fires, enqueues);
      }
    case CallbackAppend(_, _) => LaterStagesKeepMatch(s, step, p, times, fires, enqueues);
    case CallbackDelete(_) => LaterStagesKeepMatch(s, step, p, times, fires, enqueues);
    case Crash =>
      assert ArmedFor(Apply(s, step), p) == {} && FiredFor(Apply(s, step), p) == {};
    case _ =>
      OtherStepsLeaveTimers(s, step);
      assert FiredFor(Apply(s, step), p) == FiredFor(s, p);
  }

  /** What a save does to the timers: no more than one is added, none if the map leads to an armed one. */
  lemma ArmedForSave(s: State, p: string)
    requires FreshIds(s) && s.watcher.SaveLogged?
    ensures
      |ArmedFor(Apply(s, WatcherArm), p)| ==
        |ArmedFor(s, p)| + (if s.watcher.path == p && !FindsArmedTimer(s, p) then 1 else 0)
  {
    var s', path := Apply(s, WatcherArm), s.watcher.path;
    var timer, t := if path in s.timers then s.timers[path] else s.nextId, Timer(path, s.now + s.interval);
    assert s'.armed == s.armed[timer := t];
    assert timer in s.armed ==> s.armed[timer].path == path;
    assert path !in s.timers ==> timer !in s.armed;
    TimersOfArm(s.armed, timer, t, p);
    if path == p {
      assert timer in TimersOf(s.armed, p) <==> FindsArmedTimer(s, p);
      OneMore(TimersOf(s.armed, p), timer);
    }
    hide Apply, FreshIds, TimersOf;
  }

  lemma OneMore(ks: set<nat>, k: nat)
    ensures |ks + {k}| == |ks| + (if k in ks then 0 else 1)
  {
    assert k in ks ==> ks + {k} == ks;
  }

  lemma ArmMatchesIff(s: State, p: string, times: seq<int>, fires: nat, enqueues: nat)
    requires FreshIds(s) && Matches(s, p, times, fires, enqueues) && s.watcher.SaveLogged?
    ensures MatchesAfter(s, WatcherArm, p, times, fires, enqueues) <==> InStep(s, WatcherArm, p, times)
  {
    var s' := Apply(s, WatcherArm);
    assert s'.callbacks == s.callbacks && s'.interval == s.interval;
    ArmedForSave(s, p);
    assert FiredFor(s', p) == FiredFor(s, p);
    assert times + [] == times;
    OneMoreSave(times, s.now, s.interval);
    hide Apply, FreshIds, ArmedFor, FindsArmedTimer, FiredFor, Bursts;
  }

  lemma OneMoreSave(times: seq<int>, now: int, interval: int)
    ensures
      Bursts(times + [now], interval) ==
        Bursts(times, interval) + (if |times| > 0 && now - times[|times| - 1] < interval then 0 else 1)
  {
    assert (times + [now])[..|times|] == times;
  }

  lemma FiredForFire(s: State, step: Step, p: string)
    requires FreshIds(s) && Fires(s, step)
    ensures |FiredFor(Apply(s, step), p)| == |FiredFor(s, p)| + (if FiredPath(s, step) == Some(p) then 1 else 0)
    ensures Apply(s, step).interval == s.interval
  {
    var s', cb := Apply(s, step), s.nextId;
    assert s'.callbacks == s.callbacks[cb := Callback(s.armed[step.timer].path, Fired)] && cb !in s.callbacks;
    hide Apply, FreshIds;
    assert FiredFor(s', p) == if s.armed[step.timer].path == p then FiredFor(s, p) + {cb} else FiredFor(s, p);
  }

  lemma FireKeepsMatch(s: State, step: Step, p: string, times: seq<int>, fires: nat, enqueues: nat)
    requires FreshIds(s) && Matches(s, p, times, fires, enqueues) && Fires(s, step)
    ensures MatchesAfter(s, step, p, times, fires, enqueues)
  {
    ArmedForFire(s, step, p);
    FiredForFire(s, step, p);
    assert times + [] == times;
    hide Apply, FreshIds, ArmedFor, FiredFor, Bursts, FiredPath;
  }

  lemma FiredForEnqueue(s: State, step: Step, p: string)
    requires step.CallbackEnqueue? && step.callback in s.callbacks && s.callbacks[step.callback].stage == Fired
    ensures
      |FiredFor(Apply(s, step), p)| == |FiredFor(s, p)| - (if s.callbacks[step.callback].path == p then 1 else 0)
    ensures Apply(s, step).interval == s.interval && Apply(s, step).armed == s.armed
  {
    var s', cb := Apply(s, step), step.callback;
    if step.dbOk {
      assert s'.callbacks == s.callbacks[cb := Callback(s.callbacks[cb].path, InQueue)];
      hide Apply;
      FiredForStage(s, s', cb, InQueue, p);
    } else {
      assert s'.callbacks == s.callbacks - {cb};
      hide Apply;
      FiredForEnd(s, s', cb, p);
    }
  }

  lemma FiredForEnd(s: State, s': State, cb: nat, p: string)
    requires cb in s.callbacks && s.callbacks[cb].stage == Fired && s'.callbacks == s.callbacks - {cb}
    ensures |FiredFor(s', p)| == |FiredFor(s, p)| - (if s.callbacks[cb].path == p then 1 else 0)
  {
    assert FiredFor(s', p) == FiredFor(s, p) - {cb};
    assert cb in FiredFor(s, p) <==> s.callbacks[cb].path == p;
  }

  lemma EnqueueMatchesIff(s: State, step: Step, p: string, times: seq<int>, fires: nat, enqueues: nat)
    requires Matches(s, p, times, fires, enqueues) && step.CallbackEnqueue?
    requires step.callback in s.callbacks && s.callbacks[step.callback].stage == Fired
    ensures MatchesAfter(s, step, p, times, fires, enqueues) <==> InStep(s, step, p, times)
  {
    FiredForEnqueue(s, step, p);
    assert times + [] == times;
    assert CallbackEnqueues(s, step, p) <==> s.callbacks[step.callback].path == p && step.dbOk;
    hide Apply, FiredFor, TimersOf, Bursts, CallbackEnqueues;
  }

  lemma LaterStagesKeepMatch(s: State, step: Step, p: string, times: seq<int>, fires: nat, enqueues: nat)
    requires Matches(s, p, times, fires, enqueues) && (step.CallbackAppend? || step.CallbackDelete?)
    ensures MatchesAfter(s, step, p, times, fires, enqueues)
  {
    var s' := Apply(s, step);
    assert s'.armed == s.armed && s'.interval == s.interval && times + [] == times;
    assert FiredFor(s', p) == FiredFor(s, p);
    hide TimersOf, Bursts;
  }

  /* ---------- whole runs ---------- */

  ghost predicate MatchesAt(interval: int, steps: seq<Step>, p: string, n: nat)
    requires n <= |steps|
  {
    var s0 := Init(interval);
    Matches(At(s0, steps, n), p,
            SaveTimes(s0, steps, p, n), CountFires(s0, steps, p, n), CountEnqueues(s0, steps, p, n))
  }

  ghost predicate MatchesThroughout(interval: int, steps: seq<Step>, p: string, n: nat)
    requires n <= |steps|
  {
    MatchesAt(interval, steps, p, n) && (n > 0 ==> MatchesThroughout(interval, steps, p, n - 1))
  }

  ghost predicate InStepAlong(interval: int, steps: seq<Step>, p: string, n: nat)
    requires n <= |steps|
  {
    n > 0 ==>
      && InStepAlong(interval, steps, p, n - 1)
      && InStep(At(Init(interval), steps, n - 1), steps[n - 1], p, SaveTimes(Init(interval), steps, p, n - 1))
  }

  lemma MatchesNextIff(interval: int, steps: seq<Step>, p: string, n: nat)
    requires 0 < n <= |steps| && MatchesAt(interval, steps, p, n - 1)
    ensures
      MatchesAt(interval, steps, p, n) <==>
        InStep(At(Init(interval), steps, n - 1), steps[n - 1], p, SaveTimes(Init(interval), steps, p, n - 1))
  {
    var s0 := Init(interval);
    RunKeepsFreshIds(s0, steps, n - 1);
    hide FreshIds, Matches, InStep, Apply, FiredPath, CallbackEnqueues, NewSave;
    StaysMatchingIff(At(s0, steps, n - 1), steps[n - 1], p, SaveTimes(s0, steps, p, n - 1),
                     CountFires(s0, steps, p, n - 1), CountEnqueues(s0, steps, p, n - 1));
  }

  /**
   Over every run: firings and Enqueues match the bursts throughout if and only if every step is in step with
   them.
   */
  lemma {:induction false} MatchesIffInStep(interval: int, steps: seq<Step>, p: string, n: nat)
    requires n <= |steps|
    ensures MatchesThroughout(interval, steps, p, n) <==> InStepAlong(interval, steps, p, n)
  {
    if n > 0 {
      MatchesIffInStep(interval, steps, p, n - 1);
      if MatchesThroughout(interval, steps, p, n - 1) {
        MatchesNextIff(interval, steps, p, n);
      }
    } else {
      assert ArmedFor(Init(interval), p) == {} && FiredFor(Init(interval), p) == {};
    }
  }

  /** So once no timer of p is armed and no callback of p is before its Enqueue, there was one Enqueue per burst. */
  lemma OneEnqueuePerBurstInStep(interval: int, steps: seq<Step>, p: string)
    requires InStepAlong(interval, steps, p, |steps|)
    requires ArmedFor(At(Init(interval), steps, |steps|), p) == {}
    requires FiredFor(At(Init(interval), steps, |steps|), p) == {}
    ensures
      CountEnqueues(Init(interval), steps, p, |steps|) ==
        Bursts(SaveTimes(Init(interval), steps, p, |steps|), interval)
  {
    MatchesIffInStep(interval, steps, p, |steps|);
    IntervalIsFixed(Init(interval), steps, |steps|);
  }

  /** A path whose steps are orderly in the sense of DaemonDebounce is in step. */
  lemma OrderlyRunsAreInStep(interval: int, steps: seq<Step>, p: string, n: nat)
    requires interval > 0 && n <= |steps| && OrderlyRun(Init(interval), steps, p, n)
    ensures InStepAlong(interval, steps, p, n)
  {
    OrderlyRunsMatch(interval, steps, p, n);
    MatchesIffInStep(interval, steps, p, n);
  }

  lemma {:induction false} OrderlyRunsMatch(interval: int, steps: seq<Step>, p: string, n: nat)
    requires interval > 0 && n <= |steps| && OrderlyRun(Init(interval), steps, p, n)
    ensures MatchesThroughout(interval, steps, p, n)
  {
    OrderlyRunsAreExact(interval, steps, p, n);
    if n > 0 {
      OrderlyRunsMatch(interval, steps, p, n - 1);
    }
  }

  /* ---------- a run that is not in step ---------- */

  /**
   The run of TwoTimersOfOnePath, with an interval that is positive: the save after the callback continues a
   burst but finds no timer in the map, and one firing and two armed timers stand against two bursts.
   */
  lemma TwoTimersForOneBurst(interval: nat, p: string)
    requires IsMarkdown(p) && interval > 0
    ensures
      var s0, steps := Init(interval), TwoTimersRun(interval, p);
      && CountFires(s0, steps, p, |steps|) == 1
      && |ArmedFor(At(s0, steps, |steps|), p)| == 2
      && Bursts(SaveTimes(s0, steps, p, |steps|), interval) == 2
      && !MatchesAt(interval, steps, p, |steps|)
  {
    var s0, steps := Init(interval), TwoTimersRun(interval, p);
    TwoTimersOfOnePath(interval, p);
    TwoTimersSaves(interval, p);
    OneMoreSave([], 0, interval);
    OneMoreSave([0], interval, interval);
    OneMoreSave([0, interval], interval, interval);
    assert [] + [0] == [0] && [0] + [interval] == [0, interval];
    assert [0, interval] + [interval] == [0, interval, interval];
    IntervalIsFixed(s0, steps, |steps|);
    hide SaveTimes, CountFires, CountEnqueues, At, ArmedFor, FiredFor, IsMarkdown, Bursts;
  }

  lemma TwoTimersSaves(interval: nat, p: string)
    requires IsMarkdown(p) && interval > 0
    ensures SaveTimes(Init(interval), TwoTimersRun(interval, p), p, 11) == [0, interval, interval]
    ensures CountFires(Init(interval), TwoTimersRun(interval, p), p, 11) == 1
  {
    TwoTimersStates(interval, p);
    hide Apply, IsMarkdown, At, SaveTimes, CountFires;
    ThreeSavesOneFiring(Init(interval), TwoTimersRun(interval, p), p, 0, interval, interval);
  }

  lemma ThreeSavesOneFiring(s: State, steps: seq<Step>, p: string, t1: int, t2: int, t3: int)
    requires |steps| == 11 && steps[3].Fire? && FiredPath(At(s, steps, 3), steps[3]) == Some(p)
    requires forall i | 0 <= i < 11 && i != 3 && i != 1 && i != 5 && i != 10 :: !steps[i].WatcherArm? && !steps[i].Fire?
    requires steps[1] == steps[5] == steps[10] == WatcherArm
    requires At(s, steps, 1).watcher == At(s, steps, 5).watcher == At(s, steps, 10).watcher == SaveLogged(p)
    requires At(s, steps, 1).now == t1 && At(s, steps, 5).now == t2 && At(s, steps, 10).now == t3
    ensures SaveTimes(s, steps, p, 11) == [t1, t2, t3] && CountFires(s, steps, p, 11) == 1
  {
    assert SaveTimes(s, steps, p, 0) == [] && CountFires(s, steps, p, 0) == 0;
    hide SaveTimes, CountFires, At, FiredPath;
    QuietSteps(s, steps, p, 0, 1);
    SaveStep(s, steps, p, 1);
    QuietSteps(s, steps, p, 2, 3);
    FireStep(s, steps, p, 3);
    QuietSteps(s, steps, p, 4, 5);
    SaveStep(s, steps, p, 5);
    QuietSteps(s, steps, p, 6, 10);
    SaveStep(s, steps, p, 10);
  }

  lemma FireStep(s: State, steps: seq<Step>, p: string, n: nat)
    requires n < |steps| && steps[n].Fire? && FiredPath(At(s, steps, n), steps[n]) == Some(p)
    ensures SaveTimes(s, steps, p, n + 1) == SaveTimes(s, steps, p, n)
    ensures CountFires(s, steps, p, n + 1) == CountFires(s, steps, p, n) + 1
  {}

  lemma SaveStep(s: State, steps: seq<Step>, p: string, n: nat)
    requires n < |steps| && steps[n] == WatcherArm && At(s, steps, n).watcher == SaveLogged(p)
    ensures SaveTimes(s, steps, p, n + 1) == SaveTimes(s, steps, p, n) + [At(s, steps, n).now]
    ensures CountFires(s, steps, p, n + 1) == CountFires(s, steps, p, n)
  {}

  /** Steps that neither arm nor fire leave the saves and the firings alone. */
  lemma {:induction false} QuietSteps(s: State, steps: seq<Step>, p: string, m: nat, n: nat)
    requires m <= n <= |steps| && forall i | m <= i < n :: !steps[i].WatcherArm? && !steps[i].Fire?
    ensures SaveTimes(s, steps, p, n) == SaveTimes(s, steps, p, m)
    ensures CountFires(s, steps, p, n) == CountFires(s, steps, p, m)
  {
    if m < n {
      QuietSteps(s, steps, p, m, n - 1);
    }
  }
}

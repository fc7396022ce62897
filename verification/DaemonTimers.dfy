/**
 When "one live timer per path" holds. A debounce callback deletes its path from the map whatever timer is there; if a
 save has armed that timer again meanwhile, it is armed but no longer found: an orphan. The next save then
 starts a second timer. Over every run, crashes and failures included, that is the only way two timers of a path come
 to be armed.
 */
module DaemonTimers {
  import opened Wrappers
  import opened QueueTable
  import opened DaemonSteps
  import opened DaemonDelivery
  import opened DaemonDebounce
  import opened Strings

  /** No two armed timers of p. */
  ghost predicate AtMostOne(s: State, p: string) {
    forall j, k | j in s.armed && k in s.armed && s.armed[j].path == p && s.armed[k].path == p :: j == k
  }

  /** An armed timer of p that the map does not lead to. */
  ghost predicate Orphan(s: State, p: string) {
    exists k :: k in s.armed && s.armed[k].path == p && !(p in s.timers && s.timers[p] == k)
  }

  /** A second timer is armed exactly by a save of p while there is an orphan of p. */
  lemma StaysOneIff(s: State, step: Step, p: string)
    requires FreshIds(s) && AtMostOne(s, p)
    ensures AtMostOne(Apply(s, step), p) <==> !(ArmedPath(s, step) == Some(p) && Orphan(s, p))
  {
    if ArmedPath(s, step).Some? {
      ArmStaysOneIff(s, s.watcher.path, p);
    } else if FiredPath(s, step).None? && !step.Crash? {
      OtherStepsLeaveTimers(s, step);
    }
  }

  lemma ArmStaysOneIff(s: State, path: string, p: string)
    requires FreshIds(s) && AtMostOne(s, p)
    ensures AtMostOne(ArmTimer(s, path), p) <==> !(path == p && Orphan(s, p))
  {
    var timer, t := if path in s.timers then s.timers[path] else s.nextId, Timer(path, s.now + s.interval);
    assert timer in s.armed ==> s.armed[timer].path == path;
    assert ArmTimer(s, path).armed == s.armed[timer := t];
    assert path !in s.timers ==> timer !in s.armed;
    hide ArmTimer, FreshIds;
    if path == p && Orphan(s, p) {
      var k :| k in s.armed && s.armed[k].path == p && !(p in s.timers && s.timers[p] == k);
      var s' := ArmTimer(s, path);
      assert k != timer && k in s'.armed && timer in s'.armed && s'.armed[k].path == s'.armed[timer].path == p;
    }
  }

  ghost predicate OneThroughout(s: State, steps: seq<Step>, p: string, n: nat)
    requires n <= |steps|
  {
    AtMostOne(At(s, steps, n), p) && (n > 0 ==> OneThroughout(s, steps, p, n - 1))
  }

  /** Along the run, no save of p arms while there is an orphan of p. */
  ghost predicate NoSaveBesideOrphan(s: State, steps: seq<Step>, p: string, n: nat)
    requires n <= |steps|
  {
    n > 0 ==>
      && NoSaveBesideOrphan(s, steps, p, n - 1)
      && !(ArmedPath(At(s, steps, n - 1), steps[n - 1]) == Some(p) && Orphan(At(s, steps, n - 1), p))
  }

  /**
   Over every run, with crashes and failed Enqueues: one live timer of p throughout if and only if no save of
   p meets an orphan.
   */
  lemma {:induction false} OneTimerIff(interval: int, steps: seq<Step>, p: string, n: nat)
    requires n <= |steps|
    ensures OneThroughout(Init(interval), steps, p, n) <==> NoSaveBesideOrphan(Init(interval), steps, p, n)
  {
    var s0 := Init(interval);
    if n > 0 {
      OneTimerIff(interval, steps, p, n - 1);
      RunKeepsFreshIds(s0, steps, n - 1);
      hide FreshIds, Apply, Orphan, ArmedPath, AtMostOne;
      if OneThroughout(s0, steps, p, n - 1) {
        StaysOneIff(At(s0, steps, n - 1), steps[n - 1], p);
      }
    }
  }

  /** Where orphans come from: exactly from a callback of p that ends while the timer in the map is armed. */
  lemma OrphanIffDeletedWhileArmed(s: State, step: Step, p: string)
    requires FreshIds(s) && !Orphan(s, p)
    ensures Orphan(Apply(s, step), p) <==>
      && step.CallbackDelete?
      && step.callback in s.callbacks && s.callbacks[step.callback] == Callback(p, InLog)
      && p in s.timers && s.timers[p] in s.armed
  {
    match step
    case WatcherArm => if s.watcher.SaveLogged? { ArmMakesNoOrphan(s, s.watcher.path, p); }
    case Fire(_) => assert Apply(s, step).timers == s.timers && Apply(s, step).armed.Keys <= s.armed.Keys;
    case CallbackDelete(cb) =>
      if cb in s.callbacks && s.callbacks[cb].stage == InLog {
        DeleteMakesOrphanIff(s, cb, p);
      }
    case Crash =>
    case _ => OtherStepsLeaveTimers(s, step);
  }

  lemma ArmMakesNoOrphan(s: State, path: string, p: string)
    requires FreshIds(s) && !Orphan(s, p)
    ensures !Orphan(ArmTimer(s, path), p)
  {}

  lemma DeleteMakesOrphanIff(s: State, cb: nat, p: string)
    requires FreshIds(s) && !Orphan(s, p) && cb in s.callbacks && s.callbacks[cb].stage == InLog
    ensures Orphan(Apply(s, CallbackDelete(cb)), p)
      <==> s.callbacks[cb].path == p && p in s.timers && s.timers[p] in s.armed
  {
    var s' := Apply(s, CallbackDelete(cb));
    if s.callbacks[cb].path == p && p in s.timers && s.timers[p] in s.armed {
      assert s.timers[p] in s'.armed && s'.armed[s.timers[p]].path == p && p !in s'.timers;
    }
  }

  /* ---------- saves inside a callback ---------- */

  /** The parts of a state that matter to the timers of one path. */
  ghost predicate TimersAre(s: State, now: int, timers: map<string, nat>,
                          armed: map<nat, Timer>, callbacks: map<nat, Callback>, nextId: nat) {
    s.now == now && s.timers == timers && s.armed == armed && s.callbacks == callbacks && s.nextId == nextId
      && s.watcher == Waiting
  }

  lemma SaveArms(s: State, p: string)
    requires IsMarkdown(p) && s.watcher == Waiting
    ensures
      var s' := Apply(Apply(s, WatcherEvent(p, true, true)), WatcherArm);
      var timer := if p in s.timers then s.timers[p] else s.nextId;
      TimersAre(s', s.now, s.timers[p := timer], s.armed[timer := Timer(p, s.now + s.interval)], s.callbacks,
                if p in s.timers then s.nextId else s.nextId + 1) && s'.interval == s.interval
  {
    assert s.timers[p := if p in s.timers then s.timers[p] else s.nextId] ==
      if p in s.timers then s.timers else s.timers[p := s.nextId];
  }

  lemma CallbackEnds(s: State, cb: nat, mtime: int)
    requires cb in s.callbacks && s.callbacks[cb].stage == Fired && s.watcher == Waiting
    ensures
      var s' := Apply(Apply(Apply(s, CallbackEnqueue(cb, mtime, 0, true)), CallbackAppend(cb, true)),
        CallbackDelete(cb));
      TimersAre(s', s.now, s.timers - {s.callbacks[cb].path}, s.armed, s.callbacks - {cb}, s.nextId)
        && s'.interval == s.interval
  {
    hide SqlEnqueue;
    var path := s.callbacks[cb].path;
    assert s.callbacks[cb := Callback(path, InQueue)][cb := Callback(path, InLog)] - {cb} == s.callbacks - {cb};
  }

  /** Save, wait, fire. */
  lemma FirstRound(interval: nat, p: string)
    requires IsMarkdown(p)
    ensures
      var s1 := Apply(Apply(Init(interval), WatcherEvent(p, true, true)), WatcherArm);
      var s2 := Apply(Apply(s1, Tick(interval)), Fire(0));
      TimersAre(s2, interval, map[p := 0], map[], map[1 := Callback(p, Fired)], 2) && s2.interval == interval
  {
    SaveArms(Init(interval), p);
    var s1 := Apply(Apply(Init(interval), WatcherEvent(p, true, true)), WatcherArm);
    assert TimersAre(s1, 0, map[p := 0], map[0 := Timer(p, interval)], map[], 1);
    assert s1.armed - {0} == map[];
  }

  /** A save before the callback ends, and one after. */
  lemma SecondRound(s: State, p: string)
    requires IsMarkdown(p) && TimersAre(s, s.now, map[p := 0], map[], map[1 := Callback(p, Fired)], 2)
    ensures
      var s3 := Apply(Apply(s, WatcherEvent(p, true, true)), WatcherArm);
      var s4 := Apply(Apply(Apply(s3, CallbackEnqueue(1, 0, 0, true)), CallbackAppend(1, true)), CallbackDelete(1));
      |ArmedFor(Apply(Apply(s4, WatcherEvent(p, true, true)), WatcherArm), p)| == 2
  {
    hide Apply;
    SaveArms(s, p);
    var s3 := Apply(Apply(s, WatcherEvent(p, true, true)), WatcherArm);
    CallbackEnds(s3, 1, 0);
    var s4 := Apply(Apply(Apply(s3, CallbackEnqueue(1, 0, 0, true)), CallbackAppend(1, true)), CallbackDelete(1));
    SaveArms(s4, p);
    assert ArmedFor(Apply(Apply(s4, WatcherEvent(p, true, true)), WatcherArm), p) == {0, 2};
  }

  /** A save, its timer firing, a save before the callback ends, and one after. */
  function TwoTimersRun(interval: nat, p: string): seq<Step> {
    var save, arm := WatcherEvent(p, true, true), WatcherArm;
    [save, arm, Tick(interval), Fire(0), save, arm] +
    [CallbackEnqueue(1, 0, 0, true), CallbackAppend(1, true), CallbackDelete(1), save, arm]
  }

  /**
   "One live timer per path" is false in general: a save inside a running callback resets the
   timer that the callback then takes out of the map, and the next save starts a second one.
   */
  lemma TwoTimersOfOnePath(interval: nat, p: string)
    requires IsMarkdown(p)
    ensures |ArmedFor(At(Init(interval), TwoTimersRun(interval, p), |TwoTimersRun(interval, p)|), p)| == 2
  {
    var save, arm := WatcherEvent(p, true, true), WatcherArm;
    hide Apply, IsMarkdown, TimersOf;
    FirstRound(interval, p);
    SecondRound(Apply(Apply(Apply(Apply(Init(interval), save), arm), Tick(interval)), Fire(0)), p);
    AtEleven(Init(interval), TwoTimersRun(interval, p));
  }

  /** The states of that run from which a save arms or a timer fires. */
  lemma TwoTimersStates(interval: nat, p: string)
    requires IsMarkdown(p)
    ensures
      var s0, steps := Init(interval), TwoTimersRun(interval, p);
      && At(s0, steps, 1).watcher == At(s0, steps, 5).watcher == At(s0, steps, 10).watcher == SaveLogged(p)
      && At(s0, steps, 1).now == 0 && At(s0, steps, 5).now == interval && At(s0, steps, 10).now == interval
      && FiredPath(At(s0, steps, 3), Fire(0)) == Some(p)
  {
    var s0, steps := Init(interval), TwoTimersRun(interval, p);
    FirstRoundStates(interval, p);
    hide Apply, FiredPath, At;
    SaveIsLogged(s0, p);
    AtNext(s0, steps, 4);
    AtNext(s0, steps, 5);
    SaveIsLogged(At(s0, steps, 4), p);
    SaveArms(At(s0, steps, 4), p);
    AtNext(s0, steps, 6);
    AtNext(s0, steps, 7);
    AtNext(s0, steps, 8);
    CallbackEnds(At(s0, steps, 6), 1, 0);
    AtNext(s0, steps, 9);
    SaveIsLogged(At(s0, steps, 9), p);
  }

  lemma FirstRoundStates(interval: nat, p: string)
    requires IsMarkdown(p)
    ensures
      var s0, steps := Init(interval), TwoTimersRun(interval, p);
      && At(s0, steps, 1) == Apply(s0, WatcherEvent(p, true, true))
      && FiredPath(At(s0, steps, 3), Fire(0)) == Some(p)
      && TimersAre(At(s0, steps, 4), interval, map[p := 0], map[], map[1 := Callback(p, Fired)], 2)
  {
    var s0, steps := Init(interval), TwoTimersRun(interval, p);
    AtNext(s0, steps, 0);
    AtNext(s0, steps, 1);
    AtNext(s0, steps, 2);
    AtNext(s0, steps, 3);
    hide At, IsMarkdown;
    FirstRound(interval, p);
    FirstTimerFires(interval, p);
  }

  lemma FirstTimerFires(interval: nat, p: string)
    requires IsMarkdown(p)
    ensures
      var s2 := Apply(Apply(Init(interval), WatcherEvent(p, true, true)), WatcherArm);
      FiredPath(Apply(s2, Tick(interval)), Fire(0)) == Some(p)
  {
    SaveArms(Init(interval), p);
  }

  lemma AtNext(s: State, steps: seq<Step>, n: nat)
    requires n < |steps|
    ensures At(s, steps, n + 1) == Apply(At(s, steps, n), steps[n])
    ensures At(s, steps, 0) == s
  {}

  lemma SaveIsLogged(s: State, p: string)
    requires IsMarkdown(p) && s.watcher == Waiting
    ensures Apply(s, WatcherEvent(p, true, true)).watcher == SaveLogged(p)
    ensures Apply(s, WatcherEvent(p, true, true)).now == s.now
  {}

  lemma AtEleven(s: State, steps: seq<Step>)
    requires |steps| == 11
    ensures
      var s3 := Apply(Apply(Apply(Apply(Apply(Apply(s, steps[0]), steps[1]), steps[2]), steps[3]), steps[4]), steps[5]);
      At(s, steps, 11) == Apply(Apply(Apply(Apply(Apply(s3, steps[6]), steps[7]), steps[8]), steps[9]), steps[10])
  {
    hide Apply;
    assert At(s, steps, 0) == s;
    assert At(s, steps, 2) == Apply(Apply(s, steps[0]), steps[1]);
    assert At(s, steps, 4) == Apply(Apply(At(s, steps, 2), steps[2]), steps[3]);
    assert At(s, steps, 6) == Apply(Apply(At(s, steps, 4), steps[4]), steps[5]);
    assert At(s, steps, 8) == Apply(Apply(At(s, steps, 6), steps[6]), steps[7]);
    assert At(s, steps, 10) == Apply(Apply(At(s, steps, 8), steps[8]), steps[9]);
  }
}

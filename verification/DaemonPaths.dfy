/**
 Which files the watcher takes up: those whose name ends in ".md", when they are written or
 created, and no others; and what path an HTTP request enqueues.
 */
module DaemonPaths {
  import opened Strings
  import opened QueueTable
  import opened DaemonSteps

  /** Everything that goes back to a save goes back to a .md file. */
  ghost predicate OnlyMd(s: State) {
    && (forall i | 0 <= i < |s.log| && s.log[i].kind == Saved :: EndsInMd(s.log[i].path))
    && (forall t | t in s.armed :: EndsInMd(s.armed[t].path))
    && (forall cb | cb in s.callbacks :: EndsInMd(s.callbacks[cb].path))
    && (forall p | p in s.timers :: EndsInMd(p))
    && (s.watcher.SaveLogged? ==> EndsInMd(s.watcher.path))
  }

  lemma StepKeepsOnlyMd(s: State, step: Step)
    requires OnlyMd(s)
    ensures OnlyMd(Apply(s, step))
  {
    hide IsMarkdown, EndsInMd, QueueAfter, WorkerAfter, TrimSpace;
    match step
    case WatcherEvent(name, _, _) => MarkdownIff(name);
    case _ =>
  }

  /** In every run, whatever the filesystem reports, crashes and failures included. */
  lemma {:induction false} RunKeepsOnlyMd(interval: int, steps: seq<Step>, n: nat)
    requires n <= |steps|
    ensures OnlyMd(At(Init(interval), steps, n))
  {
    if n > 0 {
      RunKeepsOnlyMd(interval, steps, n - 1);
      StepKeepsOnlyMd(At(Init(interval), steps, n - 1), steps[n - 1]);
    }
  }

  /** A write or creation of a .md file is logged as saved at once, and then its timer is armed for one interval. */
  lemma MdFileIsTakenUp(s: State, stem: string)
    requires s.watcher == Waiting
    ensures
      var path := stem + ".md";
      var s1 := Apply(s, WatcherEvent(path, true, true));
      var s2 := Apply(s1, WatcherArm);
      && s1.log == s.log + [Event(Saved, path)] && s2.log == s1.log
      && path in s2.timers && s2.timers[path] in s2.armed
      && s2.armed[s2.timers[path]] == Timer(path, s.now + s.interval)
  {
    MarkdownIff(stem + ".md");
  }

  /** Any other event leaves no trace. */
  lemma OtherEventsAreSkipped(s: State, name: string, writeOrCreate: bool, dbOk: bool)
    requires !writeOrCreate || !EndsInMd(name)
    ensures Apply(s, WatcherEvent(name, writeOrCreate, dbOk)) == s
  {
    MarkdownIff(name);
  }

  /** The body of a request is a path between white space. */
  ghost predicate IsBodyOf(body: string, path: string) {
    && path != "" && !IsSpace(path[0]) && !IsSpace(path[|path| - 1])
    && exists left: string, right: string :: Blank(left) && Blank(right) && body == left + (path + right)
  }

  lemma BodyIsTrimmed(body: string)
    requires !Blank(body)
    ensures TrimSpace(body) != "" && IsBodyOf(body, TrimSpace(body))
  {
    var left, right := TrimSplits(body);
  }

  /** A request whose Enqueue succeeds leaves a pending row of the path in its body; a blank body changes nothing. */
  lemma RequestEnqueuesItsPath(s: State, body: string, mtime: int, gap: nat)
    requires Inv(s)
    ensures
      var s' := Apply(s, HttpEnqueue(body, mtime, gap, true));
      if Blank(body) then s' == s
      else exists path, id :: IsBodyOf(body, path) && HasRow(s'.queue, id, path, Pending)
  {
    if !Blank(body) {
      var path := TrimSpace(body);
      BodyIsTrimmed(body);
      StepShape(s, HttpEnqueue(body, mtime, gap, true));
      hide Apply, SqlEnqueue, TrimSpace, IsBodyOf, Blank;
      EnqueueKeepsRows(s.queue, path, mtime, gap);
    }
  }
}

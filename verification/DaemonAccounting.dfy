/**
 The books of the queue table and the event log over whole runs, crashes included:
 ids are never reused, at most one row is stranded per crash, and the processed events
 in the log are exactly the removed rows plus the rows logged but not yet removed.
 */
module DaemonAccounting {
  import opened QueueTable
  import opened DaemonSteps

  /** Every id a row has had before step n. */
  function Inserted(s: State, steps: seq<Step>, n: nat): set<nat>
    requires n <= |steps|
  {
    if n == 0 then s.queue.rows.Keys else Inserted(s, steps, n - 1) + At(s, steps, n).queue.rows.Keys
  }

  /** The row whose processed event the worker logs in this step. */
  function LoggedRow(s: State, step: Step): set<nat> {
    if step.WorkerAppend? && step.dbOk && s.worker.Holding? then {s.worker.entry.id} else {}
  }

  function Logged(s: State, steps: seq<Step>, n: nat): set<nat>
    requires n <= |steps|
  {
    if n == 0 then {} else Logged(s, steps, n - 1) + LoggedRow(At(s, steps, n - 1), steps[n - 1])
  }

  function Crashes(steps: seq<Step>, n: nat): nat
    requires n <= |steps|
  {
    if n == 0 then 0 else Crashes(steps, n - 1) + if steps[n - 1].Crash? then 1 else 0
  }

  function CountProcessed(log: seq<Event>): nat {
    if log == [] then 0
    else CountProcessed(log[..|log| - 1]) + if log[|log| - 1].kind == Processed then 1 else 0
  }

  function WithStatus(t: Table, status: Status): set<nat> {
    set id | id in t.rows && t.rows[id].status == status
  }

  /** The worker's hold on a row, as a number: one until it is back to polling. */
  function InHand(w: Worker): nat {
    if w == Polling then 0 else 1
  }

  /**
   `inserted` and `logged` are the ids of the rows ever inserted and ever logged: what is
   gone was logged, nothing pending was, and the row in hand is logged once appended.
   */
  ghost predicate Books(s: State, inserted: set<nat>, logged: set<nat>, crashes: nat) {
    BooksOf(s.queue, s.worker, CountProcessed(s.log), inserted, logged, crashes)
  }

  ghost predicate BooksOf(t: Table, w: Worker, processed: nat, inserted: set<nat>, logged: set<nat>, crashes: nat) {
    && TableBooks(t, inserted, logged)
    && (w.Holding? ==> w.entry.id !in logged)
    && (w.Appended? ==> w.entry.id in logged)
    && processed == |logged|
    && |WithStatus(t, Processing)| <= crashes + InHand(w)
  }

  /** The part of the books that concerns the table. */
  ghost predicate TableBooks(t: Table, inserted: set<nat>, logged: set<nat>) {
    && t.rows.Keys <= inserted
    && (forall id | id in inserted :: id <= t.lastId)
    && logged <= inserted
    && inserted - t.rows.Keys <= logged
    && (forall id | id in logged && id in t.rows :: t.rows[id].status == Processing)
  }

  lemma LogStep(s: State, step: Step)
    ensures CountProcessed(Apply(s, step).log) == CountProcessed(s.log) + |LoggedRow(s, step)|
  {
    LogStepShape(s, step);
    if Apply(s, step).log != s.log {
      assert Apply(s, step).log[..|s.log|] == s.log;
    }
  }

  lemma LogStepShape(s: State, step: Step)
    ensures var log' := Apply(s, step).log;
            if LoggedRow(s, step) != {} then log' == s.log + [Event(Processed, s.worker.entry.path)]
            else log' == s.log || exists e: Event :: e.kind != Processed && log' == s.log + [e]
  {
    var log' := Apply(s, step).log;
    if log' != s.log && LoggedRow(s, step) == {} {
      assert log'[|s.log|].kind != Processed && log' == s.log + [log'[|s.log|]];
    }
  }

  /** Enqueue adds at most one row, pending and under an id never used. */
  lemma EnqueueGrows(t: Table, path: string, mtime: int, gap: nat)
    requires Valid(t)
    ensures var t' := SqlEnqueue(t, path, mtime, gap);
            && t.lastId <= t'.lastId
            && (forall id | id in t'.rows && id !in t.rows ::
              t.lastId < id <= t'.lastId && t'.rows[id].status == Pending)
            && forall id | id in t.rows :: id in t'.rows && t'.rows[id].status == t.rows[id].status
  {}

  lemma EnqueueKeepsBooks(t: Table, path: string, mtime: int, gap: nat, inserted: set<nat>, logged: set<nat>)
    requires Valid(t) && TableBooks(t, inserted, logged)
    ensures var t' := SqlEnqueue(t, path, mtime, gap);
            TableBooks(t', inserted + t'.rows.Keys, logged) && WithStatus(t', Processing) == WithStatus(t, Processing)
  {
    EnqueueGrows(t, path, mtime, gap);
    GrowthKeepsBooks(t, SqlEnqueue(t, path, mtime, gap), inserted, logged);
  }

  lemma GrowthKeepsBooks(t: Table, t': Table, inserted: set<nat>, logged: set<nat>)
    requires TableBooks(t, inserted, logged) && t.lastId <= t'.lastId
    requires forall id | id in t'.rows && id !in t.rows :: t.lastId < id <= t'.lastId && t'.rows[id].status == Pending
    requires forall id | id in t.rows :: id in t'.rows && t'.rows[id].status == t.rows[id].status
    ensures TableBooks(t', inserted + t'.rows.Keys, logged) && WithStatus(t', Processing) == WithStatus(t, Processing)
  {}

  lemma DequeueKeepsTableBooks(t: Table, inserted: set<nat>, logged: set<nat>)
    requires TableBooks(t, inserted, logged)
    ensures var (t', e) := SqlDequeue(t);
            && TableBooks(t', inserted, logged) && t'.rows.Keys == t.rows.Keys
            && (e.None? ==> t' == t)
            && (e.Some? ==>
                  e.value.id !in logged && WithStatus(t', Processing) == WithStatus(t, Processing) + {e.value.id})
  {}

  lemma DequeueKeepsBooks(t: Table, processed: nat, inserted: set<nat>, logged: set<nat>, crashes: nat)
    requires BooksOf(t, Polling, processed, inserted, logged, crashes)
    ensures
      var (t', e) := SqlDequeue(t);
      BooksOf(t', if e.Some? then Holding(e.value) else Polling, processed, inserted, logged, crashes)
  {
    DequeueKeepsTableBooks(t, inserted, logged);
    hide TableBooks, SqlDequeue, WithStatus;
  }

  lemma AppendKeepsBooks(t: Table, e: Entry, processed: nat, inserted: set<nat>, logged: set<nat>, crashes: nat)
    requires BooksOf(t, Holding(e), processed, inserted, logged, crashes) && HasRow(t, e.id, e.path, Processing)
    ensures BooksOf(t, Appended(e), processed + 1, inserted, logged + {e.id}, crashes)
  {}

  lemma RemoveKeepsBooks(t: Table, e: Entry, processed: nat, inserted: set<nat>, logged: set<nat>, crashes: nat)
    requires BooksOf(t, Appended(e), processed, inserted, logged, crashes) && HasRow(t, e.id, e.path, Processing)
    ensures SqlRemove(t, e.id).1 == Done
    ensures BooksOf(SqlRemove(t, e.id).0, Polling, processed, inserted, logged, crashes)
  {
    var t' := SqlRemove(t, e.id).0;
    assert e.id in WithStatus(t, Processing);
    assert WithStatus(t', Processing) == WithStatus(t, Processing) - {e.id};
  }

  /** A step that neither inserts nor logs nor touches the table: the worker may give up or, in a crash, start over. */
  lemma QuietKeepsBooks(t: Table, w: Worker, w': Worker, processed: nat, inserted: set<nat>, logged: set<nat>,
      crashes: nat, crashes': nat)
    requires BooksOf(t, w, processed, inserted, logged, crashes)
    requires w' == w || w' == WorkerGone || w' == Polling
    requires crashes' + InHand(w') >= crashes + InHand(w)
    ensures BooksOf(t, w', processed, inserted, logged, crashes')
  {}

  lemma StepKeepsBooks(s: State, step: Step, inserted: set<nat>, logged: set<nat>, crashes: nat)
    requires Inv(s) && Books(s, inserted, logged, crashes)
    ensures
      var s' := Apply(s, step);
      Books(s', inserted + s'.queue.rows.Keys, logged + LoggedRow(s, step), crashes + if step.Crash? then 1 else 0)
  {
    LogStep(s, step);
    StepShape(s, step);
    var t, w, n := s.queue, s.worker, CountProcessed(s.log);
    if EnqueuedPath(s, step).None? {
      NothingNew(s, step, inserted, logged, crashes);
    }
    hide Apply, Valid, TableBooks, WithStatus, SqlEnqueue, SqlRemove;
    if EnqueuedPath(s, step).Some? {
      EnqueueKeepsBooks(t, EnqueuedPath(s, step).value, step.mtime, step.gap, inserted, logged);
      assert logged + {} == logged;
    } else if step == WorkerDequeue(true) && w == Polling {
      DequeueKeepsBooks(t, n, inserted, logged, crashes);
      assert logged + {} == logged;
    } else if step == WorkerAppend(true) && w.Holding? {
      AppendKeepsBooks(t, w.entry, n, inserted, logged, crashes);
    } else if step == WorkerRemove(true) && w.Appended? {
      RemoveKeepsBooks(t, w.entry, n, inserted, logged, crashes);
      assert logged + {} == logged;
    } else {
      QuietKeepsBooks(t, w, WorkerAfter(s, step), n, inserted, logged, crashes, crashes + if step.Crash? then 1 else 0);
      assert logged + {} == logged;
    }
  }

  /** Only Enqueue brings new ids. */
  lemma NothingNew(s: State, step: Step, inserted: set<nat>, logged: set<nat>, crashes: nat)
    requires Books(s, inserted, logged, crashes) && EnqueuedPath(s, step).None?
    ensures inserted + QueueAfter(s, step).rows.Keys == inserted
  {}

  lemma BooksNext(s: State, steps: seq<Step>, n: nat)
    requires 0 < n <= |steps| && Inv(At(s, steps, n - 1))
    requires Books(At(s, steps, n - 1), Inserted(s, steps, n - 1), Logged(s, steps, n - 1), Crashes(steps, n - 1))
    ensures Books(At(s, steps, n), Inserted(s, steps, n), Logged(s, steps, n), Crashes(steps, n))
  {
    StepKeepsBooks(At(s, steps, n - 1), steps[n - 1], Inserted(s, steps, n - 1), Logged(s, steps, n - 1),
      Crashes(steps, n - 1));
  }

  lemma BooksAtStart(interval: int, steps: seq<Step>)
    ensures Books(At(Init(interval), steps, 0), Inserted(Init(interval), steps, 0), Logged(Init(interval), steps, 0),
      Crashes(steps, 0))
  {
    assert WithStatus(EMPTY, Processing) == {};
  }

  lemma {:induction false} BooksAlongRun(interval: int, steps: seq<Step>, n: nat)
    requires n <= |steps|
    ensures Books(At(Init(interval), steps, n), Inserted(Init(interval), steps, n), Logged(Init(interval), steps, n),
      Crashes(steps, n))
  {
    if n > 0 {
      BooksAlongRun(interval, steps, n - 1);
      RunKeepsInv(Init(interval), steps, n - 1);
      BooksNext(Init(interval), steps, n);
    } else {
      BooksAtStart(interval, steps);
    }
  }

  /**
   The books of every run from an empty database. Rows inserted are rows removed plus rows
   pending plus rows processing; at most one row per crash is in processing beyond the one in
   hand; and the processed events count the removed rows and those logged but not removed.
   */
  lemma RowsAndLogAgree(interval: int, steps: seq<Step>, n: nat)
    requires n <= |steps|
    ensures var s, inserted := At(Init(interval), steps, n), Inserted(Init(interval), steps, n);
            var removed, logged := inserted - s.queue.rows.Keys, Logged(Init(interval), steps, n);
            && |inserted| == |removed| + |WithStatus(s.queue, Pending)| + |WithStatus(s.queue, Processing)|
            && |WithStatus(s.queue, Processing)| <= Crashes(steps, n) + 1
            && CountProcessed(s.log) == |removed| + |logged * WithStatus(s.queue, Processing)|
  {
    BooksAlongRun(interval, steps, n);
    BooksBalance(At(Init(interval), steps, n), Inserted(Init(interval), steps, n), Logged(Init(interval), steps, n),
      Crashes(steps, n));
  }

  lemma BooksBalance(s: State, inserted: set<nat>, logged: set<nat>, crashes: nat)
    requires Books(s, inserted, logged, crashes)
    ensures var removed := inserted - s.queue.rows.Keys;
            && |inserted| == |removed| + |WithStatus(s.queue, Pending)| + |WithStatus(s.queue, Processing)|
            && |WithStatus(s.queue, Processing)| <= crashes + 1
            && CountProcessed(s.log) == |removed| + |logged * WithStatus(s.queue, Processing)|
  {
    Balance(inserted, logged, s.queue);
    hide TableBooks, WithStatus;
  }

  lemma Balance(inserted: set<nat>, logged: set<nat>, t: Table)
    requires TableBooks(t, inserted, logged)
    ensures
      var removed := inserted - t.rows.Keys;
      && |inserted| == |removed| + |WithStatus(t, Pending)| + |WithStatus(t, Processing)|
      && |logged| == |removed| + |logged * WithStatus(t, Processing)|
  {
    var removed := inserted - t.rows.Keys;
    assert t.rows.Keys == WithStatus(t, Pending) + WithStatus(t, Processing);
    assert inserted == removed + t.rows.Keys;
    LoggedSplits(inserted, logged, t);
  }

  lemma LoggedSplits(inserted: set<nat>, logged: set<nat>, t: Table)
    requires TableBooks(t, inserted, logged)
    ensures |logged| == |inserted - t.rows.Keys| + |logged * WithStatus(t, Processing)|
  {
    assert logged == (inserted - t.rows.Keys) + (logged * WithStatus(t, Processing));
  }

  lemma {:induction false} InsertedGrows(s: State, steps: seq<Step>, m: nat, n: nat)
    requires m <= n <= |steps|
    ensures Inserted(s, steps, m) <= Inserted(s, steps, n)
    ensures At(s, steps, n).queue.rows.Keys <= Inserted(s, steps, n)
  {
    if m < n {
      InsertedGrows(s, steps, m, n - 1);
    }
  }

  /** An id once used and gone never names a row again. */
  lemma {:induction false} IdsAreNeverReused(interval: int, steps: seq<Step>, m: nat, n: nat, id: nat)
    requires m <= n <= |steps|
    requires id in Inserted(Init(interval), steps, m) && id !in At(Init(interval), steps, m).queue.rows
    ensures id !in At(Init(interval), steps, n).queue.rows
  {
    if m < n {
      IdsAreNeverReused(interval, steps, m, n - 1, id);
      InsertedGrows(Init(interval), steps, m, n - 1);
      InsertedIdsAreUsed(interval, steps, n - 1, id);
      NewRowsAreFresh(At(Init(interval), steps, n - 1), steps[n - 1], id);
    }
  }

  lemma InsertedIdsAreUsed(interval: int, steps: seq<Step>, n: nat, id: nat)
    requires n <= |steps| && id in Inserted(Init(interval), steps, n)
    ensures id <= At(Init(interval), steps, n).queue.lastId
  {
    BooksAlongRun(interval, steps, n);
  }

  lemma NewRowsAreFresh(s: State, step: Step, id: nat)
    requires id !in s.queue.rows && id <= s.queue.lastId
    ensures id !in Apply(s, step).queue.rows
  {
    match step
    case CallbackEnqueue(_, _, _, _) =>
    case HttpEnqueue(_, _, _, _) =>
    case WorkerDequeue(_) =>
    case WorkerRemove(_) =>
    case _ =>
  }
}

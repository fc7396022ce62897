/**
 Whether a dequeued entry carries the modification time of the last Enqueue of its path.
 It need not: a second row of the path can be inserted and handed out while the first
 is still processing, and re-enqueueing the first then offers its old time.
 */
module QueueFreshness {
  import opened Wrappers
  import opened QueueTable
  import opened AbstractQueue

  /** For each path: which row its last Enqueue wrote, and the time it carried. */
  datatype History = History(writer: map<string, nat>, latest: map<string, int>)

  const NO_HISTORY := History(map[], map[])

  function WrittenRow(t: Table, path: string, gap: nat): nat {
    match FindPending(t.rows, path, None, t.lastId)
    case Some(id) => id
    case None => t.lastId + 1 + gap
  }

  function Record(h: History, t: Table, op: Op): History {
    match op
    case Enq(path, mtime, gap) => History(h.writer[path := WrittenRow(t, path, gap)], h.latest[path := mtime])
    case _ => h
  }

  function RecordAll(h: History, t: Table, ops: seq<Op>): History
    decreases |ops|
  {
    if ops == [] then h else RecordAll(Record(h, t, ops[0]), Exec(t, ops[0]).0, ops[1..])
  }

  predicate IsLatest(h: History, row: Row) {
    row.path in h.latest && h.latest[row.path] == row.mtime
  }

  predicate IsWriter(h: History, id: nat, path: string) {
    path in h.writer && h.writer[path] == id
  }

  /* ---------- any run, under a clock that moves between two Enqueue calls of a path ---------- */

  predicate ClockAdvances(h: History, op: Op) {
    op.Enq? && op.path in h.latest ==> h.latest[op.path] < op.mtime
  }

  ghost predicate ClockAdvancesAlong(h: History, t: Table, ops: seq<Op>)
    decreases |ops|
  {
    ops == [] || (ClockAdvances(h, ops[0]) && ClockAdvancesAlong(Record(h, t, ops[0]), Exec(t, ops[0]).0, ops[1..]))
  }

  /** A row is up to date exactly when it is the one its path's last Enqueue wrote. */
  ghost predicate FreshIffWriter(t: Table, h: History) {
    forall id | id in t.rows ::
      && t.rows[id].path in h.latest
      && t.rows[id].mtime <= h.latest[t.rows[id].path]
      && (IsLatest(h, t.rows[id]) <==> IsWriter(h, id, t.rows[id].path))
  }

  lemma StepFreshIffWriter(t: Table, h: History, op: Op)
    requires Valid(t) && FreshIffWriter(t, h) && ClockAdvances(h, op)
    ensures FreshIffWriter(Exec(t, op).0, Record(h, t, op))
  {
    if op.Enq? {
      EnqueueFreshIffWriter(t, h, op.path, op.mtime, op.gap);
    } else {
      assert forall id | id in Exec(t, op).0.rows ::
          id in t.rows && Exec(t, op).0.rows[id].path == t.rows[id].path
            && Exec(t, op).0.rows[id].mtime == t.rows[id].mtime;
      hide Exec;
    }
  }

  lemma EnqueueFreshIffWriter(t: Table, h: History, path: string, mtime: int, gap: nat)
    requires Valid(t) && FreshIffWriter(t, h) && ClockAdvances(h, Enq(path, mtime, gap))
    ensures FreshIffWriter(SqlEnqueue(t, path, mtime, gap), Record(h, t, Enq(path, mtime, gap)))
  {
    EnqueueWrites(t, path, mtime, gap);
    hide SqlEnqueue, WrittenRow, Valid;
  }

  /** Over every run from empty: what is in the table is current exactly for the last-written rows. */
  lemma {:induction false} FreshExactlyWhenWriter(t: Table, h: History, ops: seq<Op>)
    requires Valid(t) && FreshIffWriter(t, h) && ClockAdvancesAlong(h, t, ops)
    ensures Valid(Run(t, ops).0) && FreshIffWriter(Run(t, ops).0, RecordAll(h, t, ops))
    decreases |ops|
  {
    if ops != [] {
      ExecKeepsValid(t, ops[0]);
      StepFreshIffWriter(t, h, ops[0]);
      FreshExactlyWhenWriter(Exec(t, ops[0]).0, Record(h, t, ops[0]), ops[1..]);
    }
  }

  lemma ExecKeepsValid(t: Table, op: Op)
    requires Valid(t)
    ensures Valid(Exec(t, op).0)
  {
    match op
    case Enq(path, mtime, gap) => EnqueueKeepsValid(t, path, mtime, gap);
    case Deq => DequeueKeepsValid(t);
    case ReEnq(id) => ReEnqueueKeepsValid(t, id);
    case Rem(id) => RemoveKeepsValid(t, id);
  }

  /** So the next Dequeue is current if and only if the row it will pick is its path's last-written one. */
  lemma DequeueIsCurrentIff(ops: seq<Op>)
    requires ClockAdvancesAlong(NO_HISTORY, EMPTY, ops)
    requires SqlDequeue(Run(EMPTY, ops).0).1.Some?
    ensures var e := SqlDequeue(Run(EMPTY, ops).0).1.value;
            var h := RecordAll(NO_HISTORY, EMPTY, ops);
            e.path in h.latest && (e.mtime == h.latest[e.path] <==> IsWriter(h, e.id, e.path))
  {
    FreshExactlyWhenWriter(EMPTY, NO_HISTORY, ops);
  }

  /** The tables of the example below: one row, then two, of the same path. */
  function One(p: string, s: Status): Table {
    Table(map[1 := Row(p, 1, 1, s)], 1)
  }

  function Two(p: string, position1: int, s1: Status, s2: Status): Table {
    Table(map[1 := Row(p, 1, position1, s1), 2 := Row(p, 2, 2, s2)], 2)
  }

  lemma ExampleFirstRow(p: string)
    ensures Exec(EMPTY, Enq(p, 1, 0)).0 == One(p, Pending) && WrittenRow(EMPTY, p, 0) == 1
    ensures Exec(One(p, Pending), Deq).0 == One(p, Processing)
  {
    assert IsPending(One(p, Pending).rows, 1);
  }

  lemma ExampleSecondRow(p: string)
    ensures Exec(One(p, Processing), Enq(p, 2, 0)).0 == Two(p, 1, Processing, Pending)
    ensures WrittenRow(One(p, Processing), p, 0) == 2
    ensures Exec(Two(p, 1, Processing, Pending), Deq).0 == Two(p, 1, Processing, Processing)
  {
    assert MaxPosition(One(p, Processing).rows, 1) == Some(1);
    assert IsPending(Two(p, 1, Processing, Pending).rows, 2);
  }

  lemma ExampleReEnqueue(p: string)
    ensures Exec(Two(p, 1, Processing, Processing), ReEnq(1)).0 == Two(p, 3, Pending, Processing)
    ensures SqlDequeue(Two(p, 3, Pending, Processing)).1 == Some(Entry(1, p, 1))
  {
    assert 2 in Two(p, 1, Processing, Processing).rows;
    assert MaxPosition(Two(p, 1, Processing, Processing).rows, 2) == Some(2);
    assert IsPending(Two(p, 3, Pending, Processing).rows, 1);
  }

  function StaleRun(p: string): seq<Op> {
    [Enq(p, 1, 0), Deq, Enq(p, 2, 0), Deq, ReEnq(1)]
  }

  /** Two rows of one path in processing, the older re-enqueued: the stale time 1 is handed out after Enqueue with 2. */
  lemma StaleExample(p: string)
    ensures ClockAdvancesAlong(NO_HISTORY, EMPTY, StaleRun(p))
    ensures RecordAll(NO_HISTORY, EMPTY, StaleRun(p)).latest == map[p := 2]
    ensures SqlDequeue(Run(EMPTY, StaleRun(p)).0).1 == Some(Entry(1, p, 1))
  {
    ExampleFirstRow(p);
    ExampleTail(p);
    ExampleReEnqueue(p);
    assert StaleRun(p)[1..] == [Deq] + StaleTail(p) && ([Deq] + StaleTail(p))[1..] == StaleTail(p);
    hide Exec, SqlDequeue, Two, One, Run, RecordAll, ClockAdvancesAlong, StaleTail, FindPending;
    Unroll(One(p, Pending), History(map[p := 1], map[p := 1]), [Deq] + StaleTail(p));
    Unroll(EMPTY, NO_HISTORY, StaleRun(p));
  }

  function StaleTail(p: string): seq<Op> {
    [Enq(p, 2, 0), Deq, ReEnq(1)]
  }

  lemma ExampleTail(p: string)
    ensures Run(One(p, Processing), StaleTail(p)).0 == Two(p, 3, Pending, Processing)
    ensures var h := History(map[p := 1], map[p := 1]);
            && ClockAdvancesAlong(h, One(p, Processing), StaleTail(p))
            && RecordAll(h, One(p, Processing), StaleTail(p)) == History(map[p := 2], map[p := 2])
  {
    ExampleSecondRow(p);
    ExampleReEnqueue(p);
    var h1, h2 := History(map[p := 1], map[p := 1]), History(map[p := 2], map[p := 2]);
    assert StaleTail(p)[1..] == [Deq, ReEnq(1)] && [Deq, ReEnq(1)][1..] == [ReEnq(1)];
    hide Exec, SqlDequeue, Two, One, FindPending;
    Unroll(Two(p, 1, Processing, Processing), h2, [ReEnq(1)]);
    Unroll(Two(p, 1, Processing, Pending), h2, [Deq, ReEnq(1)]);
    Unroll(One(p, Processing), h1, StaleTail(p));
  }

  lemma Unroll(t: Table, h: History, ops: seq<Op>)
    requires ops != []
    ensures Run(t, ops).0 == Run(Exec(t, ops[0]).0, ops[1..]).0
    ensures RecordAll(h, t, ops) == RecordAll(Record(h, t, ops[0]), Exec(t, ops[0]).0, ops[1..])
    ensures ClockAdvancesAlong(h, t, ops) <==>
            ClockAdvances(h, ops[0]) && ClockAdvancesAlong(Record(h, t, ops[0]), Exec(t, ops[0]).0, ops[1..])
  {}

  /* ---------- any run, whatever the clock, the workers and the rows left in processing ---------- */

  ghost predicate PendingIsLatest(t: Table, h: History) {
    forall id: nat | IsPending(t.rows, id) :: IsLatest(h, t.rows[id])
  }

  /** A re-enqueue that succeeds is aimed at a row that still carries its path's newest time. */
  predicate ReEnqueuesLatest(t: Table, h: History, op: Op) {
    op.ReEnq? && SqlReEnqueue(t, op.id).1 == Done ==> IsLatest(h, t.rows[op.id])
  }

  /** Exactly the successful re-enqueue of a stale row makes a pending row stale. */
  lemma StaysLatestIff(t: Table, h: History, op: Op)
    requires Valid(t) && PendingIsLatest(t, h)
    ensures PendingIsLatest(Exec(t, op).0, Record(h, t, op)) <==> ReEnqueuesLatest(t, h, op)
  {
    match op
    case Enq(path, mtime, gap) => EnqueueWrites(t, path, mtime, gap);
    case Deq =>
    case Rem(_) =>
    case ReEnq(id) => if SqlReEnqueue(t, id).1 == Done { ReEnqueueStaysLatestIff(t, h, id); }
  }

  lemma ReEnqueueStaysLatestIff(t: Table, h: History, id: nat)
    requires PendingIsLatest(t, h) && SqlReEnqueue(t, id).1 == Done
    ensures PendingIsLatest(SqlReEnqueue(t, id).0, h) <==> IsLatest(h, t.rows[id])
  {
    var t' := SqlReEnqueue(t, id).0;
    assert IsPending(t'.rows, id) && (IsLatest(h, t'.rows[id]) <==> IsLatest(h, t.rows[id]));
    assert forall k: nat | IsPending(t'.rows, k) && k != id :: IsPending(t.rows, k) && t'.rows[k] == t.rows[k];
  }

  ghost predicate LatestThroughout(t: Table, h: History, ops: seq<Op>)
    decreases |ops|
  {
    PendingIsLatest(t, h) && (ops != [] ==> LatestThroughout(Exec(t, ops[0]).0, Record(h, t, ops[0]), ops[1..]))
  }

  ghost predicate ReEnqueuesLatestAlong(t: Table, h: History, ops: seq<Op>)
    decreases |ops|
  {
    ops != [] ==>
      && ReEnqueuesLatest(t, h, ops[0])
      && ReEnqueuesLatestAlong(Exec(t, ops[0]).0, Record(h, t, ops[0]), ops[1..])
  }

  /**
   Over every run: the pending rows carry the newest times throughout if and only if no successful re-enqueue
   is aimed at a stale row.
   */
  lemma {:induction false} LatestThroughoutIff(t: Table, h: History, ops: seq<Op>)
    requires Valid(t) && PendingIsLatest(t, h)
    ensures LatestThroughout(t, h, ops) <==> ReEnqueuesLatestAlong(t, h, ops)
    decreases |ops|
  {
    if ops != [] {
      StaysLatestIff(t, h, ops[0]);
      ExecKeepsValid(t, ops[0]);
      if ReEnqueuesLatest(t, h, ops[0]) {
        LatestThroughoutIff(Exec(t, ops[0]).0, Record(h, t, ops[0]), ops[1..]);
      }
    }
  }

  /** And then every delivery carries the time of the last Enqueue of its path. */
  lemma {:induction false} DeliveriesAreLatest(t: Table, h: History, ops: seq<Op>, i: nat)
    requires Valid(t) && PendingIsLatest(t, h) && ReEnqueuesLatestAlong(t, h, ops)
    requires i < |ops| && Run(t, ops).1[i].Delivered? && Run(t, ops).1[i].entry.Some?
    ensures
      var e := Run(t, ops).1[i].entry.value;
      var h' := RecordAll(h, t, ops[..i]);
      e.path in h'.latest && e.mtime == h'.latest[e.path]
    decreases |ops|
  {
    ExecKeepsValid(t, ops[0]);
    StaysLatestIff(t, h, ops[0]);
    if i > 0 {
      assert ops[..i][1..] == ops[1..][..i - 1];
      DeliveriesAreLatest(Exec(t, ops[0]).0, Record(h, t, ops[0]), ops[1..], i - 1);
    } else {
      assert Run(t, ops).1[0] == Exec(t, ops[0]).1;
      assert RecordAll(h, t, ops[..0]) == h;
    }
  }

  lemma {:induction false} NoReEnqueueIsFine(t: Table, h: History, ops: seq<Op>)
    requires forall op | op in ops :: !op.ReEnq?
    ensures ReEnqueuesLatestAlong(t, h, ops)
    decreases |ops|
  {
    if ops != [] {
      assert ops[0] in ops;
      NoReEnqueueIsFine(Exec(t, ops[0]).0, Record(h, t, ops[0]), ops[1..]);
    }
  }

  /**
   Coalescing keeps the newest time. In every run from empty without ReEnqueue, which the daemon never calls, with any
   number of workers, restarts and rows stranded in processing: every delivery carries the newest time.
   */
  lemma WithoutReEnqueueGetsLatest(ops: seq<Op>, i: nat)
    requires forall op | op in ops :: !op.ReEnq?
    requires i < |ops| && Run(EMPTY, ops).1[i].Delivered? && Run(EMPTY, ops).1[i].entry.Some?
    ensures
      var e := Run(EMPTY, ops).1[i].entry.value;
      var h := RecordAll(NO_HISTORY, EMPTY, ops[..i]);
      e.path in h.latest && e.mtime == h.latest[e.path]
  {
    NoReEnqueueIsFine(EMPTY, NO_HISTORY, ops);
    DeliveriesAreLatest(EMPTY, NO_HISTORY, ops, i);
  }

  /** Enqueue writes one row, the pending one of its path, and leaves the others alone. */
  lemma EnqueueWrites(t: Table, path: string, mtime: int, gap: nat)
    requires Valid(t)
    ensures
      var w, t' := WrittenRow(t, path, gap), SqlEnqueue(t, path, mtime, gap);
      && IsPending(t'.rows, w) && t'.rows[w].path == path && t'.rows[w].mtime == mtime
      && (forall id | id in t'.rows && id != w :: id in t.rows && t'.rows[id] == t.rows[id])
      && (forall id: nat | IsPending(t.rows, id) && t.rows[id].path == path :: id == w)
  {}

  /* ---------- one worker that re-enqueues what it holds ---------- */

  /**
   The rows in `stranded`, left in processing by earlier workers, are never re-enqueued; besides these, Dequeue
   finds nothing in hand, and only what was dequeued is removed or re-enqueued.
   */
  ghost predicate SingleWorker(t: Table, op: Op, stranded: set<nat>) {
    match op
    case Deq => forall id | id in t.rows && t.rows[id].status == Processing :: id in stranded
    case ReEnq(id) => id !in stranded && (id in t.rows ==> t.rows[id].status == Processing)
    case Rem(id) => id in t.rows ==> t.rows[id].status == Processing
    case Enq(_, _, _) => true
  }

  ghost predicate SingleWorkerAlong(t: Table, ops: seq<Op>, stranded: set<nat>)
    decreases |ops|
  {
    ops == [] || (SingleWorker(t, ops[0], stranded) && SingleWorkerAlong(Exec(t, ops[0]).0, ops[1..], stranded))
  }

  ghost predicate HasPending(t: Table, path: string) {
    exists id :: IsPending(t.rows, id) && t.rows[id].path == path
  }

  /** Pending rows are current; a processing row is current, stranded, or superseded by a pending one. */
  ghost predicate PendingIsCurrent(t: Table, h: History, stranded: set<nat>) {
    forall id | id in t.rows ::
      || IsLatest(h, t.rows[id])
      || (t.rows[id].status == Processing && (id in stranded || HasPending(t, t.rows[id].path)))
  }

  /** A stale row stays as it is, and the row that supersedes it stays pending. */
  lemma StaleRowStays(t: Table, h: History, op: Op, id: nat, stranded: set<nat>)
    requires Valid(t) && PendingIsCurrent(t, h, stranded) && SingleWorker(t, op, stranded)
    requires id in t.rows && !IsLatest(h, t.rows[id])
    ensures id in stranded || HasPending(Exec(t, op).0, t.rows[id].path)
    ensures id in Exec(t, op).0.rows ==> Exec(t, op).0.rows[id] == t.rows[id]
  {
    if id !in stranded {
      var other :| IsPending(t.rows, other) && t.rows[other].path == t.rows[id].path;
      assert op.ReEnq? && op.id == id ==> FindPending(t.rows, t.rows[id].path, Some(id), t.lastId).Some?;
      assert IsPending(Exec(t, op).0.rows, other) && Exec(t, op).0.rows[other].path == t.rows[id].path;
    }
  }

  lemma StepPendingIsCurrent(t: Table, h: History, op: Op, stranded: set<nat>)
    requires Valid(t) && PendingIsCurrent(t, h, stranded) && SingleWorker(t, op, stranded)
    ensures PendingIsCurrent(Exec(t, op).0, Record(h, t, op), stranded)
  {
    forall id | id in t.rows && !IsLatest(h, t.rows[id])
      ensures id in stranded || HasPending(Exec(t, op).0, t.rows[id].path)
      ensures id in Exec(t, op).0.rows ==> Exec(t, op).0.rows[id] == t.rows[id]
    {
      StaleRowStays(t, h, op, id, stranded);
    }
    if op.Enq? {
      EnqueuePendingIsCurrent(t, h, op.path, op.mtime, op.gap, stranded);
    } else {
      var t' := Exec(t, op).0;
      assert forall id | id in t'.rows ::
        id in t.rows && t'.rows[id].path == t.rows[id].path && t'.rows[id].mtime == t.rows[id].mtime;
      hide Exec, Valid, HasPending;
    }
  }

  lemma EnqueuePendingIsCurrent(t: Table, h: History, path: string, mtime: int, gap: nat, stranded: set<nat>)
    requires Valid(t) && PendingIsCurrent(t, h, stranded)
    requires forall id | id in t.rows && !IsLatest(h, t.rows[id]) ::
               id in stranded || HasPending(SqlEnqueue(t, path, mtime, gap), t.rows[id].path)
    ensures PendingIsCurrent(SqlEnqueue(t, path, mtime, gap), Record(h, t, Enq(path, mtime, gap)), stranded)
  {
    var w, t' := WrittenRow(t, path, gap), SqlEnqueue(t, path, mtime, gap);
    EnqueueWrites(t, path, mtime, gap);
    assert HasPending(t', path);
    hide SqlEnqueue, WrittenRow, Valid, HasPending;
  }

  /** Such a worker never succeeds in re-enqueueing a stale row: the row that supersedes it is in the way. */
  lemma {:induction false} SingleWorkerReEnqueuesLatest(t: Table, h: History, ops: seq<Op>, stranded: set<nat>)
    requires Valid(t) && PendingIsCurrent(t, h, stranded) && SingleWorkerAlong(t, ops, stranded)
    ensures ReEnqueuesLatestAlong(t, h, ops)
    decreases |ops|
  {
    if ops != [] {
      ExecKeepsValid(t, ops[0]);
      StepPendingIsCurrent(t, h, ops[0], stranded);
      NoStaleReEnqueue(t, h, ops[0], stranded);
      hide Valid, PendingIsCurrent, SingleWorker, ReEnqueuesLatest;
      SingleWorkerReEnqueuesLatest(Exec(t, ops[0]).0, Record(h, t, ops[0]), ops[1..], stranded);
    }
  }

  lemma NoStaleReEnqueue(t: Table, h: History, op: Op, stranded: set<nat>)
    requires Valid(t) && PendingIsCurrent(t, h, stranded) && SingleWorker(t, op, stranded)
    ensures ReEnqueuesLatest(t, h, op)
  {
    if op.ReEnq? && op.id in t.rows && !IsLatest(h, t.rows[op.id]) {
      assert HasPending(t, t.rows[op.id].path);
    }
  }

  /** So its deliveries, too, always carry the newest time. */
  lemma SingleWorkerGetsLatest(t: Table, h: History, ops: seq<Op>, stranded: set<nat>, i: nat)
    requires Valid(t) && PendingIsCurrent(t, h, stranded) && SingleWorkerAlong(t, ops, stranded)
    requires i < |ops| && Run(t, ops).1[i].Delivered? && Run(t, ops).1[i].entry.Some?
    ensures
      var e := Run(t, ops).1[i].entry.value;
      var h' := RecordAll(h, t, ops[..i]);
      e.path in h'.latest && e.mtime == h'.latest[e.path]
  {
    SingleWorkerReEnqueuesLatest(t, h, ops, stranded);
    assert PendingIsLatest(t, h);
    DeliveriesAreLatest(t, h, ops, i);
  }
}

/**
 The queue the documentation promises: a FIFO sequence of pending entries, and the
 entries handed out but not yet removed. The table of QueueTable refines it over every
 run, and the waiting bound is proved on the sequence.
 */
module AbstractQueue {
  import opened Wrappers
  import opened QueueTable

  datatype Model = Model(pending: seq<Entry>, processing: map<nat, Entry>, lastId: nat)

  const NOTHING := Model([], map[], 0)

  function IndexOfPath(q: seq<Entry>, path: string): (r: Option<nat>)
    ensures r.Some? ==> r.value < |q| && q[r.value].path == path
    ensures r.None? ==> forall i | 0 <= i < |q| :: q[i].path != path
  {
    if q == [] then None
    else if q[|q| - 1].path == path then Some(|q| - 1)
    else IndexOfPath(q[..|q| - 1], path)
  }

  function IndexOfId(q: seq<Entry>, id: nat): (r: Option<nat>)
    ensures r.Some? ==> r.value < |q| && q[r.value].id == id
    ensures r.None? ==> forall i | 0 <= i < |q| :: q[i].id != id
  {
    if q == [] then None
    else if q[|q| - 1].id == id then Some(|q| - 1)
    else IndexOfId(q[..|q| - 1], id)
  }

  function Without(q: seq<Entry>, i: nat): (r: seq<Entry>)
    requires i < |q|
    ensures |r| == |q| - 1
    ensures forall j | 0 <= j < |r| :: r[j] == if j < i then q[j] else q[j + 1]
  {
    seq(|q| - 1, j requires 0 <= j < |q| - 1 => if j < i then q[j] else q[j + 1])
  }

  /* ---------- operations and replies ---------- */

  datatype Op =
    | Enq(path: string, mtime: int, gap: nat)
    | Deq
    | ReEnq(id: nat)
    | Rem(id: nat)

  datatype Reply = Accepted | Delivered(entry: Option<Entry>) | Ended(outcome: Outcome)

  function Exec(t: Table, op: Op): (Table, Reply) {
    match op
    case Enq(path, mtime, gap) => (SqlEnqueue(t, path, mtime, gap), Accepted)
    case Deq => var (t', e) := SqlDequeue(t); (t', Delivered(e))
    case ReEnq(id) => var (t', o) := SqlReEnqueue(t, id); (t', Ended(o))
    case Rem(id) => var (t', o) := SqlRemove(t, id); (t', Ended(o))
  }

  function ExecModel(m: Model, op: Op): (Model, Reply) {
    match op
    case Enq(path, mtime, gap) => (
      match IndexOfPath(m.pending, path)
      case Some(i) => (m.(pending := m.pending[i := m.pending[i].(mtime := mtime)]), Accepted)
      case None =>
        var id := m.lastId + 1 + gap;
        (m.(pending := m.pending + [Entry(id, path, mtime)], lastId := id), Accepted))
    case Deq =>
      if m.pending == [] then (m, Delivered(None))
      else
        var e := m.pending[0];
        (m.(pending := m.pending[1..], processing := m.processing[e.id := e]), Delivered(Some(e)))
    case ReEnq(id) => (
      if id in m.processing then
        var e := m.processing[id];
        if IndexOfPath(m.pending, e.path).Some? then (m, Ended(UniqueViolation))
        else (m.(pending := m.pending + [e], processing := m.processing - {id}), Ended(Done))
      else
        match IndexOfId(m.pending, id)
        case None => (m, Ended(NoSuchRow))
        case Some(i) => (m.(pending := Without(m.pending, i) + [m.pending[i]]), Ended(Done)))
    case Rem(id) => (
      if id in m.processing then (m.(processing := m.processing - {id}), Ended(Done))
      else
        match IndexOfId(m.pending, id)
        case None => (m, Ended(NoSuchRow))
        case Some(i) => (m.(pending := Without(m.pending, i)), Ended(Done)))
  }

  function Run(t: Table, ops: seq<Op>): (r: (Table, seq<Reply>))
    ensures |r.1| == |ops|
    decreases |ops|
  {
    if ops == [] then (t, [])
    else
      var (t1, reply) := Exec(t, ops[0]);
      var (t2, replies) := Run(t1, ops[1..]);
      (t2, [reply] + replies)
  }

  function RunModel(m: Model, ops: seq<Op>): (r: (Model, seq<Reply>))
    ensures |r.1| == |ops|
    decreases |ops|
  {
    if ops == [] then (m, [])
    else
      var (m1, reply) := ExecModel(m, ops[0]);
      var (m2, replies) := RunModel(m1, ops[1..]);
      (m2, [reply] + replies)
  }

  /* ---------- the refinement relation ---------- */

  /** The row of entry e, with status s. */
  ghost predicate Shows(t: Table, e: Entry, s: Status) {
    e.id in t.rows && t.rows[e.id].path == e.path && t.rows[e.id].mtime == e.mtime && t.rows[e.id].status == s
  }

  ghost predicate Listed(q: seq<Entry>, id: nat) {
    exists i :: 0 <= i < |q| && q[i].id == id
  }

  /** `q` lists the pending rows, each once, by increasing position. */
  ghost predicate Lists(t: Table, q: seq<Entry>) {
    && (forall i | 0 <= i < |q| :: Shows(t, q[i], Pending))
    && (forall i, j | 0 <= i < j < |q| :: t.rows[q[i].id].position < t.rows[q[j].id].position)
    && (forall id: nat | IsPending(t.rows, id) :: Listed(q, id))
  }

  ghost predicate Refines(t: Table, m: Model) {
    && Valid(t)
    && t.lastId == m.lastId
    && Lists(t, m.pending)
    && Keeps(t, m.processing)
  }

  /** `processing` holds exactly the processing rows. */
  ghost predicate Keeps(t: Table, processing: map<nat, Entry>) {
    && (forall id | id in processing :: processing[id].id == id && Shows(t, processing[id], Processing))
    && (forall id | id in t.rows && t.rows[id].status == Processing :: id in processing)
  }

  lemma Assemble(t: Table, m: Model)
    requires Valid(t) && t.lastId == m.lastId && Lists(t, m.pending) && Keeps(t, m.processing)
    ensures Refines(t, m)
  {}

  /** The two tables have the same pending rows, row `id` aside. */
  ghost predicate SamePendingBut(t: Table, t': Table, id: nat) {
    forall k: nat | k != id ::
      (IsPending(t.rows, k) <==> IsPending(t'.rows, k)) && (IsPending(t.rows, k) ==> t'.rows[k] == t.rows[k])
  }

  /** The listed entry behind a pending row. */
  lemma FindListed(t: Table, q: seq<Entry>, id: nat) returns (i: nat)
    requires Lists(t, q) && IsPending(t.rows, id)
    ensures i < |q| && q[i].id == id && Shows(t, q[i], Pending)
  {
    assert Listed(q, id);
    i :| 0 <= i < |q| && q[i].id == id;
  }

  lemma InOrder(t: Table, q: seq<Entry>, i: nat, j: nat)
    requires Lists(t, q)
    ensures i < j < |q| ==>
      q[i].id in t.rows && q[j].id in t.rows && t.rows[q[i].id].position < t.rows[q[j].id].position
  {
    if i < j < |q| {
      assert Shows(t, q[i], Pending) && Shows(t, q[j], Pending);
    }
  }

  lemma NothingListed(t: Table)
    requires Lists(t, [])
    ensures forall id: nat :: !IsPending(t.rows, id)
  {
    assert forall id: nat :: !Listed([], id);
  }

  /** Dropping an entry from the list along with its row. */
  lemma Detach(t: Table, q: seq<Entry>, i: nat, t': Table)
    requires Lists(t, q) && i < |q|
    requires SamePendingBut(t, t', q[i].id) && !IsPending(t'.rows, q[i].id)
    ensures Lists(t', Without(q, i))
  {
    var w := Without(q, i);
    forall j | 0 <= j < |w| ensures Shows(t', w[j], Pending) && t'.rows[w[j].id] == t.rows[w[j].id] {
      var was := if j < i then j else j + 1;
      assert w[j] == q[was] && Shows(t, q[was], Pending);
      assert IsPending(t.rows, q[was].id) && q[was].id != q[i].id;
    }
    forall id: nat | IsPending(t'.rows, id) ensures Listed(w, id) {
      var k := FindListed(t, q, id);
      assert w[if k < i then k else k - 1].id == id;
    }
  }

  /** Adding an entry at the back along with a row placed behind all pending ones. */
  lemma Attach(t: Table, q: seq<Entry>, e: Entry, t': Table)
    requires Lists(t, q) && !IsPending(t.rows, e.id)
    requires SamePendingBut(t, t', e.id) && Shows(t', e, Pending)
    requires forall k: nat | IsPending(t.rows, k) :: t.rows[k].position < t'.rows[e.id].position
    ensures Lists(t', q + [e])
  {
    var q' := q + [e];
    assert q'[|q|] == e;
    forall i | 0 <= i < |q|
      ensures Shows(t', q'[i], Pending) && t'.rows[q'[i].id] == t.rows[q'[i].id]
      ensures t'.rows[q'[i].id].position < t'.rows[e.id].position
    {
      assert q'[i] == q[i] && Shows(t, q[i], Pending);
      assert IsPending(t.rows, q[i].id);
    }
    forall id: nat | IsPending(t'.rows, id) ensures Listed(q', id) {
      if id != e.id {
        var k := FindListed(t, q, id);
        assert q'[k].id == id;
      }
    }
  }

  /** Rewriting the modification time of one listed row in place. */
  lemma Touch(t: Table, q: seq<Entry>, i: nat, mtime: int)
    requires Lists(t, q) && i < |q|
    requires q[i].id in t.rows
    ensures Lists(t.(rows := t.rows[q[i].id := t.rows[q[i].id].(mtime := mtime)]), q[i := q[i].(mtime := mtime)])
  {
    var t', q' := t.(rows := t.rows[q[i].id := t.rows[q[i].id].(mtime := mtime)]), q[i := q[i].(mtime := mtime)];
    forall j | 0 <= j < |q'|
      ensures Shows(t', q'[j], Pending) && t'.rows[q'[j].id].position == t.rows[q[j].id].position
    {
      assert Shows(t, q[j], Pending) && Shows(t, q[i], Pending);
    }
    forall id: nat | IsPending(t'.rows, id) ensures Listed(q', id) {
      assert Shows(t, q[i], Pending);
      assert IsPending(t.rows, id);
      var k := FindListed(t, q, id);
      assert q'[k].id == id;
    }
  }

  /** The pending entry of a path, found in the list exactly when in the table. */
  lemma SamePathFound(t: Table, q: seq<Entry>, path: string)
    requires Valid(t) && Lists(t, q)
    ensures IndexOfPath(q, path).Some? <==> exists id :: IsPending(t.rows, id) && t.rows[id].path == path
    ensures IndexOfPath(q, path).Some? ==> forall id | IsPending(t.rows, id) && t.rows[id].path == path ::
              id == q[IndexOfPath(q, path).value].id
  {
    var at := IndexOfPath(q, path);
    if at.Some? {
      assert Shows(t, q[at.value], Pending);
      assert IsPending(t.rows, q[at.value].id);
    }
    forall id | IsPending(t.rows, id) && t.rows[id].path == path ensures at.Some? {
      var k := FindListed(t, q, id);
    }
  }

  lemma SameIdFound(t: Table, q: seq<Entry>, id: nat)
    requires Lists(t, q)
    ensures IndexOfId(q, id).Some? <==> IsPending(t.rows, id)
    ensures IndexOfId(q, id).Some? ==> Shows(t, q[IndexOfId(q, id).value], Pending)
  {
    if IsPending(t.rows, id) {
      var k := FindListed(t, q, id);
    }
    if IndexOfId(q, id).Some? {
      assert Shows(t, q[IndexOfId(q, id).value], Pending);
    }
  }

  /* ---------- each statement refines its abstract operation ---------- */

  lemma EnqueueRefines(t: Table, m: Model, path: string, mtime: int, gap: nat)
    requires Refines(t, m)
    ensures Refines(SqlEnqueue(t, path, mtime, gap), ExecModel(m, Enq(path, mtime, gap)).0)
  {
    EnqueueKeepsValid(t, path, mtime, gap);
    EnqueueLists(t, m, path, mtime, gap);
    EnqueueKeeps(t, m.processing, path, mtime, gap);
    hide Lists, Keeps, Valid;
    Assemble(SqlEnqueue(t, path, mtime, gap), ExecModel(m, Enq(path, mtime, gap)).0);
  }

  lemma EnqueueKeeps(t: Table, processing: map<nat, Entry>, path: string, mtime: int, gap: nat)
    requires Valid(t) && Keeps(t, processing)
    ensures Keeps(SqlEnqueue(t, path, mtime, gap), processing)
  {
    if FindPending(t.rows, path, None, t.lastId).None? {
      assert t.lastId + 1 + gap !in t.rows;
    }
    hide Valid, FindPending, NextPosition;
  }

  lemma EnqueueLists(t: Table, m: Model, path: string, mtime: int, gap: nat)
    requires Valid(t) && Lists(t, m.pending) && t.lastId == m.lastId
    ensures Lists(SqlEnqueue(t, path, mtime, gap), ExecModel(m, Enq(path, mtime, gap)).0.pending)
    ensures SqlEnqueue(t, path, mtime, gap).lastId == ExecModel(m, Enq(path, mtime, gap)).0.lastId
  {
    if FindPending(t.rows, path, None, t.lastId).Some? {
      UpdateTouches(t, m.pending, path, mtime, gap);
      hide Lists, Valid, SqlEnqueue, FindPending, IndexOfPath;
    } else {
      InsertAttaches(t, m.pending, path, mtime, gap);
      hide Lists, Valid, SqlEnqueue, FindPending, IndexOfPath;
    }
  }

  lemma UpdateTouches(t: Table, q: seq<Entry>, path: string, mtime: int, gap: nat)
    requires Valid(t) && Lists(t, q)
    requires FindPending(t.rows, path, None, t.lastId).Some?
    ensures SqlEnqueue(t, path, mtime, gap).lastId == t.lastId
    ensures
      var at := IndexOfPath(q, path);
      at.Some? && Lists(SqlEnqueue(t, path, mtime, gap), q[at.value := q[at.value].(mtime := mtime)])
  {
    SamePathFound(t, q, path);
    hide Lists;
    Touch(t, q, IndexOfPath(q, path).value, mtime);
  }

  lemma InsertAttaches(t: Table, q: seq<Entry>, path: string, mtime: int, gap: nat)
    requires Valid(t) && Lists(t, q)
    requires FindPending(t.rows, path, None, t.lastId).None?
    ensures IndexOfPath(q, path).None? && SqlEnqueue(t, path, mtime, gap).lastId == t.lastId + 1 + gap
    ensures Lists(SqlEnqueue(t, path, mtime, gap), q + [Entry(t.lastId + 1 + gap, path, mtime)])
  {
    SamePathFound(t, q, path);
    hide Lists;
    Attach(t, q, Entry(t.lastId + 1 + gap, path, mtime), SqlEnqueue(t, path, mtime, gap));
  }

  lemma DequeueRefines(t: Table, m: Model)
    requires Refines(t, m)
    ensures Delivered(SqlDequeue(t).1) == ExecModel(m, Deq).1
    ensures Refines(SqlDequeue(t).0, ExecModel(m, Deq).0)
  {
    if m.pending == [] {
      NothingListed(t);
      hide Lists, Keeps, Valid;
    } else {
      DequeueKeepsValid(t);
      HeadIsFirst(t, m.pending);
      PopHead(t, m.pending);
      PopKeeps(t, m);
      hide Lists, Keeps, Valid;
      Assemble(SqlDequeue(t).0, ExecModel(m, Deq).0);
    }
  }

  lemma PopKeeps(t: Table, m: Model)
    requires Keeps(t, m.processing) && m.pending != []
    requires FirstPending(t.rows, t.lastId) == Some(m.pending[0].id) && Shows(t, m.pending[0], Pending)
    ensures Keeps(SqlDequeue(t).0, ExecModel(m, Deq).0.processing)
  {}

  lemma PopHead(t: Table, q: seq<Entry>)
    requires Valid(t) && Lists(t, q) && q != []
    ensures Lists(SqlDequeue(t).0, q[1..])
  {
    HeadIsFirst(t, q);
    assert q[1..] == Without(q, 0);
    Detach(t, q, 0, SqlDequeue(t).0);
  }

  lemma HeadIsFirst(t: Table, q: seq<Entry>)
    requires Valid(t) && Lists(t, q) && q != []
    ensures FirstPending(t.rows, t.lastId) == Some(q[0].id) && Shows(t, q[0], Pending)
  {
    assert Shows(t, q[0], Pending);
    assert IsPending(t.rows, q[0].id) && q[0].id <= t.lastId;
    var first := FirstPending(t.rows, t.lastId);
    assert first.Some?;
    var k := FindListed(t, q, first.value);
    InOrder(t, q, 0, k);
  }

  lemma RemoveRefines(t: Table, m: Model, id: nat)
    requires Refines(t, m)
    ensures Ended(SqlRemove(t, id).1) == ExecModel(m, Rem(id)).1
    ensures Refines(SqlRemove(t, id).0, ExecModel(m, Rem(id)).0)
  {
    RemoveKeepsValid(t, id);
    SameIdFound(t, m.pending, id);
    RemoveLists(t, m, id);
    RemoveKeeps(t, m, id);
    hide Lists, Keeps, Valid;
    Assemble(SqlRemove(t, id).0, ExecModel(m, Rem(id)).0);
  }

  lemma RemoveKeeps(t: Table, m: Model, id: nat)
    requires Keeps(t, m.processing)
    ensures Keeps(SqlRemove(t, id).0, ExecModel(m, Rem(id)).0.processing)
  {}

  lemma RemoveLists(t: Table, m: Model, id: nat)
    requires Lists(t, m.pending) && Keeps(t, m.processing)
    ensures Lists(SqlRemove(t, id).0, ExecModel(m, Rem(id)).0.pending)
  {
    SameIdFound(t, m.pending, id);
    if id in m.processing {
      assert Shows(t, m.processing[id], Processing);
      hide Lists;
      SamePending(t, m.pending, SqlRemove(t, id).0);
    } else if IsPending(t.rows, id) {
      hide Lists;
      Detach(t, m.pending, IndexOfId(m.pending, id).value, SqlRemove(t, id).0);
    }
  }

  lemma SamePending(t: Table, q: seq<Entry>, t': Table)
    requires Lists(t, q)
    requires forall k: nat | IsPending(t.rows, k) || IsPending(t'.rows, k) ::
               IsPending(t.rows, k) && IsPending(t'.rows, k) && t'.rows[k] == t.rows[k]
    ensures Lists(t', q)
  {
    forall i | 0 <= i < |q| ensures Shows(t', q[i], Pending) && t'.rows[q[i].id] == t.rows[q[i].id] {
      assert Shows(t, q[i], Pending);
      assert IsPending(t.rows, q[i].id);
    }
  }

  lemma ReEnqueueRefines(t: Table, m: Model, id: nat)
    requires Refines(t, m)
    ensures Ended(SqlReEnqueue(t, id).1) == ExecModel(m, ReEnq(id)).1
    ensures Refines(SqlReEnqueue(t, id).0, ExecModel(m, ReEnq(id)).0)
  {
    SameIdFound(t, m.pending, id);
    if id in m.processing {
      ReEnqueueProcessingRefines(t, m, id);
    } else if IsPending(t.rows, id) {
      ReEnqueuePendingRefines(t, m, id);
    }
  }

  lemma ReEnqueueProcessingRefines(t: Table, m: Model, id: nat)
    requires Refines(t, m) && id in m.processing
    ensures Ended(SqlReEnqueue(t, id).1) == ExecModel(m, ReEnq(id)).1
    ensures Refines(SqlReEnqueue(t, id).0, ExecModel(m, ReEnq(id)).0)
  {
    var t', m', e := SqlReEnqueue(t, id).0, ExecModel(m, ReEnq(id)).0, m.processing[id];
    ReEnqueueKeepsValid(t, id);
    assert Shows(t, e, Processing);
    SamePathFound(t, m.pending, e.path);
    if FindPending(t.rows, e.path, Some(id), t.lastId).None? {
      BackAttaches(t, m.pending, e);
      assert Keeps(t', m'.processing);
      Assemble(t', m');
    }
  }

  /** A processing row that goes back to pending joins the list at the back. */
  lemma BackAttaches(t: Table, q: seq<Entry>, e: Entry)
    requires Valid(t) && Lists(t, q) && Shows(t, e, Processing)
    requires FindPending(t.rows, e.path, Some(e.id), t.lastId).None?
    ensures IndexOfPath(q, e.path).None?
    ensures Lists(SqlReEnqueue(t, e.id).0, q + [e])
  {
    SamePathFound(t, q, e.path);
    hide Lists;
    Attach(t, q, e, SqlReEnqueue(t, e.id).0);
  }

  lemma ReEnqueuePendingRefines(t: Table, m: Model, id: nat)
    requires Refines(t, m) && id !in m.processing && IsPending(t.rows, id)
    ensures Ended(SqlReEnqueue(t, id).1) == ExecModel(m, ReEnq(id)).1
    ensures Refines(SqlReEnqueue(t, id).0, ExecModel(m, ReEnq(id)).0)
  {
    var t', m' := SqlReEnqueue(t, id).0, ExecModel(m, ReEnq(id)).0;
    ReEnqueueKeepsValid(t, id);
    SameIdFound(t, m.pending, id);
    MoveToBack(t, m.pending, IndexOfId(m.pending, id).value);
    MoveKeeps(t, m.processing, id);
    hide Lists, Valid, Keeps, SqlReEnqueue;
    Assemble(t', m');
  }

  lemma MoveKeeps(t: Table, processing: map<nat, Entry>, id: nat)
    requires Keeps(t, processing) && IsPending(t.rows, id)
    ensures Keeps(SqlReEnqueue(t, id).0, processing) && SqlReEnqueue(t, id).0.lastId == t.lastId
  {
    hide FindPending, NextPosition;
  }

  lemma MoveToBack(t: Table, q: seq<Entry>, i: nat)
    requires Valid(t) && Lists(t, q) && i < |q| && Shows(t, q[i], Pending)
    ensures SqlReEnqueue(t, q[i].id).1 == Done
    ensures Lists(SqlReEnqueue(t, q[i].id).0, Without(q, i) + [q[i]])
  {
    var id := q[i].id;
    assert FindPending(t.rows, t.rows[id].path, Some(id), t.lastId).None?;
    var bare := t.(rows := t.rows - {id});
    Detach(t, q, i, bare);
    hide Lists;
    Attach(bare, Without(q, i), q[i], SqlReEnqueue(t, id).0);
  }

  lemma ExecRefines(t: Table, m: Model, op: Op)
    requires Refines(t, m)
    ensures Exec(t, op).1 == ExecModel(m, op).1
    ensures Refines(Exec(t, op).0, ExecModel(m, op).0)
  {
    match op
    case Enq(path, mtime, gap) => EnqueueRefines(t, m, path, mtime, gap);
    case Deq => DequeueRefines(t, m);
    case ReEnq(id) => ReEnqueueRefines(t, m, id);
    case Rem(id) => RemoveRefines(t, m, id);
  }

  /**
   The queue table refines the abstract queue: over every run, from any refined pair,
   all replies agree and the pending rows sorted by position are the abstract sequence.
   */
  lemma {:induction false} RunRefines(t: Table, m: Model, ops: seq<Op>)
    requires Refines(t, m)
    ensures Run(t, ops).1 == RunModel(m, ops).1
    ensures Refines(Run(t, ops).0, RunModel(m, ops).0)
    decreases |ops|
  {
    if ops != [] {
      ExecRefines(t, m, ops[0]);
      RunRefines(Exec(t, ops[0]).0, ExecModel(m, ops[0]).0, ops[1..]);
    }
  }

  lemma RunFromEmptyRefines(ops: seq<Op>)
    ensures Refines(Run(EMPTY, ops).0, RunModel(NOTHING, ops).0)
    ensures Run(EMPTY, ops).1 == RunModel(NOTHING, ops).1
  {
    RunRefines(EMPTY, NOTHING, ops);
  }

  /** The table fixes the sequence: there is only one way to list the pending rows. */
  lemma {:induction false} ListingIsUnique(t: Table, q1: seq<Entry>, q2: seq<Entry>)
    requires Valid(t) && Lists(t, q1) && Lists(t, q2)
    ensures q1 == q2
  {
    var n := if |q1| <= |q2| then |q1| else |q2|;
    CommonPrefix(t, q1, q2, n);
    if |q1| <= |q2| {
      NoLongerListing(t, q1, q2);
    } else {
      NoLongerListing(t, q2, q1);
    }
  }

  lemma {:induction false} CommonPrefix(t: Table, q1: seq<Entry>, q2: seq<Entry>, n: nat)
    requires Valid(t) && Lists(t, q1) && Lists(t, q2) && n <= |q1| && n <= |q2|
    ensures q1[..n] == q2[..n]
  {
    if n > 0 {
      CommonPrefix(t, q1, q2, n - 1);
      assert forall x | 0 <= x < n - 1 :: q1[x] == q1[..n - 1][x] == q2[..n - 1][x] == q2[x];
      SameNext(t, q1, q2, n - 1);
      assert q1[..n] == q1[..n - 1] + [q1[n - 1]] && q2[..n] == q2[..n - 1] + [q2[n - 1]];
    }
  }

  lemma SameNext(t: Table, q1: seq<Entry>, q2: seq<Entry>, k: nat)
    requires Lists(t, q1) && Lists(t, q2) && k < |q1| && k < |q2|
    requires forall x | 0 <= x < k :: q1[x] == q2[x]
    ensures q1[k] == q2[k]
  {
    assert Shows(t, q1[k], Pending) && Shows(t, q2[k], Pending);
    var i := NextNotBefore(t, q1, q2, k);
    var j := NextNotBefore(t, q2, q1, k);
    InOrder(t, q2, k, i);
    InOrder(t, q1, k, j);
  }

  /** After a common prefix of length k, the k-th entry of one listing is not in the prefix of the other. */
  lemma NextNotBefore(t: Table, q1: seq<Entry>, q2: seq<Entry>, k: nat) returns (i: nat)
    requires Lists(t, q1) && Lists(t, q2) && k < |q1| && k < |q2|
    requires forall x | 0 <= x < k :: q1[x] == q2[x]
    ensures k <= i < |q2| && q2[i].id == q1[k].id
  {
    assert Shows(t, q1[k], Pending) && IsPending(t.rows, q1[k].id);
    i := FindListed(t, q2, q1[k].id);
    InOrder(t, q1, i, k);
  }

  lemma NoLongerListing(t: Table, q1: seq<Entry>, q2: seq<Entry>)
    requires Lists(t, q1) && Lists(t, q2) && |q1| <= |q2| && q1 == q2[..|q1|]
    ensures |q1| == |q2|
  {
    if |q1| < |q2| {
      var id := q2[|q1|].id;
      assert Shows(t, q2[|q1|], Pending) && IsPending(t.rows, id);
      forall k | 0 <= k < |q1| ensures q1[k].id != id {
        InOrder(t, q2, k, |q1|);
        assert q1[k] == q2[k];
      }
    }
  }
}

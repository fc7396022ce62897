/**
 How long a pending row waits. Its rank is its index in the abstract sequence; the
 bound is proved there and carried to the table by the refinement.
 */
module QueueWaiting {
  import opened Wrappers
  import opened QueueTable
  import opened AbstractQueue

  /** What the Dequeue calls of a run returned, in order. */
  function Deliveries(replies: seq<Reply>): seq<Option<Entry>> {
    if replies == [] then []
    else if replies[0].Delivered? then [replies[0].entry] + Deliveries(replies[1..])
    else Deliveries(replies[1..])
  }

  predicate Targets(op: Op, id: nat) {
    op == ReEnq(id) || op == Rem(id)
  }

  /** Along the run, row `id` is not removed or re-enqueued as long as it is pending. */
  ghost predicate Undisturbed(m: Model, ops: seq<Op>, id: nat)
    decreases |ops|
  {
    ops == [] || (
      && (Listed(m.pending, id) ==> !Targets(ops[0], id))
      && Undisturbed(ExecModel(m, ops[0]).0, ops[1..], id))
  }

  /** Along the run, only rows that are not pending are removed or re-enqueued. */
  ghost predicate OnlyProcessingTargeted(m: Model, ops: seq<Op>)
    decreases |ops|
  {
    ops == [] || (
      && (forall id: nat | Listed(m.pending, id) :: !Targets(ops[0], id))
      && OnlyProcessingTargeted(ExecModel(m, ops[0]).0, ops[1..]))
  }

  ghost predicate DistinctIds(m: Model) {
    && (forall i, j | 0 <= i < j < |m.pending| :: m.pending[i].id != m.pending[j].id)
    && (forall i | 0 <= i < |m.pending| :: m.pending[i].id !in m.processing && m.pending[i].id <= m.lastId)
    && (forall id | id in m.processing :: m.processing[id].id == id <= m.lastId)
  }

  lemma RefinedIdsAreDistinct(t: Table, m: Model)
    requires Refines(t, m)
    ensures DistinctIds(m)
  {
    forall i | 0 <= i < |m.pending| ensures m.pending[i].id !in m.processing && m.pending[i].id <= m.lastId {
      assert Shows(t, m.pending[i], Pending);
    }
    forall id | id in m.processing ensures m.processing[id].id == id <= m.lastId {
      assert Shows(t, m.processing[id], Processing);
    }
  }

  /**
   One operation never pushes an undisturbed entry back: a Dequeue delivers it or moves
   it one place forward, anything else leaves its rank or lowers it.
   */
  lemma RankNeverGrows(m: Model, op: Op, k: nat) returns (k': nat)
    requires DistinctIds(m) && k < |m.pending| && !Targets(op, m.pending[k].id)
    ensures op.Deq? && k == 0 ==> ExecModel(m, op).1 == Delivered(Some(m.pending[0]))
    ensures !(op.Deq? && k == 0) ==>
              && k' < |ExecModel(m, op).0.pending|
              && ExecModel(m, op).0.pending[k'].id == m.pending[k].id
              && ExecModel(m, op).0.pending[k'].path == m.pending[k].path
              && (if op.Deq? then k' == k - 1 else k' <= k)
    ensures !op.Deq? && (forall id: nat | Listed(m.pending, id) :: !Targets(op, id)) ==> k' == k
    ensures op.Deq? ==> ExecModel(m, op).1.entry == Some(m.pending[0])
  {
    k' := k;
    match op
    case Deq => if k > 0 { k' := k - 1; }
    case Enq(_, _, _) =>
    case ReEnq(id) => k' := RankAfterLeaving(m, id, k);
    case Rem(id) => k' := RankAfterLeaving(m, id, k);
  }

  /** The rank of entry k once another entry, pending or not, has left its place. */
  lemma RankAfterLeaving(m: Model, id: nat, k: nat) returns (k': nat)
    requires DistinctIds(m) && k < |m.pending| && m.pending[k].id != id
    ensures var at := IndexOfId(m.pending, id);
            if id in m.processing || at.None? then k' == k
            else
              && k' <= k && k' < |m.pending| - 1
              && Without(m.pending, at.value)[k'] == m.pending[k]
              && Listed(m.pending, id)
  {
    var at := IndexOfId(m.pending, id);
    k' := if id !in m.processing && at.Some? && at.value < k then k - 1 else k;
    assert at.Some? ==> Listed(m.pending, id);
  }

  lemma DistinctIdsKept(m: Model, op: Op)
    requires DistinctIds(m)
    ensures DistinctIds(ExecModel(m, op).0)
  {
    match op
    case Enq(path, _, gap) => if IndexOfPath(m.pending, path).None? { DistinctAfterAppend(m, m.lastId + 1 + gap); }
    case Deq =>
    case ReEnq(id) =>
      if id in m.processing {
        DistinctAfterReturn(m, id);
      } else if IndexOfId(m.pending, id).Some? {
        DistinctAfterMove(m, IndexOfId(m.pending, id).value);
      }
    case Rem(id) => DistinctAfterRemove(m, id);
  }

  lemma DistinctAfterReturn(m: Model, id: nat)
    requires DistinctIds(m) && id in m.processing
    ensures DistinctIds(m.(pending := m.pending + [m.processing[id]], processing := m.processing - {id}))
  {}

  lemma DistinctAfterRemove(m: Model, id: nat)
    requires DistinctIds(m)
    ensures DistinctIds(ExecModel(m, Rem(id)).0)
  {}

  lemma DistinctAfterAppend(m: Model, id: nat)
    requires DistinctIds(m) && m.lastId < id
    ensures forall e: Entry | e.id == id :: DistinctIds(m.(pending := m.pending + [e], lastId := id))
  {}

  lemma DistinctAfterMove(m: Model, i: nat)
    requires DistinctIds(m) && i < |m.pending|
    ensures DistinctIds(m.(pending := Without(m.pending, i) + [m.pending[i]]))
  {}

  function ModelDeliveries(m: Model, ops: seq<Op>): seq<Option<Entry>> {
    Deliveries(RunModel(m, ops).1)
  }

  lemma DeliveriesStep(m: Model, ops: seq<Op>)
    requires ops != []
    ensures var rest := ModelDeliveries(ExecModel(m, ops[0]).0, ops[1..]);
            ModelDeliveries(m, ops) == if ops[0].Deq? then [ExecModel(m, ops[0]).1.entry] + rest else rest
  {
    assert RunModel(m, ops).1[1..] == RunModel(ExecModel(m, ops[0]).0, ops[1..]).1;
  }

  lemma {:induction false} ModelWaiting(m: Model, ops: seq<Op>, k: nat) returns (j: nat)
    requires DistinctIds(m) && k < |m.pending| && Undisturbed(m, ops, m.pending[k].id)
    requires k < |ModelDeliveries(m, ops)|
    ensures j <= k && ModelDeliveries(m, ops)[j].Some?
    ensures ModelDeliveries(m, ops)[j].value.id == m.pending[k].id
    ensures ModelDeliveries(m, ops)[j].value.path == m.pending[k].path
    ensures OnlyProcessingTargeted(m, ops) ==> j == k
    decreases |ops|
  {
    DeliveriesStep(m, ops);
    assert Listed(m.pending, m.pending[k].id);
    var k' := RankNeverGrows(m, ops[0], k);
    if ops[0].Deq? && k == 0 {
      j := 0;
    } else {
      DistinctIdsKept(m, ops[0]);
      hide DistinctIds, ExecModel, ModelDeliveries;
      j := ModelWaiting(ExecModel(m, ops[0]).0, ops[1..], k');
      j := if ops[0].Deq? then j + 1 else j;
    }
  }

  lemma {:induction false} OnlyProcessingIsUndisturbed(m: Model, ops: seq<Op>, id: nat)
    requires OnlyProcessingTargeted(m, ops)
    ensures Undisturbed(m, ops, id)
    decreases |ops|
  {
    if ops != [] {
      OnlyProcessingIsUndisturbed(ExecModel(m, ops[0]).0, ops[1..], id);
    }
  }

  /** A row of rank k that is left alone while pending is returned by one of the next k+1 Dequeue calls. */
  lemma BoundedWaiting(t: Table, m: Model, ops: seq<Op>, k: nat)
    requires Refines(t, m) && k < |m.pending| && Undisturbed(m, ops, m.pending[k].id)
    requires k < |Deliveries(Run(t, ops).1)|
    ensures exists j :: 0 <= j <= k && Deliveries(Run(t, ops).1)[j].Some? &&
                        Deliveries(Run(t, ops).1)[j].value.id == m.pending[k].id &&
                        Deliveries(Run(t, ops).1)[j].value.path == m.pending[k].path
  {
    RunRefines(t, m, ops);
    RefinedIdsAreDistinct(t, m);
    var j := ModelWaiting(m, ops, k);
  }

  /** When only processing rows are removed or re-enqueued, it is exactly the (k+1)th Dequeue. */
  lemma ExactWaiting(t: Table, m: Model, ops: seq<Op>, k: nat)
    requires Refines(t, m) && k < |m.pending| && OnlyProcessingTargeted(m, ops)
    requires k < |Deliveries(Run(t, ops).1)|
    ensures Deliveries(Run(t, ops).1)[k].Some?
    ensures Deliveries(Run(t, ops).1)[k].value.id == m.pending[k].id
    ensures Deliveries(Run(t, ops).1)[k].value.path == m.pending[k].path
  {
    RunRefines(t, m, ops);
    RefinedIdsAreDistinct(t, m);
    OnlyProcessingIsUndisturbed(m, ops, m.pending[k].id);
    var j := ModelWaiting(m, ops, k);
  }

  /**
   A row stranded in processing does not get in the way: whatever else the table holds, an Enqueue of a path leaves a
   pending row of that path of some rank k, which, left alone, one of the next k+1 Dequeue calls returns.
   */
  lemma EnqueuedIsDelivered(t: Table, m: Model, path: string, mtime: int, gap: nat, ops: seq<Op>)
    requires Refines(t, m)
    ensures
      var t', m' := Exec(t, Enq(path, mtime, gap)).0, ExecModel(m, Enq(path, mtime, gap)).0;
      var k := IndexOfPath(m'.pending, path);
      && Refines(t', m') && k.Some?
      && (Undisturbed(m', ops, m'.pending[k.value].id) && k.value < |Deliveries(Run(t', ops).1)| ==>
            exists j :: 0 <= j <= k.value && Deliveries(Run(t', ops).1)[j].Some?
              && Deliveries(Run(t', ops).1)[j].value.path == path)
  {
    var t', m' := Exec(t, Enq(path, mtime, gap)).0, ExecModel(m, Enq(path, mtime, gap)).0;
    EnqueueRefines(t, m, path, mtime, gap);
    EnqueuedIsListed(m, path, mtime, gap);
    var k := IndexOfPath(m'.pending, path).value;
    hide Refines, Exec, ExecModel, Undisturbed, Deliveries, Run;
    if Undisturbed(m', ops, m'.pending[k].id) && k < |Deliveries(Run(t', ops).1)| {
      BoundedWaiting(t', m', ops, k);
    }
  }

  lemma EnqueuedIsListed(m: Model, path: string, mtime: int, gap: nat)
    ensures IndexOfPath(ExecModel(m, Enq(path, mtime, gap)).0.pending, path).Some?
  {
    var q := ExecModel(m, Enq(path, mtime, gap)).0.pending;
    match IndexOfPath(m.pending, path)
    case Some(i) => assert q[i].path == path;
    case None => assert q[|m.pending|].path == path;
  }
}

/**
 The `queue` table and the four SQL statements of internal/queue/queue.go.

 A statement runs on the store's single connection, so it is one atomic step: a
 function from table to table. Full scans go through the rows in rowid order.
 */
module QueueTable {
  import opened Wrappers

  datatype Status = Pending | Processing

  datatype Row = Row(path: string, mtime: int, position: int, status: Status)

  /** What Dequeue hands to its caller. */
  datatype Entry = Entry(id: nat, path: string, mtime: int)

  /** `rows` is keyed by the primary key; `lastId` is the AUTOINCREMENT high-water mark. */
  datatype Table = Table(rows: map<nat, Row>, lastId: nat)

  const EMPTY := Table(map[], 0)

  /** How a statement that targets one id ends. */
  datatype Outcome = Done | NoSuchRow | UniqueViolation

  ghost predicate Valid(t: Table) {
    && (forall id | id in t.rows :: 1 <= id <= t.lastId && 1 <= t.rows[id].position)
    && DistinctPositions(t.rows)
    && UniquePendingPaths(t.rows)
  }

  ghost predicate DistinctPositions(rows: map<nat, Row>) {
    forall a, b | a in rows && b in rows && a != b :: rows[a].position != rows[b].position
  }

  /** The partial unique index on (file_path) WHERE status = 'pending'. */
  ghost predicate UniquePendingPaths(rows: map<nat, Row>) {
    forall a, b | a in rows && b in rows && rows[a].status == Pending && rows[b].status == Pending
      :: rows[a].path == rows[b].path ==> a == b
  }

  predicate IsPending(rows: map<nat, Row>, id: nat) {
    id in rows && rows[id].status == Pending
  }

  /* ---------- scans ---------- */

  /** MAX(position) over the rows with id at most n. */
  function MaxPosition(rows: map<nat, Row>, n: nat): (r: Option<int>)
    ensures r.None? <==> forall id | id in rows :: id > n
    ensures r.Some? ==> exists id :: id in rows && id <= n && rows[id].position == r.value
    ensures r.Some? ==> forall id | id in rows && id <= n :: rows[id].position <= r.value
  {
    var rest := if n == 0 then None else MaxPosition(rows, n - 1);
    if n in rows && (rest.None? || rest.value < rows[n].position) then Some(rows[n].position) else rest
  }

  /** COALESCE(MAX(position), 0) + 1 */
  function NextPosition(t: Table): (p: int)
    ensures Valid(t) ==> p >= 1 && forall id | id in t.rows :: t.rows[id].position < p
  {
    match MaxPosition(t.rows, t.lastId)
    case None => 1
    case Some(m) => m + 1
  }

  /** The pending row that conflicts on `path`, other than `skip`. */
  function FindPending(rows: map<nat, Row>, path: string, skip: Option<nat>, n: nat): (r: Option<nat>)
    ensures r.Some? ==> IsPending(rows, r.value) && rows[r.value].path == path && r != skip
    ensures r.None? ==> forall id: nat | id <= n && IsPending(rows, id) :: rows[id].path == path ==> skip == Some(id)
  {
    if IsPending(rows, n) && rows[n].path == path && skip != Some(n) then Some(n)
    else if n == 0 then None
    else FindPending(rows, path, skip, n - 1)
  }

  /** SELECT id WHERE status = 'pending' ORDER BY position ASC LIMIT 1 */
  function FirstPending(rows: map<nat, Row>, n: nat): (r: Option<nat>)
    ensures r.Some? ==> IsPending(rows, r.value) && r.value <= n
    ensures r.Some? ==> forall id: nat | id <= n && IsPending(rows, id) :: rows[r.value].position <= rows[id].position
    ensures r.None? <==> forall id: nat | id <= n :: !IsPending(rows, id)
  {
    var rest := if n == 0 then None else FirstPending(rows, n - 1);
    if IsPending(rows, n) && (rest.None? || rows[n].position < rows[rest.value].position) then Some(n) else rest
  }

  /* ---------- statements ---------- */

  /**
   INSERT ... ON CONFLICT(file_path) WHERE status = 'pending' DO UPDATE. A fresh id is
   any value above every id handed out before; `gap` is how many SQLite skips.
   */
  function SqlEnqueue(t: Table, path: string, mtime: int, gap: nat): Table {
    match FindPending(t.rows, path, None, t.lastId)
    case Some(id) => t.(rows := t.rows[id := t.rows[id].(mtime := mtime)])
    case None =>
      var id := t.lastId + 1 + gap;
      Table(t.rows[id := Row(path, mtime, NextPosition(t), Pending)], id)
  }

  function SqlDequeue(t: Table): (Table, Option<Entry>) {
    match FirstPending(t.rows, t.lastId)
    case None => (t, None)
    case Some(id) =>
      var row := t.rows[id];
      (t.(rows := t.rows[id := row.(status := Processing)]), Some(Entry(id, row.path, row.mtime)))
  }

  /** UPDATE ... WHERE id = ?: the status of the row is not checked; the unique index is. */
  function SqlReEnqueue(t: Table, id: nat): (Table, Outcome) {
    if id !in t.rows then (t, NoSuchRow)
    else if FindPending(t.rows, t.rows[id].path, Some(id), t.lastId).Some? then (t, UniqueViolation)
    else (t.(rows := t.rows[id := t.rows[id].(status := Pending, position := NextPosition(t))]), Done)
  }

  /** DELETE ... WHERE id = ?: the status of the row is not checked. */
  function SqlRemove(t: Table, id: nat): (Table, Outcome) {
    if id !in t.rows then (t, NoSuchRow) else (t.(rows := t.rows - {id}), Done)
  }

  /** Storing a row keeps the table valid when it breaks neither key. */
  lemma StoreKeepsValid(t: Table, id: nat, row: Row, lastId: nat)
    requires Valid(t) && 1 <= id <= lastId && t.lastId <= lastId && 1 <= row.position
    requires forall k | k in t.rows && k != id :: t.rows[k].position != row.position
    requires row.status == Pending ==> forall k: nat | IsPending(t.rows, k) && k != id :: t.rows[k].path != row.path
    ensures Valid(Table(t.rows[id := row], lastId))
  {
    var rows := t.rows[id := row];
    forall a, b | a in rows && b in rows && rows[a].status == Pending && rows[b].status == Pending
      && rows[a].path == rows[b].path
      ensures a == b
    {
      if a == id && b != id { assert IsPending(t.rows, b); }
      if b == id && a != id { assert IsPending(t.rows, a); }
    }
  }

  /** Every statement keeps the table valid, whatever row it is aimed at. */
  lemma EnqueueKeepsValid(t: Table, path: string, mtime: int, gap: nat)
    requires Valid(t)
    ensures Valid(SqlEnqueue(t, path, mtime, gap))
  {
    match FindPending(t.rows, path, None, t.lastId)
    case Some(id) => StoreKeepsValid(t, id, t.rows[id].(mtime := mtime), t.lastId);
    case None =>
      StoreKeepsValid(t, t.lastId + 1 + gap, Row(path, mtime, NextPosition(t), Pending), t.lastId + 1 + gap);
  }

  lemma DequeueKeepsValid(t: Table)
    requires Valid(t)
    ensures Valid(SqlDequeue(t).0)
  {
    match FirstPending(t.rows, t.lastId)
    case Some(id) => StoreKeepsValid(t, id, t.rows[id].(status := Processing), t.lastId);
    case None =>
  }

  lemma ReEnqueueKeepsValid(t: Table, id: nat)
    requires Valid(t)
    ensures Valid(SqlReEnqueue(t, id).0)
  {
    if SqlReEnqueue(t, id).1 == Done {
      StoreKeepsValid(t, id, t.rows[id].(status := Pending, position := NextPosition(t)), t.lastId);
    }
  }

  lemma RemoveKeepsValid(t: Table, id: nat)
    requires Valid(t)
    ensures Valid(SqlRemove(t, id).0)
  {}

  /**
   A conflicting re-enqueue loses nothing. For a processing row it is refused exactly when another pending row
   carries the same path; the table is then untouched, and deleting the processing row
   still leaves the path pending.
   */
  lemma ConflictIsLossless(t: Table, id: nat)
    requires Valid(t) && id in t.rows && t.rows[id].status == Processing
    ensures SqlReEnqueue(t, id).1 == UniqueViolation <==>
            exists other :: IsPending(t.rows, other) && t.rows[other].path == t.rows[id].path
    ensures SqlReEnqueue(t, id).1 == UniqueViolation ==>
              && SqlReEnqueue(t, id).0 == t
              && SqlRemove(t, id).1 == Done
              && exists other ::
                   IsPending(SqlRemove(t, id).0.rows, other) && SqlRemove(t, id).0.rows[other].path == t.rows[id].path
    ensures SqlReEnqueue(t, id).1 != UniqueViolation ==>
              && SqlReEnqueue(t, id).1 == Done
              && IsPending(SqlReEnqueue(t, id).0.rows, id)
              && forall other | IsPending(t.rows, other) ::
                t.rows[other].position < SqlReEnqueue(t, id).0.rows[id].position
  {
    var found := FindPending(t.rows, t.rows[id].path, Some(id), t.lastId);
    if found.Some? {
      assert IsPending(SqlRemove(t, id).0.rows, found.value);
    }
  }

  /* ---------- the Go type ---------- */

  datatype Error = DatabaseError | MissingRow

  /**
   queue.Queue. The table it owns is the database's; `dbOk` says whether the driver
   carries out the statement of this call, which the caller cannot foresee.
   */
  class Queue {
    var table: Table

    /** Over the table the database holds; `NewQueue` below is queue.New. */
    constructor (table: Table)
      ensures this.table == table
    {
      this.table := table;
    }

    method Enqueue(path: string, mtime: int, gap: nat, dbOk: bool) returns (err: Option<Error>)
      requires Valid(table)
      modifies this
      ensures Valid(table)
      ensures err == (if dbOk then None else Some(DatabaseError))
      ensures table == if dbOk then SqlEnqueue(old(table), path, mtime, gap) else old(table)
    {
      if !dbOk {
        return Some(DatabaseError);
      }
      EnqueueKeepsValid(table, path, mtime, gap);
      table := SqlEnqueue(table, path, mtime, gap);
      return None;
    }

    /** No row and no error when nothing is pending, as on sql.ErrNoRows. */
    method Dequeue(dbOk: bool) returns (entry: Option<Entry>, err: Option<Error>)
      requires Valid(table)
      modifies this
      ensures Valid(table)
      ensures err == (if dbOk then None else Some(DatabaseError))
      ensures entry == if dbOk then SqlDequeue(old(table)).1 else None
      ensures table == if dbOk then SqlDequeue(old(table)).0 else old(table)
    {
      if !dbOk {
        return None, Some(DatabaseError);
      }
      DequeueKeepsValid(table);
      var (after, row) := SqlDequeue(table);
      table := after;
      return row, None;
    }

    method ReEnqueue(id: nat, dbOk: bool) returns (err: Option<Error>)
      requires Valid(table)
      modifies this
      ensures Valid(table)
      ensures err.None? <==> dbOk && SqlReEnqueue(old(table), id).1 == Done
      ensures err == Some(MissingRow) <==> dbOk && id !in old(table).rows
      ensures table == if dbOk then SqlReEnqueue(old(table), id).0 else old(table)
    {
      if !dbOk {
        return Some(DatabaseError);
      }
      ReEnqueueKeepsValid(table, id);
      var (after, outcome) := SqlReEnqueue(table, id);
      table := after;
      match outcome
      case Done => return None;
      case NoSuchRow => return Some(MissingRow);
      case UniqueViolation => return Some(DatabaseError);
    }

    method Remove(id: nat, dbOk: bool) returns (err: Option<Error>)
      requires Valid(table)
      modifies this
      ensures Valid(table)
      ensures err.None? <==> dbOk && id in old(table).rows
      ensures err == Some(MissingRow) <==> dbOk && id !in old(table).rows
      ensures table == if dbOk then SqlRemove(old(table), id).0 else old(table)
    {
      if !dbOk {
        return Some(DatabaseError);
      }
      RemoveKeepsValid(table, id);
      var (after, outcome) := SqlRemove(table, id);
      table := after;
      return if outcome == Done then None else Some(MissingRow);
    }
  }

  /**
   queue.New over a database handle, nil or not, of whose four statements the first `prepared` can be prepared: the
   queue is over the table as it is, and there is none if the handle is nil or a statement fails to prepare.
   */
  method NewQueue(db: Option<Table>, prepared: nat) returns (q: Option<Queue>)
    ensures q.Some? <==> db.Some? && prepared >= 4
    ensures q.Some? ==> fresh(q.value) && q.value.table == db.value
  {
    if db.None? || prepared < 4 {
      return None;
    }
    var queue := new Queue(db.value);
    return Some(queue);
  }
}

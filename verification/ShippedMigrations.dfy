/**
 The ten migrations under internal/store/migrations, on the schema alone: tables with
 their columns, and indexes. Each down step inverts its up step, so the results of
 MigrationRuns hold of them. A failure that depends on rows, such as duplicates
 under a new unique index, is a fault there.
 */
module ShippedMigrations {
  import opened Wrappers
  import opened Migrations
  import opened MigrationRuns

  datatype TableName = Queue | EventLog | IndexCache | Metrics

  datatype Column =
    | Id | FilePath | Mtime | Status | CreatedAt | UpdatedAt | Position
    | EventType | Details | Timestamp | Hash | Data | MetricName | Value

  datatype IndexName = QueueFilePath | EventLogTimestamp | MetricsName | QueueFilePathPending | QueueStatusPosition

  datatype IndexDef = IndexDef(table: TableName, columns: set<Column>, unique: bool, pendingOnly: bool)

  datatype Schema = Schema(tables: map<TableName, set<Column>>, indexes: map<IndexName, IndexDef>)

  /** CREATE ... IF NOT EXISTS, DROP ... IF EXISTS, and ALTER TABLE. */
  datatype Statement =
    | CreateTable(table: TableName, columns: set<Column>)
    | DropTable(table: TableName)
    | AddColumn(table: TableName, column: Column)
    | DropColumn(table: TableName, column: Column)
    | CreateIndex(index: IndexName, def: IndexDef)
    | DropIndex(index: IndexName)

  type Script = seq<Statement>

  function ExecOne(statement: Statement, s: Schema): Option<Schema> {
    match statement
    case CreateTable(t, columns) => Some(if t in s.tables then s else s.(tables := s.tables[t := columns]))
    case DropTable(t) => Some(Schema(s.tables - {t}, map i | i in s.indexes && s.indexes[i].table != t :: s.indexes[i]))
    case AddColumn(t, c) =>
      if t in s.tables && c !in s.tables[t] then Some(s.(tables := s.tables[t := s.tables[t] + {c}])) else None
    case DropColumn(t, c) =>
      if t in s.tables && c in s.tables[t]
        && (forall i | i in s.indexes && s.indexes[i].table == t :: c !in s.indexes[i].columns)
      then Some(s.(tables := s.tables[t := s.tables[t] - {c}]))
      else None
    case CreateIndex(i, def) =>
      if i in s.indexes then Some(s)
      else if def.table in s.tables && def.columns <= s.tables[def.table] then Some(s.(indexes := s.indexes[i := def]))
      else None
    case DropIndex(i) => Some(s.(indexes := s.indexes - {i}))
  }

  function ExecScript(script: Script, s: Schema): Option<Schema> {
    if script == [] then Some(s)
    else
      match ExecOne(script[0], s)
      case None => None
      case Some(s') => ExecScript(script[1..], s')
  }

  function Columns(t: TableName): set<Column> {
    match t
    case Queue => {Id, FilePath, Mtime, Status, CreatedAt, UpdatedAt}
    case EventLog => {Id, EventType, FilePath, Details, Timestamp}
    case IndexCache => {FilePath, Mtime, Hash, Data}
    case Metrics => {Id, MetricName, Value, Timestamp}
  }

  function Def(i: IndexName): IndexDef {
    match i
    case QueueFilePath => IndexDef(Queue, {FilePath}, false, false)
    case EventLogTimestamp => IndexDef(EventLog, {Timestamp}, false, false)
    case MetricsName => IndexDef(Metrics, {MetricName}, false, false)
    case QueueFilePathPending => IndexDef(Queue, {FilePath}, true, true)
    case QueueStatusPosition => IndexDef(Queue, {Status, Position}, false, false)
  }

  function Shipped(): (ms: seq<Migration<Script>>)
    ensures |ms| == 10
  {
    [
      Migration(1, [CreateTable(Queue, Columns(Queue))], Some([DropTable(Queue)])),
      Migration(2, [CreateTable(EventLog, Columns(EventLog))], Some([DropTable(EventLog)])),
      Migration(3, [CreateTable(IndexCache, Columns(IndexCache))], Some([DropTable(IndexCache)])),
      Migration(4, [CreateTable(Metrics, Columns(Metrics))], Some([DropTable(Metrics)])),
      Migration(5, [CreateIndex(QueueFilePath, Def(QueueFilePath))], Some([DropIndex(QueueFilePath)])),
      Migration(6, [CreateIndex(EventLogTimestamp, Def(EventLogTimestamp))], Some([DropIndex(EventLogTimestamp)])),
      Migration(7, [CreateIndex(MetricsName, Def(MetricsName))], Some([DropIndex(MetricsName)])),
      Migration(8, [AddColumn(Queue, Position)], Some([DropColumn(Queue, Position)])),
      Migration(9, [DropIndex(QueueFilePath), CreateIndex(QueueFilePathPending, Def(QueueFilePathPending))],
                Some([DropIndex(QueueFilePathPending), CreateIndex(QueueFilePath, Def(QueueFilePath))])),
      Migration(10, [CreateIndex(QueueStatusPosition, Def(QueueStatusPosition))],
        Some([DropIndex(QueueStatusPosition)]))
    ]
  }

  const NO_SCHEMA := Schema(map[], map[])

  /** The migration that brings a table. */
  function Since(t: TableName): nat {
    match t case Queue => 1 case EventLog => 2 case IndexCache => 3 case Metrics => 4
  }

  /** Whether the index is there after k migrations. */
  predicate Live(i: IndexName, k: nat) {
    match i
    case QueueFilePath => 5 <= k < 9
    case EventLogTimestamp => 6 <= k
    case MetricsName => 7 <= k
    case QueueFilePathPending => 9 <= k
    case QueueStatusPosition => 10 <= k
  }

  /** The schema after the first k shipped migrations. */
  function After(k: nat): Schema {
    Schema(
      map t: TableName | Since(t) <= k :: if t == Queue && k >= 8 then Columns(t) + {Position} else Columns(t),
      map i: IndexName | Live(i, k) :: Def(i))
  }

  lemma ShippedIsSorted()
    ensures Sorted(Shipped())
  {}

  lemma One(statement: Statement, s: Schema)
    ensures ExecScript([statement], s) == ExecOne(statement, s)
  {
    assert [statement][1..] == [];
  }

  lemma Two(a: Statement, b: Statement, s: Schema)
    ensures ExecScript([a, b], s) == match ExecOne(a, s) case None => None case Some(s') => ExecOne(b, s')
  {
    assert [a, b][1..] == [b];
    if ExecOne(a, s).Some? {
      One(b, ExecOne(a, s).value);
    }
  }

  /** The statement takes one schema to another. */
  ghost predicate Does(statement: Statement, s: Schema, s': Schema) {
    var r := ExecOne(statement, s);
    r.Some? && r.value.tables == s'.tables && r.value.indexes == s'.indexes
  }

  lemma TableStep(t: TableName)
    ensures
      var k := Since(t);
      Does(CreateTable(t, Columns(t)), After(k - 1), After(k)) && Does(DropTable(t), After(k), After(k - 1))
  {}

  lemma IndexStep(i: IndexName, k: nat)
    requires k > 0 && k != 8 && k != 9 && !Live(i, k - 1) && Live(i, k)
    ensures Does(CreateIndex(i, Def(i)), After(k - 1), After(k)) && Does(DropIndex(i), After(k), After(k - 1))
  {
    IndexColumnsExist(i, k);
    hide Columns, Def;
  }

  lemma IndexColumnsExist(i: IndexName, k: nat)
    requires k > 0 && !Live(i, k - 1) && Live(i, k)
    ensures Def(i).table in After(k - 1).tables && Def(i).columns <= After(k - 1).tables[Def(i).table]
  {}

  lemma ColumnStep()
    ensures Does(AddColumn(Queue, Position), After(7), After(8))
      && Does(DropColumn(Queue, Position), After(8), After(7))
  {}

  /** Version 9 swaps one index of the queue for another. */
  lemma SwapStep()
    ensures
      var between := After(8).(indexes := After(8).indexes - {QueueFilePath});
      && Does(DropIndex(QueueFilePath), After(8), between)
      && Does(CreateIndex(QueueFilePathPending, Def(QueueFilePathPending)), between, After(9))
      && Does(DropIndex(QueueFilePathPending), After(9), between)
      && Does(CreateIndex(QueueFilePath, Def(QueueFilePath)), between, After(8))
  {}

  /** The one statement of the up block, and of the down block, of every version but 9. */
  lemma SingleStep(k: nat)
    requires k < 10 && k != 8
    ensures Does(Shipped()[k].up[0], After(k), After(k + 1)) && |Shipped()[k].up| == 1
    ensures Does(Shipped()[k].down.value[0], After(k + 1), After(k)) && |Shipped()[k].down.value| == 1
  {
    hide Does, After;
    match k
    case 0 => TableStep(Queue);
    case 1 => TableStep(EventLog);
    case 2 => TableStep(IndexCache);
    case 3 => TableStep(Metrics);
    case 4 => IndexStep(QueueFilePath, 5);
    case 5 => IndexStep(EventLogTimestamp, 6);
    case 6 => IndexStep(MetricsName, 7);
    case 7 => ColumnStep();
    case 9 => IndexStep(QueueStatusPosition, 10);
  }

  lemma UpStep(k: nat)
    requires k < 10
    ensures ExecScript(Shipped()[k].up, After(k)) == Some(After(k + 1))
  {
    var up := Shipped()[k].up;
    if k == 8 {
      SwapStep();
      assert up == [DropIndex(QueueFilePath), CreateIndex(QueueFilePathPending, Def(QueueFilePathPending))];
      hide After, ExecOne, Shipped;
      Two(up[0], up[1], After(k));
    } else {
      SingleStep(k);
      hide After, ExecOne, Shipped;
      assert up == [up[0]];
      One(up[0], After(k));
    }
  }

  lemma DownStep(k: nat)
    requires k < 10
    ensures ExecScript(Shipped()[k].down.value, After(k + 1)) == Some(After(k))
  {
    var down := Shipped()[k].down.value;
    if k == 8 {
      SwapStep();
      assert down == [DropIndex(QueueFilePathPending), CreateIndex(QueueFilePath, Def(QueueFilePath))];
      hide After, ExecOne, Shipped;
      Two(down[0], down[1], After(k + 1));
    } else {
      SingleStep(k);
      hide After, ExecOne, Shipped;
      assert down == [down[0]];
      One(down[0], After(k + 1));
    }
  }

  lemma {:induction false} UpToIsAfter(k: nat)
    requires k <= 10
    ensures UpTo(ExecScript, NO_SCHEMA, Shipped(), k) == Some(After(k))
  {
    if k == 0 {
      assert After(0) == NO_SCHEMA;
    } else {
      UpToIsAfter(k - 1);
      UpStep(k - 1);
      hide After, Shipped, ExecScript;
    }
  }

  /** Each shipped down block undoes its up block on the schema it is meant for. */
  lemma ShippedInverts()
    ensures Inverts(ExecScript, NO_SCHEMA, Shipped())
  {
    forall k | 0 <= k < 10 && Shipped()[k].down.Some?
      ensures ExecScript(Shipped()[k].down.value, After(k + 1)) == Some(After(k))
    {
      DownStep(k);
    }
    forall k | 0 <= k <= 10 ensures UpTo(ExecScript, NO_SCHEMA, Shipped(), k) == Some(After(k)) {
      UpToIsAfter(k);
    }
    hide After, Shipped, ExecScript;
  }

  /**
   From an empty database, whatever was migrated and rolled back before: a run without faults gives the
   schema of version 10.
   */
  lemma ShippedRestores(ops: seq<Op>)
    ensures
      Exec(ExecScript, Run(ExecScript, Db({}, NO_SCHEMA), Shipped(), ops), Shipped(), Migrate({})) ==
        (Db(Prefix(Shipped(), 10), After(10)), true)
  {
    ShippedIsSorted();
    ShippedInverts();
    UpToIsAfter(10);
    hide After, Shipped, ExecScript;
    RunRestores(ExecScript, NO_SCHEMA, Shipped(), ops);
  }

  /* ---------- the schemas, spelled out ---------- */

  /** The tables from version 8 on. */
  lemma FinalTables(k: nat)
    requires k >= 8
    ensures
      After(k).tables == map[
        Queue := {Id, FilePath, Mtime, Status, CreatedAt, UpdatedAt, Position},
        EventLog := {Id, EventType, FilePath, Details, Timestamp},
        IndexCache := {FilePath, Mtime, Hash, Data},
        Metrics := {Id, MetricName, Value, Timestamp}]
  {
    assert Columns(Queue) + {Position} == {Id, FilePath, Mtime, Status, CreatedAt, UpdatedAt, Position};
  }

  /** Until version 8 a path may be pending twice. */
  lemma VersionEight()
    ensures
      After(8).indexes == map[
        QueueFilePath := IndexDef(Queue, {FilePath}, false, false),
        EventLogTimestamp := IndexDef(EventLog, {Timestamp}, false, false),
        MetricsName := IndexDef(Metrics, {MetricName}, false, false)]
  {}

  /** In version 10 the file paths of the pending rows are unique, which is what QueueTable starts from. */
  lemma VersionTen()
    ensures
      After(10).indexes == map[
        QueueFilePathPending := IndexDef(Queue, {FilePath}, true, true),
        QueueStatusPosition := IndexDef(Queue, {Status, Position}, false, false),
        EventLogTimestamp := IndexDef(EventLog, {Timestamp}, false, false),
        MetricsName := IndexDef(Metrics, {MetricName}, false, false)]
  {}
}

/**
 What every run of migrations and rollbacks keeps, whichever of them fail: the versions
 applied are a prefix of the list. If each down step inverts its up step, rolling back
 any number of times and migrating again restores the schema.
 */
module MigrationRuns {
  import opened Wrappers
  import opened Migrations

  /** RunMigrations with faults at some versions, or RollbackMigration. */
  datatype Op = Migrate(faults: set<int>) | Rollback(dbOk: bool)

  ghost function LatestOf(versions: set<int>): (v: int)
    ensures IsLatest(versions, v)
    decreases |versions|
  {
    if versions == {} then 0
    else
      SomeVersion(versions);
      var w :| w in versions;
      var rest := LatestOf(versions - {w});
      assert forall v | v in versions :: v == w || v in versions - {w};
      if w > rest then w else rest
  }

  ghost function Exec<Sql(!new),
      S(!new)>(exec: Engine<Sql, S>, db: Db<S>, ms: seq<Migration<Sql>>, op: Op): (Db<S>, bool) {
    match op
    case Migrate(faults) => Migrated(exec, db, db.versions, ms, faults)
    case Rollback(dbOk) => RolledBack(exec, db, ms, LatestOf(db.versions), dbOk)
  }

  ghost function Run<Sql(!new),
      S(!new)>(exec: Engine<Sql, S>, db: Db<S>, ms: seq<Migration<Sql>>, ops: seq<Op>): Db<S> {
    if ops == [] then db else Exec(exec, Run(exec, db, ms, ops[..|ops| - 1]), ms, ops[|ops| - 1]).0
  }

  /** loadMigrations sorts by version; the files have distinct positive versions. */
  ghost predicate Sorted<Sql>(ms: seq<Migration<Sql>>) {
    && (forall i | 0 <= i < |ms| :: ms[i].version > 0)
    && (forall i, j | 0 <= i < j < |ms| :: ms[i].version < ms[j].version)
  }

  /** The versions of the first k migrations. */
  ghost function Prefix<Sql>(ms: seq<Migration<Sql>>, k: nat): set<int>
    requires k <= |ms|
  {
    set i | 0 <= i < k :: ms[i].version
  }

  /** The schema after the up steps of the first k migrations. */
  ghost function UpTo<Sql(!new), S(!new)>(exec: Engine<Sql, S>, schema: S, ms: seq<Migration<Sql>>, k: nat): Option<S>
    requires k <= |ms|
  {
    if k == 0 then Some(schema)
    else
      match UpTo(exec, schema, ms, k - 1)
      case None => None
      case Some(s) => exec(ms[k - 1].up, s)
  }

  lemma InPrefix<Sql>(ms: seq<Migration<Sql>>, k: nat, i: nat)
    requires Sorted(ms) && k <= |ms| && i < |ms|
    ensures ms[i].version in Prefix(ms, k) <==> i < k
  {}

  lemma PrefixGrows<Sql>(ms: seq<Migration<Sql>>, k: nat)
    requires k < |ms|
    ensures Prefix(ms, k + 1) == Prefix(ms, k) + {ms[k].version}
  {}

  /* ---------- migrating ---------- */

  /** The loop passes over what is applied. */
  lemma {:induction false} SkipsApplied<Sql(!new), S(!new)>(exec: Engine<Sql, S>, db: Db<S>, ms: seq<Migration<Sql>>,
                                       k: nat, i: nat, faults: set<int>)
    requires Sorted(ms) && i <= k <= |ms|
    ensures Migrated(exec, db, Prefix(ms, k), ms[i..], faults) == Migrated(exec, db, Prefix(ms, k), ms[k..], faults)
    decreases k - i
  {
    if i < k {
      InPrefix(ms, k, i);
      assert ms[i..][0] == ms[i] && ms[i..][1..] == ms[i + 1..];
      SkipsApplied(exec, db, ms, k, i + 1, faults);
    }
  }

  /** The step at i fails, with the given schema before it. */
  predicate Fails<Sql(!new), S(!new)>(exec: Engine<Sql, S>, m: Migration<Sql>, schema: S, faults: set<int>) {
    m.version in faults || exec(m.up, schema).None?
  }

  /** And it applies the rest one by one, up to the first that fails. */
  lemma {:induction false} AppliesRest<Sql(!new), S(!new)>(exec: Engine<Sql, S>, db: Db<S>, ms: seq<Migration<Sql>>,
                                       k: nat, i: nat, faults: set<int>)
    returns (end: nat)
    requires Sorted(ms) && k <= i <= |ms| && db.versions == Prefix(ms, i)
    ensures i <= end <= |ms|
    ensures
      var (db', ok) := Migrated(exec, db, Prefix(ms, k), ms[i..], faults);
      && db'.versions == Prefix(ms, end)
      && (ok <==> end == |ms|)
      && (end < |ms| ==> Fails(exec, ms[end], db'.schema, faults))
      && UpTo(exec, db.schema, ms[i..], end - i) == Some(db'.schema)
    decreases |ms| - i
  {
    end := i;
    if i < |ms| {
      InPrefix(ms, k, i);
      InPrefix(ms, i, i);
      assert ms[i..][0] == ms[i] && ms[i..][1..] == ms[i + 1..];
      match Applied(exec, db, ms[i], ms[i].version in faults)
      case None =>
      case Some(db1) =>
        PrefixGrows(ms, i);
        end := AppliesRest(exec, db1, ms, k, i + 1, faults);
        UpFromNext(exec, db.schema, ms[i..], end - i);
    }
  }

  lemma {:induction false} UpFromNext<Sql(!new),
      S(!new)>(exec: Engine<Sql, S>, schema: S, ms: seq<Migration<Sql>>, n: nat)
    requires 0 < n <= |ms| && exec(ms[0].up, schema).Some?
    ensures UpTo(exec, schema, ms, n) == UpTo(exec, exec(ms[0].up, schema).value, ms[1..], n - 1)
  {
    if n > 1 {
      UpFromNext(exec, schema, ms, n - 1);
    } else {
      assert UpTo(exec, schema, ms, 0) == Some(schema);
    }
  }

  /**
   RunMigrations on the first k: it applies what follows up to the first that fails, and
   succeeds exactly if none does.
   */
  lemma MigrateExtends<Sql(!new),
      S(!new)>(exec: Engine<Sql, S>, db: Db<S>, ms: seq<Migration<Sql>>, k: nat, faults: set<int>)
    returns (end: nat)
    requires Sorted(ms) && k <= |ms| && db.versions == Prefix(ms, k)
    ensures k <= end <= |ms|
    ensures
      var (db', ok) := Exec(exec, db, ms, Migrate(faults));
      && db'.versions == Prefix(ms, end)
      && (ok <==> end == |ms|)
      && (end < |ms| ==> Fails(exec, ms[end], db'.schema, faults))
      && UpTo(exec, db.schema, ms[k..], end - k) == Some(db'.schema)
  {
    assert ms[0..] == ms;
    SkipsApplied(exec, db, ms, k, 0, faults);
    end := AppliesRest(exec, db, ms, k, k, faults);
  }

  /** A run after a successful one does nothing. */
  lemma SecondRunIsNoOp<Sql(!new), S(!new)>(exec: Engine<Sql, S>, db: Db<S>, ms: seq<Migration<Sql>>, faults: set<int>)
    requires Sorted(ms) && db.versions == Prefix(ms, |ms|)
    ensures Exec(exec, db, ms, Migrate(faults)) == (db, true)
  {
    assert ms[0..] == ms;
    SkipsApplied(exec, db, ms, |ms|, 0, faults);
  }

  /* ---------- rolling back ---------- */

  lemma {:induction false} TargetIsFound<Sql>(ms: seq<Migration<Sql>>, i: nat)
    requires Sorted(ms) && i < |ms|
    ensures Target(ms, ms[i].version) == Some(ms[i])
  {
    if i > 0 {
      assert ms[1..][i - 1] == ms[i];
      TargetIsFound(ms[1..], i - 1);
    }
  }

  lemma LatestOfPrefix<Sql>(ms: seq<Migration<Sql>>, k: nat, latest: int)
    requires Sorted(ms) && k <= |ms| && IsLatest(Prefix(ms, k), latest)
    ensures latest == if k == 0 then 0 else ms[k - 1].version
  {
    if k > 0 {
      assert ms[k - 1].version in Prefix(ms, k);
    }
  }

  /** RollbackMigration on the first k: it undoes the last of them or changes nothing. */
  lemma RollbackShortens<Sql(!new),
      S(!new)>(exec: Engine<Sql, S>, db: Db<S>, ms: seq<Migration<Sql>>, k: nat, dbOk: bool)
    requires Sorted(ms) && k <= |ms| && db.versions == Prefix(ms, k)
    ensures
      var (db', ok) := Exec(exec, db, ms, Rollback(dbOk));
      && (ok <==> dbOk && k > 0 && ms[k - 1].down.Some? && exec(ms[k - 1].down.value, db.schema).Some?)
      && (ok ==> db'.versions == Prefix(ms, k - 1) && Some(db'.schema) == exec(ms[k - 1].down.value, db.schema))
      && (!ok ==> db' == db)
  {
    LatestOfPrefix(ms, k, LatestOf(db.versions));
    if k > 0 {
      TargetIsFound(ms, k - 1);
      PrefixGrows(ms, k - 1);
      InPrefix(ms, k - 1, k - 1);
      assert Prefix(ms, k) - {ms[k - 1].version} == Prefix(ms, k - 1);
    }
  }

  /* ---------- whole runs ---------- */

  /** Each down step, where there is one, undoes its up step on the schema it is meant for. */
  ghost predicate Inverts<Sql(!new), S(!new)>(exec: Engine<Sql, S>, schema: S, ms: seq<Migration<Sql>>) {
    forall k | 0 <= k < |ms| && ms[k].down.Some? && UpTo(exec, schema, ms, k + 1).Some? ::
      exec(ms[k].down.value, UpTo(exec, schema, ms, k + 1).value) == UpTo(exec, schema, ms, k)
  }

  /**
   The applied versions are a prefix of the list in every run, and the schema is that of the prefix if the
   down steps invert.
   */
  lemma {:induction false} RunKeepsPrefix<Sql(!new),
      S(!new)>(exec: Engine<Sql, S>, schema: S, ms: seq<Migration<Sql>>, ops: seq<Op>)
    returns (k: nat)
    requires Sorted(ms)
    ensures k <= |ms| && Run(exec, Db({}, schema), ms, ops).versions == Prefix(ms, k)
    ensures Inverts(exec, schema, ms) ==> UpTo(exec, schema, ms, k) == Some(Run(exec, Db({}, schema), ms, ops).schema)
  {
    if ops == [] {
      k := 0;
    } else {
      var before := RunKeepsPrefix(exec, schema, ms, ops[..|ops| - 1]);
      var db := Run(exec, Db({}, schema), ms, ops[..|ops| - 1]);
      match ops[|ops| - 1]
      case Migrate(faults) =>
        k := MigrateExtends(exec, db, ms, before, faults);
        if Inverts(exec, schema, ms) {
          UpInParts(exec, schema, ms, before, k - before);
        }
      case Rollback(dbOk) =>
        RollbackShortens(exec, db, ms, before, dbOk);
        k := if Exec(exec, db, ms, Rollback(dbOk)).1 then before - 1 else before;
    }
  }

  lemma {:induction false} UpInParts<Sql(!new),
      S(!new)>(exec: Engine<Sql, S>, schema: S, ms: seq<Migration<Sql>>, k: nat, n: nat)
    requires k + n <= |ms| && UpTo(exec, schema, ms, k).Some?
    ensures UpTo(exec, schema, ms, k + n) == UpTo(exec, UpTo(exec, schema, ms, k).value, ms[k..], n)
  {
    if n > 0 {
      UpInParts(exec, schema, ms, k, n - 1);
    }
  }

  /**
   However often and however far the database was migrated and rolled back, with whatever
   failures: a run without faults applies everything and leaves the one full schema.
   */
  lemma RunRestores<Sql(!new), S(!new)>(exec: Engine<Sql, S>, schema: S, ms: seq<Migration<Sql>>, ops: seq<Op>)
    requires Sorted(ms) && Inverts(exec, schema, ms) && UpTo(exec, schema, ms, |ms|).Some?
    ensures
      Exec(exec, Run(exec, Db({}, schema), ms, ops), ms, Migrate({})) ==
        (Db(Prefix(ms, |ms|), UpTo(exec, schema, ms, |ms|).value), true)
  {
    var db := Run(exec, Db({}, schema), ms, ops);
    var k := RunKeepsPrefix(exec, schema, ms, ops);
    var end := MigrateExtends(exec, db, ms, k, {});
    UpInParts(exec, schema, ms, k, end - k);
    if end < |ms| {
      UpStaysNone(exec, schema, ms, end + 1, |ms|);
    }
  }

  lemma {:induction false} UpStaysNone<Sql(!new),
      S(!new)>(exec: Engine<Sql, S>, schema: S, ms: seq<Migration<Sql>>, k: nat, n: nat)
    requires k <= n <= |ms| && UpTo(exec, schema, ms, k).None?
    ensures UpTo(exec, schema, ms, n).None?
  {
    if k < n {
      UpStaysNone(exec, schema, ms, k, n - 1);
    }
  }
}

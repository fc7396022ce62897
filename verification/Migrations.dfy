/**
 runMigrations and RollbackMigration of internal/store/migrations.go. SQL is a parameter:
 `exec` gives the schema after a script, or None if it fails. A migration runs inside a
 transaction together with its row of schema_versions, so it is done whole or not at all.
 */
module Migrations {
  import opened Wrappers

  /** `down` is None when the file has no down block. */
  datatype Migration<Sql> = Migration(version: int, up: Sql, down: Option<Sql>)

  type Engine<!Sql, !S> = (Sql, S) -> Option<S>

  /** The versions recorded in schema_versions, and the rest of the schema. */
  datatype Db<S> = Db(versions: set<int>, schema: S)

  /** applyMigration; `fault` stands for a begin, insert or commit that fails. */
  function Applied<Sql(!new), S(!new)>(exec: Engine<Sql, S>, db: Db<S>, m: Migration<Sql>, fault: bool): Option<Db<S>> {
    if fault || m.version in db.versions then None
    else
      match exec(m.up, db.schema)
      case None => None
      case Some(schema) => Some(Db(db.versions + {m.version}, schema))
  }

  /** The loop of runMigrations; `applied` was read once, before the loop. */
  function Migrated<Sql(!new), S(!new)>(exec: Engine<Sql, S>, db: Db<S>, applied: set<int>,
                    ms: seq<Migration<Sql>>, faults: set<int>): (Db<S>, bool)
    decreases |ms|
  {
    if ms == [] then (db, true)
    else if ms[0].version in applied then Migrated(exec, db, applied, ms[1..], faults)
    else
      match Applied(exec, db, ms[0], ms[0].version in faults)
      case None => (db, false)
      case Some(db') => Migrated(exec, db', applied, ms[1..], faults)
  }

  /** The highest positive version, or 0. */
  ghost predicate IsLatest(versions: set<int>, v: int) {
    v >= 0 && (v > 0 ==> v in versions) && forall w | w in versions :: w <= v
  }

  function Target<Sql>(ms: seq<Migration<Sql>>, version: int): Option<Migration<Sql>> {
    if ms == [] then None else if ms[0].version == version then Some(ms[0]) else Target(ms[1..], version)
  }

  function RolledBack<Sql(!new), S(!new)>(exec: Engine<Sql, S>, db: Db<S>, ms: seq<Migration<Sql>>,
             latest: int, dbOk: bool): (Db<S>, bool) {
    if latest == 0 || Target(ms, latest).None? || Target(ms, latest).value.down.None? || !dbOk then (db, false)
    else
      match exec(Target(ms, latest).value.down.value, db.schema)
      case None => (db, false)
      case Some(schema) => (Db(db.versions - {latest}, schema), true)
  }

  lemma SomeVersion(versions: set<int>)
    ensures versions == {} || exists v :: v in versions
  {
    assert (forall v: int :: v !in versions) ==> versions == {};
  }

  /* ---------- the store ---------- */

  class Store<Sql(!new), S(!new)> {
    const exec: Engine<Sql, S>
    var db: Db<S>

    constructor (exec: Engine<Sql, S>, schema: S)
      ensures this.exec == exec && db == Db({}, schema)
    {
      this.exec := exec;
      db := Db({}, schema);
    }

    method ApplyMigration(m: Migration<Sql>, fault: bool) returns (ok: bool)
      modifies this
      ensures var r := Applied(exec, old(db), m, fault);
              ok == r.Some? && db == if ok then r.value else old(db)
    {
      if fault {
        return false;
      }
      var result := exec(m.up, db.schema);
      if result.None? || m.version in db.versions {
        return false;
      }
      db := Db(db.versions + {m.version}, result.value);
      ok := true;
    }

    method RunMigrations(ms: seq<Migration<Sql>>, faults: set<int>) returns (ok: bool)
      modifies this
      ensures (db, ok) == Migrated(exec, old(db), old(db).versions, ms, faults)
    {
      var applied := db.versions;
      for i := 0 to |ms|
        invariant Migrated(exec, db, applied, ms[i..], faults) == Migrated(exec, old(db), applied, ms, faults)
      {
        assert ms[i..][0] == ms[i] && ms[i..][1..] == ms[i + 1..];
        if ms[i].version in applied {
          continue;
        }
        ok := ApplyMigration(ms[i], ms[i].version in faults);
        if !ok {
          return;
        }
      }
      ok := true;
    }

    method Latest() returns (latest: int)
      ensures IsLatest(db.versions, latest)
    {
      latest := 0;
      var rest: set<int> := db.versions;
      while rest != {}
        invariant rest <= db.versions && latest >= 0 && (latest > 0 ==> latest in db.versions)
        invariant forall w | w in db.versions && w !in rest :: w <= latest
        decreases |rest|
      {
        SomeVersion(rest);
        var v: int :| v in rest;
        rest := rest - {v};
        if v > latest {
          latest := v;
        }
      }
    }

    method RollbackMigration(ms: seq<Migration<Sql>>, dbOk: bool) returns (ok: bool, ghost latest: int)
      modifies this
      ensures IsLatest(old(db).versions, latest)
      ensures (db, ok) == RolledBack(exec, old(db), ms, latest, dbOk)
    {
      var top := Latest();
      latest := top;
      if top == 0 {
        return false, latest;
      }
      var target := None;
      var i := 0;
      while i < |ms| && target == None
        invariant i <= |ms|
        invariant Target(ms, top) == if target == None then Target(ms[i..], top) else target
      {
        if ms[i].version == top {
          target := Some(ms[i]);
        }
        i := i + 1;
      }
      if target == None || target.value.down == None {
        return false, latest;
      }
      if !dbOk {
        return false, latest;
      }
      var result := exec(target.value.down.value, db.schema);
      if result.None? {
        return false, latest;
      }
      db := Db(db.versions - {top}, result.value);
      ok := true;
    }
  }
}

/**
 FlushDirty of internal/index/flush.go among concurrent Update and Delete calls.

 A flush collects pointers under the lock, makes rows of them, writes the rows one statement at a time
 and clears the flags under the lock again; between any two of these the index may
 change. `State` keeps pointers, since it is their identity that tells a replaced entry
 from the one collected.
 */
module IndexFlush {
  import opened NoteIndex
  import opened IndexCache

  /** A FlushDirty call under way: the pointers, their rows, and how many rows are written. */
  datatype Flight = Flight(collected: seq<NoteEntry>, rows: seq<CacheRow>, written: nat)

  datatype State = State(cells: map<string, Cell>, cache: map<string, Row>, flights: map<nat, Flight>)

  /** `Stop` is a flush that returns an error before it clears any flag. */
  datatype Step =
    | Update(entry: NoteEntry)
    | Delete(path: string)
    | Collect(flush: nat, collected: seq<NoteEntry>, rows: seq<CacheRow>)
    | Write(flush: nat)
    | Clear(flush: nat)
    | Stop(flush: nat)

  /** The dirty entries, each once, in the order the map yielded them. */
  ghost predicate ListsDirty(cells: map<string, Cell>, collected: seq<NoteEntry>) {
    && (forall i, j | 0 <= i < j < |collected| :: collected[i] != collected[j])
    && (forall e | e in collected :: e.note.path in cells && cells[e.note.path] == Cell(e, true))
    && (forall p | p in cells && cells[p].dirty :: cells[p].entry in collected)
  }

  predicate RowsFor(collected: seq<NoteEntry>, rows: seq<CacheRow>) {
    |rows| == |collected| &&
    forall i | 0 <= i < |rows| :: rows[i].filePath == collected[i].note.path && Carries(rows[i].row, collected[i].note)
  }

  function Cleared(cells: map<string, Cell>, collected: seq<NoteEntry>): map<string, Cell> {
    map p | p in cells :: Cell(cells[p].entry, cells[p].dirty && cells[p].entry !in collected)
  }

  ghost function Apply(s: State, step: Step): State {
    match step
    case Update(e) => s.(cells := s.cells[e.note.path := Cell(e, true)])
    case Delete(p) => s.(cells := s.cells - {p})
    case Collect(k, collected, rows) =>
      if k !in s.flights && collected != [] && ListsDirty(s.cells, collected) && RowsFor(collected, rows)
      then s.(flights := s.flights[k := Flight(collected, rows, 0)])
      else s
    case Write(k) =>
      if k in s.flights && s.flights[k].written < |s.flights[k].rows|
      then
        var f := s.flights[k];
        s.(cache := s.cache[f.rows[f.written].filePath := f.rows[f.written].row],
          flights := s.flights[k := f.(written := f.written + 1)])
      else s
    case Clear(k) =>
      if k in s.flights && s.flights[k].written == |s.flights[k].rows|
      then s.(cells := Cleared(s.cells, s.flights[k].collected), flights := s.flights - {k})
      else s
    case Stop(k) => s.(flights := s.flights - {k})
  }

  ghost function Run(s: State, steps: seq<Step>): State {
    if steps == [] then s else Apply(Run(s, steps[..|steps| - 1]), steps[|steps| - 1])
  }

  /* ---------- coherence ---------- */

  /** Every clean entry has its row in the cache. */
  ghost predicate Coherent(s: State) {
    forall p | p in s.cells && !s.cells[p].dirty :: p in s.cache && Carries(s.cache[p], s.cells[p].entry.note)
  }

  ghost predicate Keyed(s: State) {
    forall p | p in s.cells :: s.cells[p].entry.note.path == p
  }

  ghost predicate HasRowFor(cache: map<string, Row>, note: NoteData) {
    note.path in cache && Carries(cache[note.path], note)
  }

  /** What a step must meet: a write hits no clean entry it does not stand for, a clear no entry without its row. */
  ghost predicate Safe(s: State, step: Step) {
    match step
    case Write(k) => (
      k in s.flights && s.flights[k].written < |s.flights[k].rows| ==>
        var w := s.flights[k].rows[s.flights[k].written];
        w.filePath in s.cells && !s.cells[w.filePath].dirty ==> Carries(w.row, s.cells[w.filePath].entry.note))
    case Clear(k) =>
      k in s.flights && s.flights[k].written == |s.flights[k].rows| ==>
        forall e | e in s.flights[k].collected && e.note.path in s.cells && s.cells[e.note.path].entry == e ::
          HasRowFor(s.cache, e.note)
    case _ => true
  }

  /**
   A safe write, by the pointers: what a flush collected may have been replaced, but not by another note that has
   become clean before the write.
   */
  lemma WriteIsSafeIff(s: State, k: nat)
    requires k in s.flights && s.flights[k].written < |s.flights[k].rows|
      && RowsFor(s.flights[k].collected, s.flights[k].rows)
    ensures
      var e := s.flights[k].collected[s.flights[k].written];
      Safe(s, Write(k)) <==>
        !(e.note.path in s.cells && s.cells[e.note.path].entry.note != e.note && !s.cells[e.note.path].dirty)
  {}

  /** Exactly the safe steps keep coherence. */
  lemma StaysCoherentIffSafe(s: State, step: Step)
    requires Keyed(s) && Coherent(s)
    ensures Keyed(Apply(s, step))
    ensures Coherent(Apply(s, step)) <==> Safe(s, step)
  {}

  ghost predicate AlwaysCoherent(s: State, steps: seq<Step>) {
    Coherent(Run(s, steps)) && (steps != [] ==> AlwaysCoherent(s, steps[..|steps| - 1]))
  }

  ghost predicate AlwaysSafe(s: State, steps: seq<Step>) {
    steps != [] ==> AlwaysSafe(s, steps[..|steps| - 1]) && Safe(Run(s, steps[..|steps| - 1]), steps[|steps| - 1])
  }

  /** With any number of flushes at once: a run is coherent throughout if and only if each of its steps is safe. */
  lemma {:induction false} CoherentIffSafe(s: State, steps: seq<Step>)
    requires Keyed(s) && Coherent(s)
    ensures Keyed(Run(s, steps))
    ensures AlwaysCoherent(s, steps) <==> AlwaysSafe(s, steps)
  {
    if steps != [] {
      var most := steps[..|steps| - 1];
      CoherentIffSafe(s, most);
      KeyedStays(Run(s, most), steps[|steps| - 1]);
      if AlwaysCoherent(s, most) {
        StaysCoherentIffSafe(Run(s, most), steps[|steps| - 1]);
      }
    }
  }

  lemma KeyedStays(s: State, step: Step)
    requires Keyed(s)
    ensures Keyed(Apply(s, step))
  {}

  /* ---------- one flush at a time ---------- */

  /** A flush starts only when none is under way. */
  ghost predicate OneAtATime(s: State, steps: seq<Step>) {
    steps != [] ==>
      var most := steps[..|steps| - 1];
      OneAtATime(s, most) && (steps[|steps| - 1].Collect? ==> Run(s, most).flights == map[])
  }

  /**
   A collected path holds a dirty entry, the one collected or a later one, or none; what is written is in the
   cache.
   */
  ghost predicate FlightOk(s: State, f: Flight) {
    && RowsFor(f.collected, f.rows) && f.written <= |f.rows|
    && (forall i, j | 0 <= i < j < |f.rows| :: f.rows[i].filePath != f.rows[j].filePath)
    && (forall i | 0 <= i < |f.rows| && f.rows[i].filePath in s.cells :: s.cells[f.rows[i].filePath].dirty)
    && (forall i | 0 <= i < f.written :: f.rows[i].filePath in s.cache && s.cache[f.rows[i].filePath] == f.rows[i].row)
  }

  ghost predicate Inv(s: State) {
    && Keyed(s) && Coherent(s)
    && (forall k, l | k in s.flights && l in s.flights :: k == l)
    && (forall k | k in s.flights :: FlightOk(s, s.flights[k]))
  }

  lemma StepIsSafe(s: State, step: Step)
    requires Inv(s)
    ensures Safe(s, step)
  {
    match step
    case Clear(k) =>
      if k in s.flights && s.flights[k].written == |s.flights[k].rows| {
        var f := s.flights[k];
        assert FlightOk(s, f);
        forall e | e in f.collected ensures HasRowFor(s.cache, e.note) {
          var i :| 0 <= i < |f.collected| && f.collected[i] == e;
          assert Carries(f.rows[i].row, e.note);
        }
      }
    case Write(k) =>
      if k in s.flights && s.flights[k].written < |s.flights[k].rows| {
        assert FlightOk(s, s.flights[k]);
      }
    case _ =>
  }

  lemma StepKeepsInv(s: State, step: Step)
    requires Inv(s) && (step.Collect? ==> s.flights == map[])
    ensures Inv(Apply(s, step))
  {
    StepIsSafe(s, step);
    StaysCoherentIffSafe(s, step);
  }

  /**
   One flush at a time, interleaved in any way with updates and deletes and possibly stopping
   part way: every clean entry keeps its row, so no update is lost to the clearing of flags.
   */
  lemma {:induction false} RunKeepsInv(s: State, steps: seq<Step>)
    requires Inv(s) && OneAtATime(s, steps)
    ensures Inv(Run(s, steps)) && AlwaysCoherent(s, steps)
  {
    if steps != [] {
      RunKeepsInv(s, steps[..|steps| - 1]);
      StepKeepsInv(Run(s, steps[..|steps| - 1]), steps[|steps| - 1]);
    }
  }

  /** Two flushes at once: the row of the replaced entry `a` overwrites that of `b`, and `b` counts as clean. */
  lemma OverlapLosesAnUpdate(a: NoteEntry, b: NoteEntry)
    requires a != b && a.note.path == b.note.path && a.note != b.note
    ensures
      var steps := [
        Update(a), Collect(0, [a], [RowOf(a.note, 0)]),
        Update(b), Collect(1, [b], [RowOf(b.note, 0)]), Write(1), Clear(1),
        Write(0)];
      Inv(EMPTY) && !Coherent(Run(EMPTY, steps))
  {
    var p := a.note.path;
    var s1 := Apply(Apply(EMPTY, Update(a)), Collect(0, [a], [RowOf(a.note, 0)]));
    assert s1 == State(map[p := Cell(a, true)], map[], map[0 := Flight([a], [RowOf(a.note, 0)], 0)]);
    var s2 := Apply(Apply(s1, Update(b)), Collect(1, [b], [RowOf(b.note, 0)]));
    assert s2 == State(map[p := Cell(b, true)], map[], s1.flights[1 := Flight([b], [RowOf(b.note, 0)], 0)]);
    var s3 := Apply(Apply(s2, Write(1)), Clear(1));
    assert s3 == State(map[p := Cell(b, false)], map[p := RowOf(b.note, 0).row], s1.flights);
    var s4 := Apply(s3, Write(0));
    assert !Coherent(s4);
    RunSeven(EMPTY, Update(a), Collect(0, [a], [RowOf(a.note, 0)]), Update(b), Collect(1, [b], [RowOf(b.note, 0)]),
             Write(1), Clear(1), Write(0));
  }

  const EMPTY := State(map[], map[], map[])

  lemma RunOn(s: State, steps: seq<Step>, step: Step)
    ensures Run(s, steps + [step]) == Apply(Run(s, steps), step)
  {
    assert (steps + [step])[..|steps|] == steps;
  }

  lemma RunSeven(s: State, a: Step, b: Step, c: Step, d: Step, e: Step, f: Step, g: Step)
    ensures Run(s, [a, b, c, d, e, f, g]) == Apply(Apply(Apply(Apply(Apply(Apply(Apply(s, a), b), c), d), e), f), g)
  {
    hide Apply;
    RunOn(s, [a, b, c, d, e, f], g);
    RunOn(s, [a, b, c, d, e], f);
    RunOn(s, [a, b, c, d], e);
    RunOn(s, [a, b, c], d);
    RunOn(s, [a, b], c);
    RunOn(s, [a], b);
    RunOn(s, [], a);
    assert [a, b, c, d, e, f, g] == [a, b, c, d, e, f] + [g] && [a, b, c, d, e, f] == [a, b, c, d, e] + [f];
    assert [a, b, c, d, e] == [a, b, c, d] + [e] && [a, b, c, d] == [a, b, c] + [d] && [a, b, c] == [a, b] + [c];
    assert [a, b] == [a] + [b] && [a] == [] + [a];
  }

  /* ---------- the method ---------- */

  ghost function Snapshot(idx: Index, cache: CacheTable, flights: map<nat, Flight>): State
    reads idx, idx.Objects(), cache
  {
    State(idx.Cells(), cache.rows, flights)
  }

  /** Update and Delete, as the steps they are beside any flushes under way. */
  method Put(idx: Index, cache: CacheTable, entry: NoteEntry, ghost flights: map<nat, Flight>)
    requires idx.Valid()
    modifies idx, entry`dirty
    ensures idx.Valid() && Snapshot(idx, cache, flights) == Apply(old(Snapshot(idx, cache, flights)), Update(entry))
  {
    idx.Update(entry);
  }

  method Drop(idx: Index, cache: CacheTable, path: string, ghost flights: map<nat, Flight>)
    requires idx.Valid()
    modifies idx
    ensures idx.Valid() && Snapshot(idx, cache, flights) == Apply(old(Snapshot(idx, cache, flights)), Delete(path))
  {
    idx.Delete(path);
  }

  method CollectDirty(idx: Index) returns (dirty: seq<NoteEntry>)
    requires idx.Valid()
    ensures ListsDirty(idx.Cells(), dirty) && forall e | e in dirty :: e in idx.Objects()
  {
    dirty := [];
    var rest := idx.entries.Keys;
    while rest != {}
      invariant rest <= idx.entries.Keys
      invariant forall i, j | 0 <= i < j < |dirty| :: dirty[i] != dirty[j]
      invariant forall e | e in dirty ::
        e.note.path in idx.entries && idx.entries[e.note.path] == e && e.dirty && e.note.path !in rest
      invariant forall p | p in idx.entries && p !in rest && idx.entries[p].dirty :: idx.entries[p] in dirty
      decreases |rest|
    {
      var p :| p in rest;
      rest := rest - {p};
      if idx.entries[p].dirty {
        dirty := dirty + [idx.entries[p]];
      }
    }
  }

  /** With the note, its count is in the data column. */
  ghost predicate HaveCounts(collected: seq<NoteEntry>, rows: seq<CacheRow>)
    reads collected
  {
    forall i | 0 <= i < |rows| && i < |collected| ::
      rows[i].row.data == Encoded(collected[i].note, collected[i].backlinkCount)
  }

  /** The rows of the collected entries; encoding may fail at any of them. */
  method MakeRows(dirty: seq<NoteEntry>, failAt: nat) returns (rows: seq<CacheRow>, ok: bool)
    ensures ok <==> |dirty| <= failAt
    ensures ok ==> RowsFor(dirty, rows) && HaveCounts(dirty, rows)
  {
    rows := [];
    for i := 0 to |dirty|
      invariant i <= failAt && |rows| == i
      invariant forall j | 0 <= j < i :: rows[j] == RowOf(dirty[j].note, dirty[j].backlinkCount)
    {
      if i == failAt {
        return rows, false;
      }
      rows := rows + [RowOf(dirty[i].note, dirty[i].backlinkCount)];
    }
    ok := true;
  }

  method ClearFlags(idx: Index, dirty: seq<NoteEntry>)
    requires idx.Valid()
    modifies dirty`dirty
    ensures idx.Cells() == Cleared(old(idx.Cells()), dirty)
  {
    for i := 0 to |dirty|
      invariant idx.Cells() == Cleared(old(idx.Cells()), dirty[..i])
    {
      assert dirty[..i + 1] == dirty[..i] + [dirty[i]];
      dirty[i].dirty := false;
    }
    assert dirty[..|dirty|] == dirty;
  }

  ghost function Writes(n: nat): seq<Step> {
    seq(n, _ => Write(0))
  }

  /** The first n writes of a flush leave the cache as UpsertIndexCache does with the first n rows. */
  lemma {:induction false} WritesUpsert(s: State, n: nat)
    requires 0 in s.flights && s.flights[0].written == 0 && n <= |s.flights[0].rows|
    ensures
      var f := s.flights[0];
      Run(s, Writes(n)) == s.(cache := Upserted(s.cache, f.rows[..n]), flights := s.flights[0 := f.(written := n)])
  {
    if n == 0 {
      assert s.flights[0 := s.flights[0].(written := 0)] == s.flights;
    } else {
      WritesUpsert(s, n - 1);
      RunOn(s, Writes(n - 1), Write(0));
      assert Writes(n) == Writes(n - 1) + [Write(0)];
      assert s.flights[0].rows[..n][..n - 1] == s.flights[0].rows[..n - 1];
    }
  }

  /** The steps of a flush that nothing interrupts. */
  ghost function FlushSteps(collected: seq<NoteEntry>, rows: seq<CacheRow>, failAt: nat): seq<Step> {
    if collected == [] then []
    else if |rows| <= failAt then [Collect(0, collected, rows)] + Writes(|rows|) + [Clear(0)]
    else [Collect(0, collected, rows)] + Writes(failAt) + [Stop(0)]
  }

  lemma {:induction false} RunConcat(s: State, a: seq<Step>, b: seq<Step>)
    ensures Run(s, a + b) == Run(Run(s, a), b)
  {
    if b == [] {
      assert a + b == a;
    } else {
      var most := b[..|b| - 1];
      assert b == most + [b[|b| - 1]] && a + b == a + most + [b[|b| - 1]];
      RunConcat(s, a, most);
      RunOn(s, a + most, b[|b| - 1]);
    }
  }

  /** The state such a flush leaves. */
  ghost function Flushed(s: State, collected: seq<NoteEntry>, rows: seq<CacheRow>, failAt: nat): State {
    if |rows| <= failAt then s.(cells := Cleared(s.cells, collected), cache := Upserted(s.cache, rows))
    else s.(cache := Upserted(s.cache, rows[..failAt]))
  }

  lemma FlushRuns(s: State, collected: seq<NoteEntry>, rows: seq<CacheRow>, failAt: nat)
    requires s.flights == map[] && ListsDirty(s.cells, collected) && RowsFor(collected, rows)
    ensures Run(s, FlushSteps(collected, rows, failAt)) == Flushed(s, collected, rows, failAt)
  {
    if collected == [] {
      assert Cleared(s.cells, collected) == s.cells;
    } else {
      var n := if |rows| <= failAt then |rows| else failAt;
      var start, s1 := [Collect(0, collected, rows)], s.(flights := map[0 := Flight(collected, rows, 0)]);
      assert Run(s, start) == s1 by {
        RunOn(s, [], Collect(0, collected, rows));
        assert [] + start == start;
        assert s.flights[0 := Flight(collected, rows, 0)] == s1.flights;
      }
      hide ListsDirty, RowsFor;
      RunConcat(s, start, Writes(n));
      WritesUpsert(s1, n);
      LastStep(s1, n, if |rows| <= failAt then Clear(0) else Stop(0));
      RunOn(s, start + Writes(n), if |rows| <= failAt then Clear(0) else Stop(0));
      assert rows[..|rows|] == rows;
    }
  }

  lemma LastStep(s: State, n: nat, last: Step)
    requires s.flights.Keys == {0} && n <= |s.flights[0].rows|
      && (last == Stop(0) || (last == Clear(0) && n == |s.flights[0].rows|))
    ensures
      var f := s.flights[0];
      var s' := s.(cache := Upserted(s.cache, f.rows[..n]), flights := s.flights[0 := f.(written := n)]);
      Apply(s', last) == State(if last == Clear(0) then Cleared(s.cells, f.collected) else s.cells, s'.cache, map[])
  {
    assert s.flights[0 := s.flights[0].(written := n)] - {0} == map[];
  }

  ghost predicate AllClean(cells: map<string, Cell>) {
    forall p | p in cells :: !cells[p].dirty
  }

  lemma FlushCleans(cells: map<string, Cell>, collected: seq<NoteEntry>)
    requires ListsDirty(cells, collected)
    ensures AllClean(Cleared(cells, collected))
    ensures collected == [] ==> Cleared(cells, collected) == cells
  {}

  lemma FlushesNothing(s: State, collected: seq<NoteEntry>, failAt: nat)
    requires collected == [] && Cleared(s.cells, collected) == s.cells
    ensures RowsFor(collected, []) && Flushed(s, collected, [], failAt) == s
  {}

  /** The second half: the flags are cleared only after a successful write. */
  method WriteAndClear(idx: Index, cache: CacheTable, dirty: seq<NoteEntry>, rows: seq<CacheRow>, failAt: nat)
    returns (ok: bool)
    requires idx.Valid() && forall e | e in dirty :: e in idx.Objects()
    modifies cache, dirty`dirty
    ensures ok <==> |rows| <= failAt
    ensures Snapshot(idx, cache, map[]) == Flushed(old(Snapshot(idx, cache, map[])), dirty, rows, failAt)
  {
    hide Upserted, Cleared;
    ok := cache.Upsert(rows, failAt);
    assert idx.Cells() == old(idx.Cells());
    if ok {
      ClearFlags(idx, dirty);
    }
  }

  /**
   FlushDirty with nothing in between: by FlushRuns, the run of its steps. Exactly the dirty entries are
   written; if all goes well, no entry stays dirty.
   */
  method FlushDirty(idx: Index, cache: CacheTable, encodeFailAt: nat, writeFailAt: nat)
    returns (ok: bool, ghost collected: seq<NoteEntry>, ghost rows: seq<CacheRow>)
    requires idx.Valid()
    modifies cache, idx.Objects()`dirty
    ensures ListsDirty(old(idx.Cells()), collected)
    ensures ok <==> |collected| <= encodeFailAt && |collected| <= writeFailAt
    ensures |collected| > encodeFailAt ==> unchanged(cache) && idx.Cells() == old(idx.Cells())
    ensures |collected| <= encodeFailAt ==>
      RowsFor(collected, rows)
        && Snapshot(idx, cache, map[]) == Flushed(old(Snapshot(idx, cache, map[])), collected, rows, writeFailAt)
    ensures HaveCounts(collected, rows) && forall e | e in collected :: e.backlinkCount == old(e.backlinkCount)
    ensures ok ==> AllClean(idx.Cells())
  {
    var dirty := CollectDirty(idx);
    collected, rows := dirty, [];
    FlushCleans(idx.Cells(), dirty);
    hide ListsDirty, Cleared, AllClean, Upserted, RowsFor, RowOf;
    if |dirty| == 0 {
      FlushesNothing(Snapshot(idx, cache, map[]), dirty, writeFailAt);
      return true, collected, rows;
    }
    var toWrite, encoded := MakeRows(dirty, encodeFailAt);
    if !encoded {
      return false, collected, rows;
    }
    rows := toWrite;
    ok := WriteAndClear(idx, cache, dirty, toWrite, writeFailAt);
  }
}

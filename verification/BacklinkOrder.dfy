/**
 Exactly when the links of a workspace resolve the same for every iteration order: if and only
 if each of them is unambiguous in the sense of BacklinkCounts.
 */
module BacklinkOrder {
  import opened Wrappers
  import opened NoteIndex
  import opened Backlinks
  import opened BacklinkCounts

  /** All that computeBacklinks may do with a link comes out the same. */
  ghost predicate OneResult(fold: CaseFold, notes: map<string, NoteData>, src: string, link: string) {
    forall table, r, table', r' |
      && IsLookup(notes, table) && MayResolve(fold, notes, table, src, link, r)
      && IsLookup(notes, table') && MayResolve(fold, notes, table', src, link, r') :: r == r'
  }

  /* ---------- some table, and some result ---------- */

  ghost function SomeHolder(notes: map<string, NoteData>, key: string): (p: string)
    requires exists p :: p in notes && IsKey(notes[p], key)
    ensures p in notes && IsKey(notes[p], key)
  {
    var p :| p in notes && IsKey(notes[p], key);
    p
  }

  function KeysOf(d: NoteData): set<string> {
    {d.path} + (if d.title == "" then {} else {d.title}) + (set a | a in d.aliases)
  }

  lemma KeysAreKeys(d: NoteData)
    ensures forall key :: key in KeysOf(d) <==> IsKey(d, key)
  {}

  ghost function AllKeys(notes: map<string, NoteData>): set<string> {
    set p, key | p in notes && key in KeysOf(notes[p]) :: key
  }

  lemma AllKeysAreHeld(notes: map<string, NoteData>)
    ensures forall key :: key in AllKeys(notes) <==> exists p :: p in notes && IsKey(notes[p], key)
  {
    forall key ensures key in AllKeys(notes) <==> exists p :: p in notes && IsKey(notes[p], key) {
      forall p | p in notes ensures key in KeysOf(notes[p]) <==> IsKey(notes[p], key) {
        KeysAreKeys(notes[p]);
      }
    }
  }

  /** A lookup table in which `key` leads to `holder`. */
  lemma TableWith(notes: map<string, NoteData>, key: string, holder: string) returns (table: map<string, string>)
    requires holder in notes && IsKey(notes[holder], key)
    ensures IsLookup(notes, table) && key in table && table[key] == holder
  {
    AllKeysAreHeld(notes);
    table := map k | k in AllKeys(notes) :: if k == key then holder else SomeHolder(notes, k);
  }

  lemma AnyTable(notes: map<string, NoteData>) returns (table: map<string, string>)
    ensures IsLookup(notes, table)
  {
    AllKeysAreHeld(notes);
    table := map k | k in AllKeys(notes) :: SomeHolder(notes, k);
  }

  /** What some scan comes across. */
  ghost function ScanResult(fold: CaseFold, notes: map<string, NoteData>, src: string, link: string): Option<string> {
    if t :| FoldsElsewhere(fold, notes, src, link, t) then Some(t) else None
  }

  ghost function SomeResult(fold: CaseFold, notes: map<string, NoteData>, table: map<string, string>, src: string,
      link: string)
    : (r: Option<string>)
    ensures MayResolve(fold, notes, table, src, link, r)
  {
    if link in table && table[link] != src then Some(table[link])
    else
      assert forall t | t in notes && t != src ::
          FoldsElsewhere(fold, notes, src, link, t) <==> FoldMatch(fold, notes[t], link);
      ScanResult(fold, notes, src, link)
  }

  /* ---------- one link ---------- */

  /** For one link: all results agree if and only if it is unambiguous. */
  lemma OneResultIffUnambiguous(fold: CaseFold, notes: map<string, NoteData>, src: string, link: string)
    requires src in notes
    ensures OneResult(fold, notes, src, link) <==> Unambiguous(fold, notes, src, link)
  {
    if Unambiguous(fold, notes, src, link) {
      forall table, r, table', r' |
        && IsLookup(notes, table) && MayResolve(fold, notes, table, src, link, r)
        && IsLookup(notes, table') && MayResolve(fold, notes, table', src, link, r')
        ensures r == r'
      {
        ResolutionIsNaive(fold, notes, table, src, link, r);
        ResolutionIsNaive(fold, notes, table', src, link, r');
      }
    }
    if OneResult(fold, notes, src, link) {
      OneResultIsUnambiguous(fold, notes, src, link);
    }
  }

  lemma OneResultIsUnambiguous(fold: CaseFold, notes: map<string, NoteData>, src: string, link: string)
    requires src in notes && OneResult(fold, notes, src, link)
    ensures Unambiguous(fold, notes, src, link)
  {
    forall a, b | HasKeyElsewhere(notes, src, link, a) && HasKeyElsewhere(notes, src, link, b) ensures a == b {
      SharedKeyGoesEitherWay(fold, notes, src, link, a, b);
    }
    if IsKey(notes[src], link) || forall t :: !HasKeyElsewhere(notes, src, link, t) {
      var table := ScanTable(notes, src, link);
      forall a, b | FoldsElsewhere(fold, notes, src, link, a)
        && FoldsElsewhere(fold, notes, src, link, b) ensures a == b {
        assert MayResolve(fold, notes, table, src, link, Some(a)) && MayResolve(fold, notes, table, src, link, Some(b));
      }
      forall t | HasKeyElsewhere(notes, src, link, t) ensures FoldsElsewhere(fold, notes, src, link, t) {
        var table' := TableWith(notes, link, t);
        assert MayResolve(fold, notes, table', src, link, Some(t));
        assert MayResolve(fold, notes, table, src, link, SomeResult(fold, notes, table, src, link));
      }
    }
  }

  /** A key that two other notes share may lead to either. */
  lemma SharedKeyGoesEitherWay(fold: CaseFold, notes: map<string, NoteData>, src: string, link: string, a: string,
      b: string)
    requires HasKeyElsewhere(notes, src, link, a) && HasKeyElsewhere(notes, src, link, b)
    ensures exists table, table' ::
      && IsLookup(notes, table) && MayResolve(fold, notes, table, src, link, Some(a))
      && IsLookup(notes, table') && MayResolve(fold, notes, table', src, link, Some(b))
  {
    var table := TableWith(notes, link, a);
    var table' := TableWith(notes, link, b);
  }

  /** A table with which the link comes to the scan. */
  lemma ScanTable(notes: map<string, NoteData>, src: string, link: string) returns (table: map<string, string>)
    requires src in notes && (IsKey(notes[src], link) || forall t :: !HasKeyElsewhere(notes, src, link, t))
    ensures IsLookup(notes, table) && !(link in table && table[link] != src)
  {
    if IsKey(notes[src], link) {
      table := TableWith(notes, link, src);
    } else {
      table := AnyTable(notes);
      if link in table {
        assert IsKey(notes[table[link]], link);
        assert !HasKeyElsewhere(notes, src, link, table[link]);
      }
    }
  }

  /* ---------- all links ---------- */

  /** What one run of computeBacklinks may leave. */
  ghost predicate Outcome(fold: CaseFold, notes: map<string, NoteData>, table: map<string, string>,
      resolved: map<Occurrence, string>) {
    IsLookup(notes, table) && Treated(fold, notes, table, Occurrences(notes), resolved)
  }

  /** Every run resolves every link the same. */
  ghost predicate OrderDoesNotMatter(fold: CaseFold, notes: map<string, NoteData>) {
    forall table, resolved, table', resolved' |
      Outcome(fold, notes, table, resolved) && Outcome(fold, notes, table', resolved') :: resolved == resolved'
  }

  ghost function ResultOf(fold: CaseFold, notes: map<string, NoteData>, table: map<string, string>,
      o: Occurrence): Option<string>
    requires o in Occurrences(notes)
  {
    SomeResult(fold, notes, table, o.src, notes[o.src].links[o.index])
  }

  /** A run that resolves occurrence x to r, and the others somehow. */
  ghost function ResolveAllWith(fold: CaseFold, notes: map<string, NoteData>, table: map<string, string>,
      x: Occurrence, r: Option<string>): map<Occurrence, string> {
    map o | o in Occurrences(notes) && (if o == x then r else ResultOf(fold, notes, table, o)).Some? ::
      (if o == x then r else ResultOf(fold, notes, table, o)).value
  }

  lemma MayResolveToNotes(fold: CaseFold, notes: map<string, NoteData>, table: map<string, string>, src: string,
      link: string, r: Option<string>)
    requires IsLookup(notes, table) && MayResolve(fold, notes, table, src, link, r)
    ensures r.Some? ==> r.value in notes
  {}

  lemma ResolvedAllWith(fold: CaseFold, notes: map<string, NoteData>, table: map<string, string>, x: Occurrence,
      r: Option<string>)
    requires IsLookup(notes, table) && x in Occurrences(notes)
    requires MayResolve(fold, notes, table, x.src, notes[x.src].links[x.index], r)
    ensures Outcome(fold, notes, table, ResolveAllWith(fold, notes, table, x, r))
    ensures Lookup(ResolveAllWith(fold, notes, table, x, r), x) == r
  {
    var resolved := ResolveAllWith(fold, notes, table, x, r);
    forall o | o in Occurrences(notes)
      ensures MayResolve(fold, notes, table, o.src, notes[o.src].links[o.index], Lookup(resolved, o))
      ensures o in resolved ==> resolved[o] in notes
    {
      MayResolveToNotes(fold, notes, table, o.src, notes[o.src].links[o.index], Lookup(resolved, o));
    }
  }

  /** Order does not matter if and only if every link is unambiguous. */
  lemma OrderDoesNotMatterIff(fold: CaseFold, notes: map<string, NoteData>)
    ensures OrderDoesNotMatter(fold, notes) <==> AllUnambiguous(fold, notes)
  {
    if AllUnambiguous(fold, notes) {
      forall table, resolved, table', resolved' |
        Outcome(fold, notes, table, resolved) && Outcome(fold, notes, table', resolved') ensures resolved == resolved'
      {
        SameOutcome(fold, notes, table, resolved, table', resolved');
      }
    }
    if OrderDoesNotMatter(fold, notes) {
      forall x | x in Occurrences(notes) ensures Unambiguous(fold, notes, x.src, notes[x.src].links[x.index]) {
        OneOutcomeIsOneResult(fold, notes, x);
        OneResultIsUnambiguous(fold, notes, x.src, notes[x.src].links[x.index]);
      }
    }
  }

  lemma SameOutcome(fold: CaseFold, notes: map<string, NoteData>, table: map<string, string>,
      resolved: map<Occurrence, string>,
                    table': map<string, string>, resolved': map<Occurrence, string>)
    requires AllUnambiguous(fold, notes)
    requires Outcome(fold, notes, table, resolved) && Outcome(fold, notes, table', resolved')
    ensures resolved == resolved'
  {
    hide MayResolve, Unambiguous, IsLookup, NaiveTarget;
    forall o | o in Occurrences(notes) ensures Lookup(resolved, o) == Lookup(resolved', o) {
      ResolutionIsNaive(fold, notes, table, o.src, notes[o.src].links[o.index], Lookup(resolved, o));
      ResolutionIsNaive(fold, notes, table', o.src, notes[o.src].links[o.index], Lookup(resolved', o));
    }
  }

  lemma OneOutcomeIsOneResult(fold: CaseFold, notes: map<string, NoteData>, x: Occurrence)
    requires OrderDoesNotMatter(fold, notes) && x in Occurrences(notes)
    ensures OneResult(fold, notes, x.src, notes[x.src].links[x.index])
  {
    var link := notes[x.src].links[x.index];
    hide MayResolve, IsLookup, Treated, ResolveAllWith;
    forall table, r, table', r' |
      && IsLookup(notes, table) && MayResolve(fold, notes, table, x.src, link, r)
      && IsLookup(notes, table') && MayResolve(fold, notes, table', x.src, link, r') ensures r == r'
    {
      ResolvedAllWith(fold, notes, table, x, r);
      ResolvedAllWith(fold, notes, table', x, r');
    }
  }

  /* ---------- all counts ---------- */

  /** Every run leaves the same counts. */
  ghost predicate CountsDoNotVary(fold: CaseFold, notes: map<string, NoteData>) {
    forall table, resolved, table', resolved', p |
      Outcome(fold, notes, table, resolved) && Outcome(fold, notes, table', resolved') ::
      |ResolvedTo(resolved, p)| == |ResolvedTo(resolved', p)|
  }

  /** The counts are the same in every order, too, if and only if every link is unambiguous. */
  lemma CountsDoNotVaryIff(fold: CaseFold, notes: map<string, NoteData>)
    ensures CountsDoNotVary(fold, notes) <==> AllUnambiguous(fold, notes)
  {
    if AllUnambiguous(fold, notes) {
      OrderDoesNotMatterIff(fold, notes);
      hide Outcome, ResolvedTo, AllUnambiguous;
    }
    if CountsDoNotVary(fold, notes) {
      forall x | x in Occurrences(notes) ensures Unambiguous(fold, notes, x.src, notes[x.src].links[x.index]) {
        SameCountsAreUnambiguous(fold, notes, x);
      }
    }
  }

  ghost function ResolveAll(fold: CaseFold, notes: map<string, NoteData>, table: map<string, string>)
    : map<Occurrence, string>
  {
    map o | o in Occurrences(notes) && ResultOf(fold, notes, table, o).Some? :: ResultOf(fold, notes, table, o).value
  }

  lemma ResolvedAll(fold: CaseFold, notes: map<string, NoteData>, table: map<string, string>)
    requires IsLookup(notes, table)
    ensures Outcome(fold, notes, table, ResolveAll(fold, notes, table))
  {
    var resolved := ResolveAll(fold, notes, table);
    forall o | o in Occurrences(notes)
      ensures MayResolve(fold, notes, table, o.src, notes[o.src].links[o.index], Lookup(resolved, o))
      ensures o in resolved ==> resolved[o] in notes
    {
      MayResolveToNotes(fold, notes, table, o.src, notes[o.src].links[o.index], Lookup(resolved, o));
    }
  }

  lemma SmallerSet(a: set<Occurrence>, b: set<Occurrence>, x: Occurrence)
    requires a <= b && x in b && x !in a
    ensures |a| < |b|
  {
    SubsetSize(a, b - {x});
  }

  /** The key of x leads to t in one table and elsewhere in the other: there t loses the occurrence x and gains none. */
  lemma MovedKeyMovesCount(fold: CaseFold, notes: map<string, NoteData>, x: Occurrence, table: map<string, string>,
                           table': map<string, string>, t: string)
    requires x in Occurrences(notes) && IsLookup(notes, table) && IsLookup(notes, table') && x.src != t
    requires
      var link := notes[x.src].links[x.index];
      && link in table && table[link] == t && link in table' && table'[link] != t
      && (forall k | k != link :: (k in table <==> k in table') && (k in table ==> table[k] == table'[k]))
      && ResultOf(fold, notes, table', x) != Some(t)
    ensures
      |ResolvedTo(ResolveAll(fold, notes, table'), t)| < |ResolvedTo(ResolveAll(fold, notes, table), t)|
  {
    var link := notes[x.src].links[x.index];
    var more, fewer := ResolvedTo(ResolveAll(fold, notes, table), t), ResolvedTo(ResolveAll(fold, notes, table'), t);
    forall o | o in Occurrences(notes) && ResultOf(fold, notes, table', o) == Some(t)
      ensures ResultOf(fold, notes, table, o) == Some(t)
    {
      MovedKeyLosesNothing(fold, notes, o, link, table, table', t);
    }
    assert ResultOf(fold, notes, table, x) == Some(t);
    hide ResultOf, IsLookup, Occurrences;
    SmallerSet(fewer, more, x);
  }

  lemma MovedKeyLosesNothing(fold: CaseFold, notes: map<string, NoteData>, o: Occurrence, key: string,
                             table: map<string, string>, table': map<string, string>, t: string)
    requires o in Occurrences(notes) && key in table && table[key] == t && key in table' && table'[key] != t
    requires forall k | k != key :: (k in table <==> k in table') && (k in table ==> table[k] == table'[k])
    requires ResultOf(fold, notes, table', o) == Some(t)
    ensures ResultOf(fold, notes, table, o) == Some(t)
  {
    if notes[o.src].links[o.index] == key {
      assert o.src == table'[key];
    }
  }

  lemma SameCountsAreUnambiguous(fold: CaseFold, notes: map<string, NoteData>, x: Occurrence)
    requires CountsDoNotVary(fold, notes) && x in Occurrences(notes)
    ensures Unambiguous(fold, notes, x.src, notes[x.src].links[x.index])
  {
    var src, link := x.src, notes[x.src].links[x.index];
    forall a, b | HasKeyElsewhere(notes, src, link, a) && HasKeyElsewhere(notes, src, link, b) ensures a == b {
      if a != b {
        SharedKeyVaries(fold, notes, x, a, b);
      }
    }
    if IsKey(notes[src], link) || forall t :: !HasKeyElsewhere(notes, src, link, t) {
      forall a, b | FoldsElsewhere(fold, notes, src, link, a)
        && FoldsElsewhere(fold, notes, src, link, b) ensures a == b {
        if a != b {
          TwoMatchesVary(fold, notes, x, a, b);
        }
      }
      forall t | HasKeyElsewhere(notes, src, link, t) ensures FoldsElsewhere(fold, notes, src, link, t) {
        if !FoldsElsewhere(fold, notes, src, link, t) {
          UnfoundHolderVaries(fold, notes, x, t);
        }
      }
    }
  }

  /** A key shared by a and b: with it moved from a to b, a loses an occurrence and gains none. */
  lemma SharedKeyVaries(fold: CaseFold, notes: map<string, NoteData>, x: Occurrence, a: string, b: string)
    requires x in Occurrences(notes) && a != b
    requires HasKeyElsewhere(notes, x.src, notes[x.src].links[x.index], a)
    requires HasKeyElsewhere(notes, x.src, notes[x.src].links[x.index], b)
    ensures !CountsDoNotVary(fold, notes)
  {
    var link := notes[x.src].links[x.index];
    var table := TableWith(notes, link, a);
    var table' := table[link := b];
    ResolvedAll(fold, notes, table);
    ResolvedAll(fold, notes, table');
    MovedKeyMovesCount(fold, notes, x, table, table', a);
  }

  /** Two notes that the scan may come across: one occurrence makes the difference. */
  lemma TwoMatchesVary(fold: CaseFold, notes: map<string, NoteData>, x: Occurrence, a: string, b: string)
    requires x in Occurrences(notes) && a != b
    requires
      var link := notes[x.src].links[x.index];
      && FoldsElsewhere(fold, notes, x.src, link, a) && FoldsElsewhere(fold, notes, x.src, link, b)
      && (IsKey(notes[x.src], link) || forall t :: !HasKeyElsewhere(notes, x.src, link, t))
    ensures !CountsDoNotVary(fold, notes)
  {
    var link := notes[x.src].links[x.index];
    var table := ScanTable(notes, x.src, link);
    ResolvedAllWith(fold, notes, table, x, Some(a));
    ResolvedAllWith(fold, notes, table, x, Some(b));
    ReplacesResult(fold, notes, table, x, a, b);
    OneLess(ResolveAllWith(fold, notes, table, x, Some(a)), x, a, b);
    hide ResolveAllWith, Outcome, ResolvedTo;
  }

  lemma ReplacesResult(fold: CaseFold, notes: map<string, NoteData>, table: map<string, string>, x: Occurrence,
                       a: string, b: string)
    requires x in Occurrences(notes)
    ensures
      var resolved := ResolveAllWith(fold, notes, table, x, Some(a));
      && x in resolved && resolved[x] == a
      && ResolveAllWith(fold, notes, table, x, Some(b)) == resolved[x := b]
  {
    hide ResultOf, Occurrences;
  }

  lemma OneLess(resolved: map<Occurrence, string>, x: Occurrence, a: string, b: string)
    requires x in resolved && resolved[x] == a && a != b
    ensures |ResolvedTo(resolved[x := b], a)| == |ResolvedTo(resolved, a)| - 1
  {
    assert ResolvedTo(resolved[x := b], a) == ResolvedTo(resolved, a) - {x};
  }

  /**
   A holder of the key that the scan does not find, beside a source that holds it too: with the key at the
   source, it loses them all.
   */
  lemma UnfoundHolderVaries(fold: CaseFold, notes: map<string, NoteData>, x: Occurrence, t: string)
    requires x in Occurrences(notes)
    requires
      var link := notes[x.src].links[x.index];
      && HasKeyElsewhere(notes, x.src, link, t) && !FoldsElsewhere(fold, notes, x.src, link, t)
      && IsKey(notes[x.src], link)
    ensures !CountsDoNotVary(fold, notes)
  {
    var link := notes[x.src].links[x.index];
    var table := TableWith(notes, link, t);
    var table' := table[link := x.src];
    ResolvedAll(fold, notes, table);
    ResolvedAll(fold, notes, table');
    MovedKeyMovesCount(fold, notes, x, table, table', t);
  }

  /* ---------- shared keys ---------- */

  /** Note `s` links to x, an alias of both `a` and `b`: the count of `a` is 1 in one order and 0 in another. */
  lemma SharedAliasSplitsCounts(fold: CaseFold, s: string, a: string, b: string, x: string)
    requires s != a && s != b && a != b
    ensures
      var notes := map[s := NoteWith(s, [], [x]), a := NoteWith(a, [x], []), b := NoteWith(b, [x], [])];
      exists table, resolved, table', resolved' ::
        && Outcome(fold, notes, table, resolved) && |ResolvedTo(resolved, a)| == 1
        && Outcome(fold, notes, table', resolved') && |ResolvedTo(resolved', a)| == 0
  {
    var notes := map[s := NoteWith(s, [], [x]), a := NoteWith(a, [x], []), b := NoteWith(b, [x], [])];
    var o := Occurrence(s, 0);
    assert Occurrences(notes) == {o};
    var table := TableWith(notes, x, a);
    var table' := TableWith(notes, x, b);
    ResolvedAllWith(fold, notes, table, o, Some(a));
    ResolvedAllWith(fold, notes, table', o, Some(b));
    var resolved, resolved' := ResolveAllWith(fold, notes, table, o, Some(a)),
      ResolveAllWith(fold, notes, table', o, Some(b));
    assert ResolvedTo(resolved, a) == {o} && ResolvedTo(resolved', a) == {};
  }
}

/**
 What the counts of computeBacklinks add up to, for every iteration order, and when they do
 not depend on the order: under the premises below they are those of a naive scan.
 */
module BacklinkCounts {
  import opened Wrappers
  import opened NoteIndex
  import opened Backlinks

  ghost function SomeKey(counts: map<string, int>): (p: string)
    requires counts != map[]
    ensures p in counts
  {
    var p :| p in counts;
    p
  }

  ghost function Sum(counts: map<string, int>): int
    decreases |counts|
  {
    if counts == map[] then 0
    else counts[SomeKey(counts)] + Sum(counts - {SomeKey(counts)})
  }

  /** The counts a run leaves: `Counted` of Backlinks, as a map. */
  ghost predicate CountsOf(notes: map<string, NoteData>, resolved: map<Occurrence, string>, counts: map<string, int>) {
    counts.Keys == notes.Keys && forall p | p in counts :: counts[p] == |ResolvedTo(resolved, p)|
  }

  lemma {:induction false} SumIsResolved(resolved: map<Occurrence, string>, counts: map<string, int>)
    requires forall p | p in counts :: counts[p] == |ResolvedTo(resolved, p)|
    requires forall o | o in resolved :: resolved[o] in counts
    ensures Sum(counts) == |resolved|
    decreases |counts|
  {
    if counts == map[] {
      assert resolved.Keys == {};
    } else {
      var p := SomeKey(counts);
      var others := resolved - ResolvedTo(resolved, p);
      Partition(resolved, p);
      hide ResolvedTo;
      forall o | o in others ensures others[o] in counts - {p} {
        NotTakenOut(resolved, o, p);
      }
      SumIsResolved(others, counts - {p});
    }
  }

  lemma NotTakenOut(resolved: map<Occurrence, string>, o: Occurrence, p: string)
    ensures o in resolved - ResolvedTo(resolved, p) <==> o in resolved && resolved[o] != p
  {}

  lemma Partition(resolved: map<Occurrence, string>, p: string)
    ensures
      var others := resolved - ResolvedTo(resolved, p);
      && |resolved| == |ResolvedTo(resolved, p)| + |others|
      && forall q | q != p :: ResolvedTo(others, q) == ResolvedTo(resolved, q)
  {
    assert resolved.Keys == (resolved - ResolvedTo(resolved, p)).Keys + ResolvedTo(resolved, p);
  }

  ghost function LinkCounts(notes: map<string, NoteData>): map<string, int> {
    map p | p in notes :: |notes[p].links|
  }

  /** Every occurrence, filed under its own note. */
  ghost function BySource(notes: map<string, NoteData>): map<Occurrence, string> {
    map o | o in Occurrences(notes) :: o.src
  }

  lemma {:induction false} OccurrencesOfNote(p: string, n: nat)
    ensures |set i | 0 <= i < n :: Occurrence(p, i)| == n
  {
    if n > 0 {
      OccurrencesOfNote(p, n - 1);
      assert (set i | 0 <= i < n :: Occurrence(p, i)) == (set i | 0 <= i < n - 1 :: Occurrence(p, i)) +
        {Occurrence(p, n - 1)};
    }
  }

  lemma TotalLinks(notes: map<string, NoteData>)
    ensures Sum(LinkCounts(notes)) == |Occurrences(notes)|
  {
    forall p | p in notes ensures |ResolvedTo(BySource(notes), p)| == |notes[p].links| {
      OccurrencesOfNote(p, |notes[p].links|);
      assert ResolvedTo(BySource(notes), p) == set i | 0 <= i < |notes[p].links| :: Occurrence(p, i);
    }
    SumIsResolved(BySource(notes), LinkCounts(notes));
    assert BySource(notes).Keys == Occurrences(notes);
  }

  /**
   Conservation, for every iteration order and without any premise: the counts add up to the
   number of resolved occurrences, hence to at most the number of links; and no note's own
   links add to its count.
   */
  lemma CountsAreConserved(fold: CaseFold, notes: map<string, NoteData>, table: map<string, string>,
                           resolved: map<Occurrence, string>, counts: map<string, int>)
    requires IsLookup(notes, table) && Treated(fold, notes, table, Occurrences(notes), resolved)
    requires CountsOf(notes, resolved, counts)
    ensures Sum(counts) == |resolved| <= Sum(LinkCounts(notes))
    ensures forall o | o in resolved :: resolved[o] != o.src
  {
    SumIsResolved(resolved, counts);
    TotalLinks(notes);
    SubsetSize(resolved.Keys, Occurrences(notes));
    NoOwnLinks(fold, notes, table, resolved);
  }

  lemma NoOwnLinks(fold: CaseFold, notes: map<string, NoteData>, table: map<string, string>,
      resolved: map<Occurrence, string>)
    requires Treated(fold, notes, table, Occurrences(notes), resolved)
    ensures forall o | o in resolved :: resolved[o] != o.src
  {
    forall o | o in resolved ensures resolved[o] != o.src {
      assert MayResolve(fold, notes, table, o.src, notes[o.src].links[o.index], Lookup(resolved, o));
    }
  }

  lemma SubsetSize<T>(a: set<T>, b: set<T>)
    requires a <= b
    ensures |a| <= |b|
  {
    assert b == a + (b - a);
  }

  /* ---------- determinism ---------- */

  ghost predicate NoBlankLinks(notes: map<string, NoteData>) {
    forall p | p in notes :: "" !in notes[p].links
  }

  /** No two entries share a path, title or alias. */
  ghost predicate DisjointKeys(notes: map<string, NoteData>) {
    forall a, b, key | a in notes && b in notes && IsKey(notes[a], key) && IsKey(notes[b], key) :: a == b
  }

  /** The names the fallback goes by, blanks aside. */
  function Names(d: NoteData): set<string> {
    {Base(d.path), d.title} - {""}
  }

  /** No name of one entry equals a name of another up to case. */
  ghost predicate DistinctNames(fold: CaseFold, notes: map<string, NoteData>) {
    forall a, b, x, y | a in notes && b in notes && a != b && x in Names(notes[a]) && y in Names(notes[b]) ::
      Fold(fold, x) != Fold(fold, y)
  }

  ghost predicate HasKeyElsewhere(notes: map<string, NoteData>, src: string, link: string, t: string) {
    t in notes && t != src && IsKey(notes[t], link)
  }

  ghost predicate FoldsElsewhere(fold: CaseFold, notes: map<string, NoteData>, src: string, link: string, t: string) {
    t in notes && t != src && FoldMatch(fold, notes[t], link)
  }

  /** The naive scan: another entry with that key, or else another entry with that name, or else none. */
  ghost function NaiveTarget(fold: CaseFold, notes: map<string, NoteData>, src: string, link: string): Option<string> {
    if t :| HasKeyElsewhere(notes, src, link, t) then Some(t)
    else if t :| FoldsElsewhere(fold, notes, src, link, t) then Some(t)
    else None
  }

  ghost function NaiveCount(fold: CaseFold, notes: map<string, NoteData>, p: string): nat {
    |set o | o in Occurrences(notes) && NaiveTarget(fold, notes, o.src, notes[o.src].links[o.index]) == Some(p)|
  }

  /**
   What makes the resolution of one link independent of the iteration orders. Its key belongs to at most one other note.
   And where the scan may be reached, because the source has the key itself or no note has it, at most one other note
   goes by that name, and the one with the key is among them.
   */
  ghost predicate Unambiguous(fold: CaseFold, notes: map<string, NoteData>, src: string, link: string)
    requires src in notes
  {
    && (forall a, b | HasKeyElsewhere(notes, src, link, a) && HasKeyElsewhere(notes, src, link, b) :: a == b)
    && (IsKey(notes[src], link) || (forall t :: !HasKeyElsewhere(notes, src, link, t)) ==>
          && (forall a, b | FoldsElsewhere(fold, notes, src, link, a) && FoldsElsewhere(fold, notes, src, link, b) ::
            a == b)
          && (forall t | HasKeyElsewhere(notes, src, link, t) :: FoldsElsewhere(fold, notes, src, link, t)))
  }

  ghost predicate AllUnambiguous(fold: CaseFold, notes: map<string, NoteData>) {
    forall o | o in Occurrences(notes) :: Unambiguous(fold, notes, o.src, notes[o.src].links[o.index])
  }

  lemma FoldMatchIsUnique(fold: CaseFold, notes: map<string, NoteData>, src: string, link: string, a: string, b: string)
    requires DistinctNames(fold, notes) && link != ""
    requires FoldsElsewhere(fold, notes, src, link, a) && FoldsElsewhere(fold, notes, src, link, b)
    ensures a == b
  {
    var x := if Fold(fold, link) == Fold(fold, Base(notes[a].path)) then Base(notes[a].path) else notes[a].title;
    var y := if Fold(fold, link) == Fold(fold, Base(notes[b].path)) then Base(notes[b].path) else notes[b].title;
    assert |x| == |link| && |y| == |link|;
    assert x in Names(notes[a]) && y in Names(notes[b]);
  }

  /**
   A workspace without blank links, with disjoint keys and with names that differ by more than case is an
   instance.
   */
  lemma DistinctNotesAreUnambiguous(fold: CaseFold, notes: map<string, NoteData>)
    requires NoBlankLinks(notes) && DisjointKeys(notes) && DistinctNames(fold, notes)
    ensures AllUnambiguous(fold, notes)
  {
    forall o | o in Occurrences(notes) ensures Unambiguous(fold, notes, o.src, notes[o.src].links[o.index]) {
      var src, link := o.src, notes[o.src].links[o.index];
      assert link in notes[src].links;
      forall a, b | FoldsElsewhere(fold, notes, src, link, a)
        && FoldsElsewhere(fold, notes, src, link, b) ensures a == b {
        FoldMatchIsUnique(fold, notes, src, link, a, b);
      }
    }
  }

  lemma ResolutionIsNaive(fold: CaseFold, notes: map<string, NoteData>, table: map<string, string>,
                          src: string, link: string, r: Option<string>)
    requires IsLookup(notes, table) && src in notes && Unambiguous(fold, notes, src, link)
    requires MayResolve(fold, notes, table, src, link, r)
    ensures r == NaiveTarget(fold, notes, src, link)
  {
    if t :| HasKeyElsewhere(notes, src, link, t) {
      assert IsKey(notes[t], link) && link in table && IsKey(notes[table[link]], link);
      if table[link] == src {
        assert FoldsElsewhere(fold, notes, src, link, t);
        assert r.Some? && FoldsElsewhere(fold, notes, src, link, r.value);
      } else {
        assert HasKeyElsewhere(notes, src, link, table[link]);
      }
    } else {
      if link in table && table[link] != src {
        assert HasKeyElsewhere(notes, src, link, table[link]);
      }
      if r.Some? {
        assert FoldsElsewhere(fold, notes, src, link, r.value);
      }
    }
  }

  /**
   Refinement: if every link is unambiguous, whatever the iteration orders and the counts
   before, every entry's count is the number of occurrences in other notes that the naive scan resolves to it.
   */
  lemma CountsAreNaive(fold: CaseFold, notes: map<string, NoteData>, table: map<string, string>,
                       resolved: map<Occurrence, string>, p: string)
    requires IsLookup(notes, table) && Treated(fold, notes, table, Occurrences(notes), resolved)
    requires AllUnambiguous(fold, notes)
    ensures |ResolvedTo(resolved, p)| == NaiveCount(fold, notes, p)
  {
    hide NaiveTarget, Unambiguous, IsLookup, MayResolve;
    forall o | o in Occurrences(notes)
      ensures Lookup(resolved, o) == NaiveTarget(fold, notes, o.src, notes[o.src].links[o.index])
    {
      ResolutionIsNaive(fold, notes, table, o.src, notes[o.src].links[o.index], Lookup(resolved, o));
    }
    assert ResolvedTo(resolved, p) ==
      set o | o in Occurrences(notes) && NaiveTarget(fold, notes, o.src, notes[o.src].links[o.index]) == Some(p);
  }

  /** A blank link may go to any untitled note: the order decides. */
  lemma BlankLinkIsAmbiguous(fold: CaseFold, notes: map<string, NoteData>, table: map<string, string>,
                             src: string, a: string, b: string)
    requires IsLookup(notes, table) && "" !in table
    requires a in notes && b in notes && a != src && b != src && notes[a].title == "" && notes[b].title == ""
    ensures MayResolve(fold, notes, table, src, "", Some(a)) && MayResolve(fold, notes, table, src, "", Some(b))
  {
    assert FoldMatch(fold, notes[a], "") && FoldMatch(fold, notes[b], "");
  }

  /* ---------- occurrences and notes ---------- */

  ghost function SourcesOf(occurrences: set<Occurrence>): set<string> {
    set o | o in occurrences :: o.src
  }

  ghost predicate OncePerNote(occurrences: set<Occurrence>) {
    forall o, x | o in occurrences && x in occurrences && o.src == x.src :: o == x
  }

  lemma {:induction false} SourcesOfSize(occurrences: set<Occurrence>)
    ensures |SourcesOf(occurrences)| <= |occurrences|
    ensures |SourcesOf(occurrences)| == |occurrences| <==> OncePerNote(occurrences)
    decreases |occurrences|
  {
    if occurrences != {} {
      var o :| o in occurrences;
      var rest := occurrences - {o};
      SourcesOfSize(rest);
      assert SourcesOf(occurrences) == SourcesOf(rest) + {o.src};
      if o.src in SourcesOf(rest) {
        var x :| x in rest && x.src == o.src;
      }
    }
  }

  /**
   A count is never less than the number of linking notes, and equal to it if and only if no note has two
   occurrences resolved to the entry.
   */
  lemma CountIsLinkingNotesIff(resolved: map<Occurrence, string>, counts: map<string, int>, p: string)
    requires p in counts && counts[p] == |ResolvedTo(resolved, p)|
    ensures counts[p] >= |SourcesOf(ResolvedTo(resolved, p))|
    ensures counts[p] == |SourcesOf(ResolvedTo(resolved, p))| <==>
            forall o, x | o in resolved && x in resolved && resolved[o] == resolved[x] == p && o.src == x.src :: o == x
  {
    SourcesOfSize(ResolvedTo(resolved, p));
  }

  function NoteWith(path: string, aliases: seq<string>, links: seq<string>): NoteData {
    NoteData(path, "", aliases, [], 0, "", [], links)
  }

  /** Note `s` links to x twice, an alias of `a`: one linking note, but a count of 2, in every order. */
  lemma TwoLinksCountTwice(fold: CaseFold, s: string, a: string, x: string, table: map<string, string>,
      resolved: map<Occurrence, string>)
    requires s != a && s != x
    requires
      var notes := map[s := NoteWith(s, [], [x, x]), a := NoteWith(a, [x], [])];
      IsLookup(notes, table) && Treated(fold, notes, table, Occurrences(notes), resolved)
    ensures |ResolvedTo(resolved, a)| == 2 && |SourcesOf(ResolvedTo(resolved, a))| == 1
  {
    var notes := map[s := NoteWith(s, [], [x, x]), a := NoteWith(a, [x], [])];
    assert IsKey(notes[a], x) && table[x] == a;
    var first, second := Occurrence(s, 0), Occurrence(s, 1);
    assert Occurrences(notes) == {first, second};
    assert MayResolve(fold, notes, table, s, x, Lookup(resolved, first))
      && MayResolve(fold, notes, table, s, x, Lookup(resolved, second));
    assert ResolvedTo(resolved, a) == {first, second} && SourcesOf({first, second}) == {s};
  }

  /** A workspace of two notes, one linking to the other by its path: a count of 1, in every order. */
  lemma OneLinkCounts(fold: CaseFold, a: NoteData, b: NoteData, table: map<string, string>,
      resolved: map<Occurrence, string>)
    requires a.path != b.path && a.links == [] && b.links == [a.path] && b.title == "" && b.aliases == []
    requires
      var notes := map[a.path := a, b.path := b];
      IsLookup(notes, table) && Treated(fold, notes, table, Occurrences(notes), resolved)
    ensures |ResolvedTo(resolved, a.path)| == 1
  {
    var notes := map[a.path := a, b.path := b];
    assert IsKey(notes[a.path], a.path) && table[a.path] == a.path;
    var o := Occurrence(b.path, 0);
    assert Occurrences(notes) == {o};
    assert MayResolve(fold, notes, table, b.path, a.path, Lookup(resolved, o));
    assert ResolvedTo(resolved, a.path) == {o};
  }
}

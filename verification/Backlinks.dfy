/**
 computeBacklinks of internal/index/backlinks.go. Go visits a map in any order; here every
 loop over the entries takes an arbitrary remaining key, so what is proved of the method
 holds for all orders, a new one in each loop included.
 */
module Backlinks {
  import opened Wrappers
  import opened NoteIndex
  import opened Strings

  /** A link occurrence: the path of its note and its index among the note's links. */
  datatype Occurrence = Occurrence(src: string, index: nat)

  /** strings.EqualFold compares characters by their simple case fold, a map of characters. */
  type CaseFold = char -> char

  function Fold(fold: CaseFold, s: string): (r: string)
    ensures |r| == |s|
  {
    seq(|s|, i requires 0 <= i < |s| => fold(s[i]))
  }

  /** What follows the last '/'. */
  function AfterLastSlash(path: string): string {
    if '/' !in path then path
    else if path[0] == '/' && '/' !in path[1..] then path[1..]
    else AfterLastSlash(path[1..])
  }

  /** The file's name without directory and ".md". */
  function Base(path: string): string {
    var name := AfterLastSlash(path);
    if IsMarkdown(name) then name[..|name| - 3] else name
  }

  /** One of the lookup keys of an entry. */
  predicate IsKey(d: NoteData, key: string) {
    key == d.path || (d.title != "" && key == d.title) || key in d.aliases
  }

  /** The basename or title matches up to case. */
  predicate FoldMatch(fold: CaseFold, d: NoteData, link: string) {
    Fold(fold, link) == Fold(fold, Base(d.path)) || Fold(fold, link) == Fold(fold, d.title)
  }

  /** `table` maps every lookup key to the path of some entry with that key. */
  ghost predicate IsLookup(notes: map<string, NoteData>, table: map<string, string>) {
    && (forall key | key in table :: table[key] in notes && IsKey(notes[table[key]], key))
    && (forall p, key | p in notes && IsKey(notes[p], key) :: key in table)
  }

  /** What the two-stage match may do with a link of `src`, given the lookup table. */
  ghost predicate MayResolve(fold: CaseFold, notes: map<string, NoteData>, table: map<string, string>,
                             src: string, link: string, r: Option<string>) {
    if link in table && table[link] != src then r == Some(table[link])
    else
      match r
      case Some(t) => t in notes && t != src && FoldMatch(fold, notes[t], link)
      case None => forall t | t in notes && t != src :: !FoldMatch(fold, notes[t], link)
  }

  ghost function Occurrences(notes: map<string, NoteData>): set<Occurrence> {
    set p, i | p in notes && 0 <= i < |notes[p].links| :: Occurrence(p, i)
  }

  /** The occurrences that were resolved to p. */
  ghost function ResolvedTo(resolved: map<Occurrence, string>, p: string): set<Occurrence> {
    set o | o in resolved && resolved[o] == p
  }

  ghost function Lookup(resolved: map<Occurrence, string>, o: Occurrence): Option<string> {
    if o in resolved then Some(resolved[o]) else None
  }

  /** Each occurrence in `done` was treated as the two-stage match allows; no other was resolved. */
  ghost predicate Treated(fold: CaseFold, notes: map<string, NoteData>, table: map<string, string>,
                          done: set<Occurrence>, resolved: map<Occurrence, string>) {
    && resolved.Keys <= done <= Occurrences(notes)
    && (forall o | o in resolved :: resolved[o] in notes)
    && forall o | o in done :: MayResolve(fold, notes, table, o.src, notes[o.src].links[o.index], Lookup(resolved, o))
  }

  /* ---------- the method ---------- */

  method ResetCounts(idx: Index)
    requires idx.Valid()
    modifies idx.Objects()`backlinkCount
    ensures forall p | p in idx.entries :: idx.entries[p].backlinkCount == 0
  {
    var rest := idx.entries.Keys;
    while rest != {}
      invariant rest <= idx.entries.Keys
      invariant forall p | p in idx.entries && p !in rest :: idx.entries[p].backlinkCount == 0
      decreases |rest|
    {
      var p :| p in rest;
      rest := rest - {p};
      idx.entries[p].backlinkCount := 0;
    }
  }

  ghost function PathsIn(table: map<string, NoteEntry>): map<string, string> {
    map key | key in table :: table[key].note.path
  }

  /** Keys are taken so far from the entries outside `rest`. */
  ghost predicate PartLookup(notes: map<string, NoteData>, table: map<string, string>, rest: set<string>) {
    && (forall key | key in table :: table[key] in notes && IsKey(notes[table[key]], key))
    && (forall p, key | p in notes && p !in rest && IsKey(notes[p], key) :: key in table)
  }

  lemma TakeKeys(notes: map<string, NoteData>, before: map<string, string>, after: map<string, string>, e: NoteData,
      rest: set<string>)
    requires PartLookup(notes, before, rest + {e.path}) && e.path in notes && notes[e.path] == e
    requires forall key :: key in after <==> key in before || IsKey(e, key)
    requires forall key | key in after :: after[key] == if IsKey(e, key) then e.path else before[key]
    ensures PartLookup(notes, after, rest)
  {}

  method BuildLookup(idx: Index) returns (table: map<string, NoteEntry>)
    requires idx.Valid()
    ensures IsLookup(idx.Notes(), PathsIn(table))
    ensures forall key | key in table :: table[key] in idx.Objects()
  {
    table := map[];
    var rest := idx.entries.Keys;
    while rest != {}
      invariant rest <= idx.entries.Keys
      invariant PartLookup(idx.Notes(), PathsIn(table), rest)
      invariant forall key | key in table :: table[key] in idx.Objects()
      decreases |rest|
    {
      var p :| p in rest;
      var e := idx.entries[p];
      assert rest - {p} + {p} == rest;
      rest := rest - {p};
      var before := table;
      table := AddKeys(before, e);
      TakeKeys(idx.Notes(), PathsIn(before), PathsIn(table), e.note, rest);
    }
  }

  method AddKeys(before: map<string, NoteEntry>, e: NoteEntry) returns (table: map<string, NoteEntry>)
    ensures forall key :: key in table <==> key in before || IsKey(e.note, key)
    ensures forall key | key in table :: table[key] == if IsKey(e.note, key) then e else before[key]
  {
    table := before[e.note.path := e];
    if e.note.title != "" {
      table := table[e.note.title := e];
    }
    for i := 0 to |e.note.aliases|
      invariant forall key :: key in table <==>
                  key in before || key == e.note.path || (e.note.title != "" && key == e.note.title)
                    || key in e.note.aliases[..i]
      invariant forall key | key in table :: table[key] ==
                  if key == e.note.path || (e.note.title != "" && key == e.note.title) || key in e.note.aliases[..i]
                    then e else before[key]
    {
      assert e.note.aliases[..i + 1] == e.note.aliases[..i] + [e.note.aliases[i]];
      table := table[e.note.aliases[i] := e];
    }
    assert e.note.aliases[..|e.note.aliases|] == e.note.aliases;
  }

  /** The first entry other than the source that the fallback scan comes across, if any. */
  method FallbackScan(idx: Index, fold: CaseFold, src: string, link: string) returns (target: NoteEntry?)
    requires idx.Valid()
    ensures target != null ==> target in idx.Objects() && target.note.path != src && FoldMatch(fold, target.note, link)
    ensures target == null ==> forall t | t in idx.entries && t != src :: !FoldMatch(fold, idx.entries[t].note, link)
  {
    target := null;
    var rest := idx.entries.Keys;
    while rest != {}
      invariant rest <= idx.entries.Keys && target == null
      invariant forall t | t in idx.entries && t !in rest && t != src :: !FoldMatch(fold, idx.entries[t].note, link)
      decreases |rest|
    {
      var t :| t in rest;
      rest := rest - {t};
      if t == src {
        continue;
      }
      var e := idx.entries[t];
      var base := Base(e.note.path);
      if Fold(fold, link) == Fold(fold, base) || Fold(fold, link) == Fold(fold, e.note.title) {
        return e;
      }
    }
  }

  method ResolveLink(idx: Index, fold: CaseFold, table: map<string, NoteEntry>, src: string, link: string)
      returns (target: NoteEntry?)
    requires idx.Valid() && forall key | key in table :: table[key] in idx.Objects()
    ensures target != null ==> target in idx.Objects() && target.note.path != src
    ensures MayResolve(fold, idx.Notes(), PathsIn(table), src, link, if target == null then None
      else Some(target.note.path))
  {
    if link in table && table[link].note.path != src {
      return table[link];
    }
    target := FallbackScan(idx, fold, src, link);
  }

  /** The count of every entry is the number of occurrences resolved to it. */
  ghost predicate Counted(idx: Index, resolved: map<Occurrence, string>)
    reads idx, idx.Objects()
  {
    forall p | p in idx.entries :: idx.entries[p].backlinkCount == |ResolvedTo(resolved, p)|
  }

  lemma OneMore(resolved: map<Occurrence, string>, o: Occurrence, t: string, p: string)
    requires o !in resolved
    ensures |ResolvedTo(resolved[o := t], p)| == |ResolvedTo(resolved, p)| + (if p == t then 1 else 0)
  {
    assert ResolvedTo(resolved[o := t], p) == if p == t then ResolvedTo(resolved, p) + {o} else ResolvedTo(resolved, p);
  }

  ghost function Resolve(resolved: map<Occurrence, string>, o: Occurrence, r: Option<string>): map<Occurrence, string> {
    match r case None => resolved case Some(t) => resolved[o := t]
  }

  lemma TreatOne(fold: CaseFold, notes: map<string, NoteData>, table: map<string, string>,
                 done: set<Occurrence>, resolved: map<Occurrence, string>, o: Occurrence, r: Option<string>)
    requires Treated(fold, notes, table, done, resolved) && o in Occurrences(notes) && o !in done
    requires r.Some? ==> r.value in notes
    requires MayResolve(fold, notes, table, o.src, notes[o.src].links[o.index], r)
    ensures Treated(fold, notes, table, done + {o}, Resolve(resolved, o, r))
  {
    forall x | x in done + {o}
      ensures Lookup(Resolve(resolved, o, r), x) == if x == o then r else Lookup(resolved, x)
    {}
    hide MayResolve, Occurrences;
  }

  /** One link: look it up, scan if need be, and add one to what it resolves to. */
  method CountLink(idx: Index, fold: CaseFold, table: map<string, NoteEntry>, o: Occurrence, link: string,
                   ghost done: set<Occurrence>, ghost before: map<Occurrence, string>)
    returns (ghost resolved: map<Occurrence, string>)
    requires idx.Valid() && forall key | key in table :: table[key] in idx.Objects()
    requires o in Occurrences(idx.Notes()) && o !in done && link == idx.Notes()[o.src].links[o.index]
    requires Treated(fold, idx.Notes(), PathsIn(table), done, before) && Counted(idx, before)
    modifies idx.Objects()`backlinkCount
    ensures Treated(fold, idx.Notes(), PathsIn(table), done + {o}, resolved) && Counted(idx, resolved)
  {
    var target := ResolveLink(idx, fold, table, o.src, link);
    ghost var r := if target == null then None else Some(target.note.path);
    resolved := Resolve(before, o, r);
    TreatOne(fold, idx.Notes(), PathsIn(table), done, before, o, r);
    assert o !in before;
    hide Treated, MayResolve, PathsIn;
    if target != null {
      Increment(idx, target, o, before);
    }
  }

  method Increment(idx: Index, target: NoteEntry, ghost o: Occurrence, ghost before: map<Occurrence, string>)
    requires idx.Valid() && target in idx.Objects() && Counted(idx, before) && o !in before
    modifies target`backlinkCount
    ensures Counted(idx, before[o := target.note.path])
  {
    forall p ensures |ResolvedTo(before[o := target.note.path], p)| ==
      |ResolvedTo(before, p)| + (if p == target.note.path then 1 else 0) {
      OneMore(before, o, target.note.path, p);
    }
    hide ResolvedTo;
    target.backlinkCount := target.backlinkCount + 1;
  }

  /** `done` holds the occurrences of the entries outside `rest`, those of `src` only up to index i. */
  ghost predicate DoneUpTo(notes: map<string, NoteData>, done: set<Occurrence>, rest: set<string>, src: string,
      i: int) {
    forall o | o in Occurrences(notes) :: o in done <==> o.src !in rest && (o.src == src ==> o.index < i)
  }

  lemma DoneOneMore(notes: map<string, NoteData>, done: set<Occurrence>, rest: set<string>, src: string, i: nat)
    requires DoneUpTo(notes, done, rest, src, i) && src !in rest && src in notes && i < |notes[src].links|
    ensures Occurrence(src, i) in Occurrences(notes) && Occurrence(src, i) !in done
    ensures DoneUpTo(notes, done + {Occurrence(src, i)}, rest, src, i + 1)
  {
    assert Occurrence(src, i) in Occurrences(notes);
  }

  /** The inner loop: the links of one entry. */
  method CountLinksOf(idx: Index, fold: CaseFold, table: map<string, NoteEntry>, src: string,
                      ghost rest: set<string>, ghost before: set<Occurrence>, ghost resolved0: map<Occurrence, string>)
    returns (ghost done: set<Occurrence>, ghost resolved: map<Occurrence, string>)
    requires idx.Valid() && src in idx.entries && src !in rest
    requires forall key | key in table :: table[key] in idx.Objects()
    requires DoneUpTo(idx.Notes(), before, rest, src, 0)
    requires Treated(fold, idx.Notes(), PathsIn(table), before, resolved0) && Counted(idx, resolved0)
    modifies idx.Objects()`backlinkCount
    ensures DoneUpTo(idx.Notes(), done, rest, src, |idx.Notes()[src].links|)
    ensures Treated(fold, idx.Notes(), PathsIn(table), done, resolved) && Counted(idx, resolved)
  {
    hide Treated, Counted, DoneUpTo, PathsIn, Occurrences;
    done, resolved := before, resolved0;
    var links := idx.entries[src].note.links;
    for i := 0 to |links|
      invariant Treated(fold, idx.Notes(), PathsIn(table), done, resolved) && Counted(idx, resolved)
      invariant DoneUpTo(idx.Notes(), done, rest, src, i)
    {
      DoneOneMore(idx.Notes(), done, rest, src, i);
      resolved := CountLink(idx, fold, table, Occurrence(src, i), links[i], done, resolved);
      done := done + {Occurrence(src, i)};
    }
  }

  /**
   computeBacklinks. Whatever the iteration orders, each occurrence is resolved in a way the two-stage
   match allows, and each entry's count, whatever it was before, becomes the number of
   occurrences resolved to it. Nothing else of any entry changes.
   */
  method ComputeBacklinks(idx: Index, fold: CaseFold)
    returns (ghost table: map<string, string>, ghost resolved: map<Occurrence, string>)
    requires idx.Valid()
    modifies idx.Objects()`backlinkCount
    ensures IsLookup(idx.Notes(), table)
    ensures Treated(fold, idx.Notes(), table, Occurrences(idx.Notes()), resolved)
    ensures Counted(idx, resolved)
  {
    ResetCounts(idx);
    var targets := BuildLookup(idx);
    table, resolved := PathsIn(targets), map[];
    ghost var done: set<Occurrence> := {};
    assert forall p :: ResolvedTo(resolved, p) == {};
    assert Treated(fold, idx.Notes(), table, done, resolved) && Counted(idx, resolved);
    var rest := idx.entries.Keys;
    NothingDone(idx.Notes(), rest);
    hide Treated, Counted, IsLookup;
    while rest != {}
      invariant rest <= idx.entries.Keys
      invariant Treated(fold, idx.Notes(), table, done, resolved) && Counted(idx, resolved)
      invariant AllDoneBut(idx.Notes(), done, rest)
      decreases |rest|
    {
      var src :| src in rest;
      NextEntry(idx.Notes(), done, rest, src);
      rest := rest - {src};
      done, resolved := CountLinksOf(idx, fold, targets, src, rest, done, resolved);
      EntryDone(idx.Notes(), done, rest, src);
    }
    AllDone(fold, idx.Notes(), table, done, resolved);
  }

  ghost predicate AllDoneBut(notes: map<string, NoteData>, done: set<Occurrence>, rest: set<string>) {
    forall o | o in Occurrences(notes) :: o in done <==> o.src !in rest
  }

  lemma NothingDone(notes: map<string, NoteData>, rest: set<string>)
    requires rest == notes.Keys
    ensures AllDoneBut(notes, {}, rest)
  {}

  lemma NextEntry(notes: map<string, NoteData>, done: set<Occurrence>, rest: set<string>, src: string)
    requires AllDoneBut(notes, done, rest) && src in rest
    ensures DoneUpTo(notes, done, rest - {src}, src, 0)
  {}

  lemma EntryDone(notes: map<string, NoteData>, done: set<Occurrence>, rest: set<string>, src: string)
    requires src in notes && DoneUpTo(notes, done, rest, src, |notes[src].links|)
    ensures AllDoneBut(notes, done, rest)
  {}

  lemma AllDone(fold: CaseFold, notes: map<string, NoteData>, table: map<string, string>,
                done: set<Occurrence>, resolved: map<Occurrence, string>)
    requires AllDoneBut(notes, done, {}) && Treated(fold, notes, table, done, resolved)
    ensures Treated(fold, notes, table, Occurrences(notes), resolved)
  {
    assert done == Occurrences(notes);
  }
}

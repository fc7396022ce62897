/**
 Build of internal/index/build.go: entries from the cache where the row is as new as the
 file, from the file otherwise. The workspace is what the walk finds: for each path the
 modification time of the stat and the content a later read returns.
 */
module IndexBuild {
  import opened Wrappers
  import opened Strings
  import opened NoteIndex
  import opened IndexCache
  import opened Backlinks
  import opened BacklinkCounts

  /** The fields of a NoteEntry that parseEntry draws from the content of a note. */
  datatype Meta = Meta(title: string, aliases: seq<string>, tags: seq<string>, hash: string, headings: seq<string>,
    links: seq<string>)

  /** ParseFile and what follows it in parseEntry; None for malformed frontmatter. */
  type Parser = string -> Option<Meta>

  /**
   What the walk finds at a path: the stat's time and what a read returns, None if it fails; or
   an error of the walk itself, whatever the path's name; or a stat that fails.
   */
  datatype Visit = Visit(mtime: int, content: Option<string>) | StatFails | WalkFails

  function EntryOf(path: string, mtime: int, meta: Meta): NoteData {
    NoteData(path, meta.title, meta.aliases, meta.tags, mtime, meta.hash, meta.headings, meta.links)
  }

  function ParseVisit(parse: Parser, path: string, v: Visit): Option<NoteData> {
    match v
    case Visit(mtime, Some(content)) => (
      match parse(content)
      case None => None
      case Some(meta) => Some(EntryOf(path, mtime, meta)))
    case _ => None
  }

  /** The row is not older than the file and decodes. */
  predicate Hit(rows: map<string, Row>, path: string, mtime: int) {
    path in rows && mtime <= rows[path].mtime && rows[path].data.Encoded?
  }

  function Found(parse: Parser, rows: map<string, Row>, path: string, v: Visit): Option<NoteData> {
    if v.Visit? && Hit(rows, path, v.mtime) then Some(rows[path].data.note) else ParseVisit(parse, path, v)
  }

  /** The walk's callback returns an error. */
  predicate Fails(parse: Parser, rows: map<string, Row>, p: string, v: Visit) {
    v.WalkFails? || (IsMarkdown(p) && Found(parse, rows, p, v).None?)
  }

  /** Nothing on the walk fails. */
  ghost predicate Loads(parse: Parser, rows: map<string, Row>, walk: map<string, Visit>) {
    forall p | p in walk :: !Fails(parse, rows, p, walk[p])
  }

  /** The entries of a fresh index after Build. */
  ghost function Loaded(parse: Parser, rows: map<string, Row>, walk: map<string, Visit>): map<string, NoteData>
    requires Loads(parse, rows, walk)
  {
    map p | p in walk && IsMarkdown(p) :: Found(parse, rows, p, walk[p]).value
  }

  /** Rows are filed under the path of their entry, as FlushDirty writes them. */
  ghost predicate Filed(rows: map<string, Row>) {
    forall p | p in rows && rows[p].data.Encoded? :: rows[p].data.note.path == p
  }

  /* ---------- the method ---------- */

  method LoadRows(cache: CacheTable, dbOk: bool, badTimes: set<string>) returns (byPath: map<string, Row>, ok: bool)
    ensures (ok <==> dbOk && cache.rows.Keys !! badTimes) && (ok ==> byPath == cache.rows)
  {
    byPath := map[];
    var rows;
    rows, ok := cache.Load(dbOk, badTimes);
    if !ok {
      return;
    }
    for i := 0 to |rows|
      invariant byPath == Upserted(map[], rows[..i])
    {
      assert rows[..i + 1][..i] == rows[..i];
      byPath := byPath[rows[i].filePath := rows[i].row];
    }
    assert rows[..|rows|] == rows;
    ok := true;
  }

  /**
   The walk's callback for one note: a clean entry on a hit, a dirty one from the file otherwise, null on an
   error.
   */
  method LoadEntry(byPath: map<string, Row>, path: string, v: Visit, parse: Parser) returns (entry: NoteEntry?)
    ensures entry != null <==> Found(parse, byPath, path, v).Some?
    ensures entry != null ==> fresh(entry) && entry.note == Found(parse, byPath, path, v).value
    ensures entry != null ==> v.Visit? && entry.dirty == !Hit(byPath, path, v.mtime)
  {
    if !v.Visit? {
      return null;
    }
    if path in byPath && v.mtime <= byPath[path].mtime {
      match byPath[path].data
      case Encoded(note, count) =>
        entry := new NoteEntry(note, count, false);
        return;
      case Garbled(_) =>
    }
    match ParseVisit(parse, path, v)
    case None => entry := null;
    case Some(note) => entry := new NoteEntry(note, 0, true);
  }

  /** The .md paths of the walk outside `rest`. */
  ghost function Notes(walk: map<string, Visit>, rest: set<string>): set<string> {
    set p | p in walk && p !in rest && IsMarkdown(p)
  }

  /** The entry stands for what was found at p, and is dirty unless it came from the cache. */
  ghost predicate Stands(parse: Parser, rows: map<string, Row>, walk: map<string, Visit>, p: string, e: NoteEntry)
    reads e
  {
    p in walk && walk[p].Visit? && e.note.path == p && Found(parse, rows, p, walk[p]) == Some(e.note)
      && e.dirty == !Hit(rows, p, walk[p].mtime)
  }

  /** The walk's callback for one note. */
  method VisitNote(idx: Index, byPath: map<string, Row>, walk: map<string, Visit>, path: string, parse: Parser)
    returns (ok: bool, ghost loaded: NoteEntry?)
    requires Filed(byPath) && path in walk && IsMarkdown(path)
    modifies idx
    ensures ok <==> loaded != null
    ensures ok ==> fresh(loaded) && Stands(parse, byPath, walk, path, loaded)
    ensures ok ==> idx.entries == old(idx.entries)[path := loaded]
    ensures !ok ==> idx.entries == old(idx.entries) && !Loads(parse, byPath, walk)
  {
    var entry := LoadEntry(byPath, path, walk[path], parse);
    if entry == null {
      return false, null;
    }
    idx.entries := idx.entries[path := entry];
    return true, entry;
  }

  lemma NotesStep(walk: map<string, Visit>, rest: set<string>, p: string)
    requires rest <= walk.Keys && p in rest
    ensures Notes(walk, rest - {p}) == if IsMarkdown(p) then Notes(walk, rest) + {p} else Notes(walk, rest)
  {}

  /** The entries, those at `found` loaded by the walk and the others as before. */
  ghost predicate Walked(parse: Parser, rows: map<string, Row>, walk: map<string, Visit>,
                         before: map<string, NoteEntry>, entries: map<string, NoteEntry>, found: set<string>)
    reads set p | p in found && p in entries :: entries[p]
  {
    && entries.Keys == before.Keys + found
    && (forall p | p in found :: Stands(parse, rows, walk, p, entries[p]))
    && (forall p | p in before && p !in found :: entries[p] == before[p])
  }

  lemma WalkedOneMore(parse: Parser, rows: map<string, Row>, walk: map<string, Visit>,
                      before: map<string, NoteEntry>, entries: map<string, NoteEntry>, found: set<string>, p: string,
                        e: NoteEntry)
    requires Walked(parse, rows, walk, before, entries, found) && Stands(parse, rows, walk, p, e)
    ensures Walked(parse, rows, walk, before, entries[p := e], found + {p})
  {
    hide Stands;
  }

  ghost predicate AllIn(entries: map<string, NoteEntry>, found: set<string>, objects: set<NoteEntry>) {
    forall p | p in found && p in entries :: entries[p] in objects
  }

  lemma WalkFailure(parse: Parser, rows: map<string, Row>, walk: map<string, Visit>, p: string)
    requires p in walk && walk[p].WalkFails?
    ensures !Loads(parse, rows, walk)
  {
    assert Fails(parse, rows, p, walk[p]);
  }

  /** The walk, in any order; the first error ends it. Directories are not on it. */
  method Walk(idx: Index, byPath: map<string, Row>, walk: map<string, Visit>, parse: Parser)
    returns (foundPaths: set<string>, ok: bool, ghost loaded: set<NoteEntry>)
    requires Filed(byPath)
    modifies idx
    ensures Walked(parse, byPath, walk, old(idx.entries), idx.entries, foundPaths)
    ensures fresh(loaded) && AllIn(idx.entries, foundPaths, loaded)
    ensures if ok then foundPaths == Notes(walk, {}) else !Loads(parse, byPath, walk)
    ensures ok ==> forall p | p in walk :: !walk[p].WalkFails?
  {
    foundPaths, loaded := {}, {};
    var rest := walk.Keys;
    assert Notes(walk, rest) == {};
    while rest != {}
      invariant rest <= walk.Keys && foundPaths == Notes(walk, rest)
      invariant Walked(parse, byPath, walk, old(idx.entries), idx.entries, foundPaths)
      invariant fresh(loaded) && AllIn(idx.entries, foundPaths, loaded)
      invariant forall p | p in walk && p !in rest :: !walk[p].WalkFails?
      decreases |rest|
    {
      hide Walked, Stands, Notes, Filed, Loads, IsMarkdown;
      var path :| path in rest;
      NotesStep(walk, rest, path);
      rest := rest - {path};
      if walk[path].WalkFails? {
        WalkFailure(parse, byPath, walk, path);
        return foundPaths, false, loaded;
      }
      if IsMarkdown(path) {
        ghost var entries := idx.entries;
        ghost var entry;
        ok, entry := VisitNote(idx, byPath, walk, path, parse);
        if !ok {
          return;
        }
        WalkedOneMore(parse, byPath, walk, old(idx.entries), entries, foundPaths, path, entry);
        foundPaths, loaded := foundPaths + {path}, loaded + {entry};
      }
    }
    ok := true;
  }

  method StalePaths(byPath: map<string, Row>, foundPaths: set<string>) returns (stale: seq<string>)
    ensures forall p :: p in stale <==> p in byPath && p !in foundPaths
  {
    stale := [];
    var rest := byPath.Keys;
    while rest != {}
      invariant rest <= byPath.Keys
      invariant forall p :: p in stale <==> p in byPath && p !in foundPaths && p !in rest
      decreases |rest|
    {
      var p :| p in rest;
      rest := rest - {p};
      if p !in foundPaths {
        stale := stale + [p];
      }
    }
  }

  /** The row FlushDirty would make of the entry now. */
  ghost predicate IsCurrent(row: Row, e: NoteEntry)
    reads e
  {
    Carries(row, e.note) && row.data.backlinkCount == e.backlinkCount
  }

  /** The rows of paths that are gone from the workspace, dropped. */
  ghost function Kept(rows: map<string, Row>, walk: map<string, Visit>): map<string, Row> {
    map p | p in rows && p in Notes(walk, {}) :: rows[p]
  }

  /** The first pass: load the cache and walk the workspace. */
  method LoadNotes(idx: Index, cache: CacheTable, walk: map<string, Visit>, parse: Parser, dbOk: bool,
      badTimes: set<string>)
    returns (byPath: map<string, Row>, foundPaths: set<string>, ok: bool)
    requires idx.Valid() && Filed(cache.rows)
    modifies idx
    ensures idx.Valid() && (ok <==> dbOk && cache.rows.Keys !! badTimes && Loads(parse, cache.rows, walk))
    ensures ok ==> byPath == cache.rows && foundPaths == Notes(walk, {}) <= idx.entries.Keys
    ensures forall p | p in idx.entries ::
      fresh(idx.entries[p]) || (p in old(idx.entries) && idx.entries[p] == old(idx.entries)[p])
    ensures ok ==> idx.Notes() == old(idx.Notes()) + Loaded(parse, cache.rows, walk)
    ensures ok ==> forall p | p in foundPaths ::
      walk[p].Visit? && idx.entries[p].dirty == !Hit(cache.rows, p, walk[p].mtime)
  {
    foundPaths := {};
    byPath, ok := LoadRows(cache, dbOk, badTimes);
    if !ok {
      return;
    }
    ghost var before, entries := idx.Notes(), idx.entries;
    ghost var loaded;
    foundPaths, ok, loaded := Walk(idx, byPath, walk, parse);
    StillValid(idx, entries, byPath, walk, parse, foundPaths);
    if ok {
      AllLoaded(before, idx, byPath, walk, parse);
    }
    hide Loads, Loaded, Stands, Notes, Filed, Hit;
  }

  /** Rows of paths that are gone are deleted in one statement. */
  method DropStale(cache: CacheTable, byPath: map<string, Row>, walk: map<string, Visit>, foundPaths: set<string>,
      dbOk: bool)
    returns (ok: bool)
    requires byPath == cache.rows && foundPaths == Notes(walk, {})
    modifies cache
    ensures ok <==> dbOk || Kept(old(cache.rows), walk) == old(cache.rows)
    ensures cache.rows == if ok then Kept(old(cache.rows), walk) else old(cache.rows)
  {
    var stale := StalePaths(byPath, foundPaths);
    NoneStale(byPath, walk, stale);
    ok := cache.Delete(stale, dbOk);
  }

  /**
   Build. It succeeds exactly if every database call does and every note loads; then each note on disk has the entry
   that was found for it, dirty unless it came from the cache, stale rows are gone, and the
   counts are those of ComputeBacklinks. If it fails the cache is as before.
   */
  method Build(idx: Index, cache: CacheTable, walk: map<string, Visit>, parse: Parser, fold: CaseFold,
               loadOk: bool, badTimes: set<string>, deleteOk: bool)
    returns (ok: bool, ghost table: map<string, string>, ghost resolved: map<Occurrence, string>)
    requires idx.Valid() && Filed(cache.rows)
    modifies idx, cache, idx.Objects()`backlinkCount
    ensures idx.Valid()
    ensures ok <==>
      && loadOk && old(cache.rows.Keys) !! badTimes && Loads(parse, old(cache.rows), walk)
      && (deleteOk || Kept(old(cache.rows), walk) == old(cache.rows))
    ensures ok ==> idx.Notes() == old(idx.Notes()) + Loaded(parse, old(cache.rows), walk)
    ensures ok ==> forall p | p in Notes(walk, {}) ::
      walk[p].Visit? && p in idx.entries && idx.entries[p].dirty == !Hit(old(cache.rows), p, walk[p].mtime)
    ensures cache.rows == if ok then Kept(old(cache.rows), walk) else old(cache.rows)
    ensures ok ==>
      && IsLookup(idx.Notes(), table)
      && Treated(fold, idx.Notes(), table, Occurrences(idx.Notes()), resolved)
      && Counted(idx, resolved)
  {
    hide Loads, Loaded, Kept, Notes, Filed, Hit, IsLookup, Treated, Occurrences, Counted;
    table, resolved := map[], map[];
    var byPath, foundPaths;
    byPath, foundPaths, ok := LoadNotes(idx, cache, walk, parse, loadOk, badTimes);
    if !ok {
      return;
    }
    ok := DropStale(cache, byPath, walk, foundPaths, deleteOk);
    if !ok {
      return;
    }
    table, resolved := ComputeBacklinks(idx, fold);
  }

  lemma StillValid(idx: Index, before: map<string, NoteEntry>, rows: map<string, Row>,
                   walk: map<string, Visit>, parse: Parser, found: set<string>)
    requires idx.entries.Keys == before.Keys + found && forall p | p in before :: before[p].note.path == p
    requires forall p | p in found :: Stands(parse, rows, walk, p, idx.entries[p])
    requires forall p | p in before && p !in found :: idx.entries[p] == before[p]
    ensures idx.Valid()
  {
    hide Found, Hit;
  }

  lemma AllLoaded(before: map<string, NoteData>, idx: Index, rows: map<string, Row>, walk: map<string, Visit>,
      parse: Parser)
    requires idx.entries.Keys == before.Keys + Notes(walk, {})
    requires forall p | p in before && p !in Notes(walk, {}) :: idx.entries[p].note == before[p]
    requires forall p | p in Notes(walk, {}) :: Stands(parse, rows, walk, p, idx.entries[p])
    requires forall p | p in walk :: !walk[p].WalkFails?
    ensures Loads(parse, rows, walk)
    ensures idx.Notes() == before + Loaded(parse, rows, walk)
    ensures forall p | p in Notes(walk, {}) :: walk[p].Visit? && idx.entries[p].dirty == !Hit(rows, p, walk[p].mtime)
  {
    forall p | p in walk && IsMarkdown(p) ensures !Fails(parse, rows, p, walk[p]) {
      assert p in Notes(walk, {}) && Stands(parse, rows, walk, p, idx.entries[p]);
    }
    hide Hit, Found;
  }

  lemma NoneStale(rows: map<string, Row>, walk: map<string, Visit>, stale: seq<string>)
    requires forall p :: p in stale <==> p in rows && p !in Notes(walk, {})
    ensures stale == [] <==> Kept(rows, walk) == rows
    ensures Kept(rows, walk) == map p | p in rows && p !in stale :: rows[p]
  {
    AtIsIn(stale, 0);
    if Kept(rows, walk) == rows {
      assert forall p | p in rows :: p in Kept(rows, walk);
    }
  }

  /* ---------- counts in rows ---------- */

  /** The row kept for a clean entry equals the entry exactly if their counts do, as Build recomputes nothing else. */
  lemma CountDecidesRow(idx: Index, before: map<string, NoteData>, parse: Parser, rows: map<string, Row>,
                        walk: map<string, Visit>, resolved: map<Occurrence, string>, p: string)
    requires Loads(parse, rows, walk) && idx.Notes() == before + Loaded(parse, rows, walk) && Counted(idx, resolved)
    requires p in Notes(walk, {}) && walk[p].Visit? && Hit(rows, p, walk[p].mtime)
      && Carries(rows[p], rows[p].data.note)
    ensures p in idx.entries && p in Kept(rows, walk)
    ensures IsCurrent(Kept(rows, walk)[p], idx.entries[p]) <==> |ResolvedTo(resolved, p)| == rows[p].data.backlinkCount
  {
    assert p in Loaded(parse, rows, walk);
    assert p in idx.Notes() && idx.Notes()[p] == rows[p].data.note;
  }

  /**
   After Build, whose postcondition the first premises are, on a workspace of unambiguous links: the row kept
   for a clean entry is the one FlushDirty would make of it now if and only if as many occurrences as it says
   lead to the note by the naive scan of what the cache and the files hold.
   */
  lemma CleanRowIsCurrentIff(idx: Index, before: map<string, NoteData>, parse: Parser, rows: map<string, Row>,
                             walk: map<string, Visit>, fold: CaseFold, table: map<string, string>,
                             resolved: map<Occurrence, string>, p: string)
    requires Loads(parse, rows, walk) && idx.Notes() == before + Loaded(parse, rows, walk)
    requires IsLookup(idx.Notes(), table) && Counted(idx, resolved)
    requires Treated(fold, idx.Notes(), table, Occurrences(idx.Notes()), resolved)
    requires AllUnambiguous(fold, before + Loaded(parse, rows, walk))
    requires p in Notes(walk, {}) && walk[p].Visit? && Hit(rows, p, walk[p].mtime)
      && Carries(rows[p], rows[p].data.note)
    ensures p in idx.entries && p in Kept(rows, walk)
    ensures IsCurrent(Kept(rows, walk)[p], idx.entries[p]) <==>
            NaiveCount(fold, before + Loaded(parse, rows, walk), p) == rows[p].data.backlinkCount
  {
    CountDecidesRow(idx, before, parse, rows, walk, resolved, p);
    CountsAreNaive(fold, before + Loaded(parse, rows, walk), table, resolved, p);
    hide *;
  }

  /**
   A new note `b` links to `a`, which was cached when nothing did: Build leaves `a` clean with count 1 beside
   a row with count 0.
   */
  lemma StaleCountExample(parse: Parser, fold: CaseFold, a: string, b: string, mtime: int, content: string, meta: Meta,
                          table: map<string, string>, resolved: map<Occurrence, string>)
    requires IsMarkdown(a) && IsMarkdown(b) && a != b
    requires parse(content) == Some(meta) && meta.title == "" && meta.aliases == [] && meta.links == [a]
    requires
      var rows := map[a := RowOf(NoteData(a, "", [], [], mtime, "", [], []), 0).row];
      var walk := map[a := Visit(mtime, None), b := Visit(mtime, Some(content))];
      && Loads(parse, rows, walk)
      && IsLookup(Loaded(parse, rows, walk), table)
      && Treated(fold, Loaded(parse, rows, walk), table, Occurrences(Loaded(parse, rows, walk)), resolved)
    ensures
      var rows := map[a := RowOf(NoteData(a, "", [], [], mtime, "", [], []), 0).row];
      var walk := map[a := Visit(mtime, None), b := Visit(mtime, Some(content))];
      Hit(rows, a, mtime) && |ResolvedTo(resolved, a)| == 1 && a in Kept(rows, walk)
        && Kept(rows, walk)[a].data == Encoded(rows[a].data.note, 0)
  {
    var rows := map[a := RowOf(NoteData(a, "", [], [], mtime, "", [], []), 0).row];
    var walk := map[a := Visit(mtime, None), b := Visit(mtime, Some(content))];
    assert a in Notes(walk, {});
    assert Found(parse, rows, a, walk[a]) == Some(rows[a].data.note)
      && Found(parse, rows, b, walk[b]) == Some(EntryOf(b, mtime, meta));
    assert Loaded(parse, rows, walk) == map[a := rows[a].data.note, b := EntryOf(b, mtime, meta)];
    hide Found, Loaded, Loads, Treated, IsLookup, IsMarkdown, Hit;
    OneLinkCounts(fold, rows[a].data.note, EntryOf(b, mtime, meta), table, resolved);
  }
}

/**
 Whole runs of the index and its cache: edits of the workspace, the steps of Build with
 edits between a stat and the read that follows it, flushes as in IndexFlush (any number
 at once), rows that go bad, and restarts. If modification times strictly increase, a
 Build that nothing disturbs finds the same notes with the cache as without it.
 */
module IndexRuns {
  import opened Wrappers
  import opened Strings
  import opened NoteIndex
  import opened IndexCache
  import opened Backlinks
  import opened BacklinkCounts
  import opened IndexBuild
  import IndexFlush

  datatype File = File(mtime: int, content: string)

  /** The workspace, and the latest time any file at a path has had, gone files included. */
  datatype Disk = Disk(files: map<string, File>, newest: map<string, int>)

  /** `byPath` and `stats` are what the running Build has read: the cache at its start, and file times. */
  datatype State = State(disk: Disk, index: IndexFlush.State, byPath: map<string, Row>, stats: map<string, int>)

  datatype Step =
    | Edit(path: string, mtime: int, content: string)
    | Remove(path: string)
    | Restart
    | LoadRows
    | Stat(path: string)
    | UseRow(path: string, entry: NoteEntry)
    | ParseFile(path: string, entry: NoteEntry)
    | DropRows(paths: set<string>)
    | Corrupt(path: string, text: string)
    | Index(step: IndexFlush.Step)

  function DiskAfter(d: Disk, step: Step): Disk {
    match step
    case Edit(p, mtime, content) =>
      if p in d.newest && mtime <= d.newest[p] then d
      else Disk(d.files[p := File(mtime, content)], d.newest[p := mtime])
    case Remove(p) => d.(files := d.files - {p})
    case _ => d
  }

  /** Entries reach the index only through Build, or through Update with an entry parsed the same way. */
  ghost function IndexAfter(parse: Parser, s: State, step: Step): IndexFlush.State {
    match step
    case Restart => IndexFlush.State(map[], s.index.cache, map[])
    case UseRow(p, e) =>
      if p in s.stats && Hit(s.byPath, p, s.stats[p]) && e.note == s.byPath[p].data.note
      then s.index.(cells := s.index.cells[p := Cell(e, false)])
      else s.index
    case ParseFile(p, e) =>
      if p in s.stats && p in s.disk.files
        && ParseVisit(parse, p, Visit(s.stats[p], Some(s.disk.files[p].content))) == Some(e.note)
      then IndexFlush.Apply(s.index, IndexFlush.Update(e))
      else s.index
    case DropRows(paths) => s.index.(cache := s.index.cache - paths)
    case Corrupt(p, text) =>
      if p in s.index.cache then s.index.(cache := s.index.cache[p := s.index.cache[p].(data := Garbled(text))])
        else s.index
    case Index(step) => if step.Update? then s.index else IndexFlush.Apply(s.index, step)
    case _ => s.index
  }

  ghost function Apply(parse: Parser, s: State, step: Step): State {
    State(
      DiskAfter(s.disk, step),
      IndexAfter(parse, s, step),
      if step.LoadRows? then s.index.cache else if step.Restart? then map[] else s.byPath,
      if step.Restart? then map[]
      else if step.Stat? && step.path in s.disk.files then s.stats[step.path := s.disk.files[step.path].mtime]
      else s.stats)
  }

  ghost function Run(parse: Parser, s: State, steps: seq<Step>): State {
    if steps == [] then s else Apply(parse, Run(parse, s, steps[..|steps| - 1]), steps[|steps| - 1])
  }

  const START := State(Disk(map[], map[]), IndexFlush.EMPTY, map[], map[])

  /* ---------- the invariant ---------- */

  ghost predicate DiskOk(d: Disk) {
    forall p | p in d.files :: p in d.newest && d.files[p].mtime == d.newest[p]
  }

  /** What a Build with an empty cache makes of a file. */
  function Fresh(parse: Parser, path: string, file: File): Option<NoteData> {
    ParseVisit(parse, path, Visit(file.mtime, Some(file.content)))
  }

  /** The note is what its file parses to, or the file is newer, or gone. */
  ghost predicate Good(parse: Parser, d: Disk, n: NoteData) {
    && n.path in d.newest && n.mtime <= d.newest[n.path]
    && (n.path in d.files && d.files[n.path].mtime <= n.mtime ==> Fresh(parse, n.path, d.files[n.path]) == Some(n))
  }

  ghost predicate GoodRow(parse: Parser, d: Disk, p: string, row: Row) {
    row.data.Encoded? ==> Carries(row, row.data.note) && row.data.note.path == p && Good(parse, d, row.data.note)
  }

  ghost predicate GoodRows(parse: Parser, d: Disk, rows: map<string, Row>) {
    forall p | p in rows :: GoodRow(parse, d, p, rows[p])
  }

  ghost predicate GoodIndex(parse: Parser, d: Disk, x: IndexFlush.State) {
    && GoodRows(parse, d, x.cache)
    && (forall p | p in x.cells :: Good(parse, d, x.cells[p].entry.note))
    && (forall k, i | k in x.flights && 0 <= i < |x.flights[k].rows| ::
          GoodRow(parse, d, x.flights[k].rows[i].filePath, x.flights[k].rows[i].row))
  }

  ghost predicate Inv(parse: Parser, s: State) {
    && DiskOk(s.disk)
    && (forall p | p in s.stats :: p in s.disk.newest && s.stats[p] <= s.disk.newest[p])
    && GoodRows(parse, s.disk, s.byPath)
    && GoodIndex(parse, s.disk, s.index)
  }

  /** A new version is newer than every note made of the old ones, so these stay good. */
  lemma GoodStays(parse: Parser, d: Disk, step: Step, n: NoteData)
    requires Good(parse, d, n)
    ensures Good(parse, DiskAfter(d, step), n)
  {
    hide Fresh;
  }

  lemma GoodRowStays(parse: Parser, d: Disk, step: Step, p: string, row: Row)
    requires GoodRow(parse, d, p, row)
    ensures GoodRow(parse, DiskAfter(d, step), p, row)
  {
    if row.data.Encoded? {
      GoodStays(parse, d, step, row.data.note);
    }
  }

  lemma GoodIndexStays(parse: Parser, d: Disk, step: Step, x: IndexFlush.State)
    requires GoodIndex(parse, d, x)
    ensures GoodIndex(parse, DiskAfter(d, step), x)
  {
    GoodRowsStay(parse, d, step, x.cache);
    forall p | p in x.cells ensures Good(parse, DiskAfter(d, step), x.cells[p].entry.note) {
      GoodStays(parse, d, step, x.cells[p].entry.note);
    }
    forall k, i | k in x.flights && 0 <= i < |x.flights[k].rows|
      ensures GoodRow(parse, DiskAfter(d, step), x.flights[k].rows[i].filePath, x.flights[k].rows[i].row)
    {
      GoodRowStays(parse, d, step, x.flights[k].rows[i].filePath, x.flights[k].rows[i].row);
    }
  }

  lemma GoodRowsStay(parse: Parser, d: Disk, step: Step, rows: map<string, Row>)
    requires GoodRows(parse, d, rows)
    ensures GoodRows(parse, DiskAfter(d, step), rows)
  {
    forall p | p in rows ensures GoodRow(parse, DiskAfter(d, step), p, rows[p]) {
      GoodRowStays(parse, d, step, p, rows[p]);
    }
  }

  /** A parse after an edit that followed the stat carries the time of the stat: the file is newer. */
  lemma ParsedIsGood(parse: Parser, s: State, p: string, n: NoteData)
    requires Inv(parse, s) && p in s.stats && p in s.disk.files
    requires ParseVisit(parse, p, Visit(s.stats[p], Some(s.disk.files[p].content))) == Some(n)
    ensures Good(parse, s.disk, n)
  {}

  /** The steps of a flush write only rows of entries it collected. */
  lemma FlushKeepsGood(parse: Parser, d: Disk, x: IndexFlush.State, step: IndexFlush.Step)
    requires GoodIndex(parse, d, x) && !step.Update?
    ensures GoodIndex(parse, d, IndexFlush.Apply(x, step))
  {
    hide Good;
    match step
    case Collect(k, collected, rows) =>
      if IndexFlush.ListsDirty(x.cells, collected) && IndexFlush.RowsFor(collected, rows) {
        forall i | 0 <= i < |rows| ensures GoodRow(parse, d, rows[i].filePath, rows[i].row) {
          assert collected[i] in collected;
          assert x.cells[collected[i].note.path].entry == collected[i];
          assert rows[i].filePath == collected[i].note.path && Carries(rows[i].row, collected[i].note);
        }
      }
    case _ =>
  }

  lemma IndexStaysGood(parse: Parser, s: State, step: Step)
    requires Inv(parse, s)
    ensures GoodIndex(parse, s.disk, IndexAfter(parse, s, step))
  {
    match step
    case ParseFile(p, e) =>
      if IndexAfter(parse, s, step) != s.index {
        ParsedIsGood(parse, s, p, e.note);
      }
    case Index(flushStep) => if !flushStep.Update? { FlushKeepsGood(parse, s.disk, s.index, flushStep); }
    case _ => hide Good;
  }

  lemma StepKeepsInv(parse: Parser, s: State, step: Step)
    requires Inv(parse, s)
    ensures Inv(parse, Apply(parse, s, step))
  {
    IndexStaysGood(parse, s, step);
    GoodIndexStays(parse, s.disk, step, IndexAfter(parse, s, step));
    GoodRowsStay(parse, s.disk, step, s.byPath);
    GoodRowsStay(parse, s.disk, step, s.index.cache);
    hide GoodRow, Good, IndexAfter;
  }

  lemma {:induction false} RunKeepsInv(parse: Parser, s: State, steps: seq<Step>)
    requires Inv(parse, s)
    ensures Inv(parse, Run(parse, s, steps))
  {
    if steps != [] {
      RunKeepsInv(parse, s, steps[..|steps| - 1]);
      hide Inv, Apply;
      StepKeepsInv(parse, Run(parse, s, steps[..|steps| - 1]), steps[|steps| - 1]);
    }
  }

  /* ---------- the theorem ---------- */

  /** The workspace as a Build sees it when nothing changes meanwhile. */
  function Quiet(files: map<string, File>): map<string, Visit> {
    map p | p in files :: Visit(files[p].mtime, Some(files[p].content))
  }

  lemma RowsChangeNothing(parse: Parser, d: Disk, rows: map<string, Row>, p: string)
    requires DiskOk(d) && GoodRows(parse, d, rows) && p in d.files
    ensures Found(parse, rows, p, Quiet(d.files)[p]) == Found(parse, map[], p, Quiet(d.files)[p])
  {
    if p in rows {
      assert GoodRow(parse, d, p, rows[p]);
    }
  }

  /**
   Build transparency: after any run of edits, builds, flushes and restarts, a Build that nothing
   disturbs succeeds with the surviving cache exactly if it does with an empty one, and finds the same notes.
   */
  lemma BuildIsTransparent(parse: Parser, steps: seq<Step>)
    ensures
      var s := Run(parse, START, steps);
      && Filed(s.index.cache)
      && (Loads(parse, s.index.cache, Quiet(s.disk.files)) <==> Loads(parse, map[], Quiet(s.disk.files)))
      && (Loads(parse, map[], Quiet(s.disk.files)) ==>
            Loaded(parse, s.index.cache, Quiet(s.disk.files)) == Loaded(parse, map[], Quiet(s.disk.files)))
  {
    var s := Run(parse, START, steps);
    RunKeepsInv(parse, START, steps);
    assert Filed(s.index.cache) by {
      assert forall p | p in s.index.cache :: GoodRow(parse, s.disk, p, s.index.cache[p]);
    }
    forall p | p in s.disk.files
      ensures Found(parse, s.index.cache, p, Quiet(s.disk.files)[p]) == Found(parse, map[], p, Quiet(s.disk.files)[p])
    {
      RowsChangeNothing(parse, s.disk, s.index.cache, p);
    }
    hide Found, Run, Inv;
  }

  /**
   The same of the backlink counts: if every link is unambiguous, the Build with the
   surviving cache and the one with an empty cache leave the same count at every path, whatever the iteration orders of
   each.
   */
  lemma CountsAreTransparent(parse: Parser, steps: seq<Step>, fold: CaseFold,
                             table: map<string, string>, resolved: map<Occurrence, string>,
                             table': map<string, string>, resolved': map<Occurrence, string>, p: string)
    requires Loads(parse, Run(parse, START, steps).index.cache, Quiet(Run(parse, START, steps).disk.files))
    requires Loads(parse, map[], Quiet(Run(parse, START, steps).disk.files))
    requires
      var notes := Loaded(parse, Run(parse, START, steps).index.cache, Quiet(Run(parse, START, steps).disk.files));
      && IsLookup(notes, table) && Treated(fold, notes, table, Occurrences(notes), resolved)
      && AllUnambiguous(fold, notes)
    requires
      var notes' := Loaded(parse, map[], Quiet(Run(parse, START, steps).disk.files));
      IsLookup(notes', table') && Treated(fold, notes', table', Occurrences(notes'), resolved')
    ensures |ResolvedTo(resolved, p)| == |ResolvedTo(resolved', p)|
  {
    hide *;
    BuildIsTransparent(parse, steps);
    var notes := Loaded(parse, map[], Quiet(Run(parse, START, steps).disk.files));
    CountsAreNaive(fold, notes, table, resolved, p);
    CountsAreNaive(fold, notes, table', resolved', p);
  }

  /** The cells Build leaves in a fresh index: every clean one has its row, so IndexFlush.Inv holds from here on. */
  lemma BuildStartsCoherent(parse: Parser, steps: seq<Step>, cells: map<string, Cell>)
    requires
      var s := Run(parse, START, steps);
      var rows, walk := s.index.cache, Quiet(s.disk.files);
      && cells.Keys == Notes(walk, {})
      && forall p | p in cells :: Found(parse, rows, p, walk[p]) == Some(cells[p].entry.note)
            && cells[p].dirty == !Hit(rows, p, walk[p].mtime)
    ensures
      var s := Run(parse, START, steps);
      IndexFlush.Inv(IndexFlush.State(cells, Kept(s.index.cache, Quiet(s.disk.files)), map[]))
  {
    var s := Run(parse, START, steps);
    var rows, walk := s.index.cache, Quiet(s.disk.files);
    RunKeepsInv(parse, START, steps);
    hide Run;
    forall p | p in cells
      ensures cells[p].entry.note.path == p
      ensures !cells[p].dirty ==> p in Kept(rows, walk) && Carries(Kept(rows, walk)[p], cells[p].entry.note)
    {
      assert p in Notes(walk, {});
      assert p in rows ==> GoodRow(parse, s.disk, p, rows[p]);
    }
  }

  /* ---------- why times must increase ---------- */

  /** What a row was made of: the file's time at the stat, the content read, and the backlink count at the flush. */
  datatype Version = Version(mtime: int, content: string, backlinkCount: int)

  /** The rows that flushes make of parsed versions. */
  function RowsOf(parse: Parser, versions: map<string, Version>): map<string, Row> {
    map p | p in versions && parse(versions[p].content).Some? ::
      RowOf(EntryOf(p, versions[p].mtime, parse(versions[p].content).value), versions[p].backlinkCount).row
  }

  /** Every note is found as its file is: the cache changes nothing. */
  ghost predicate SeesFiles(parse: Parser, rows: map<string, Row>, files: map<string, File>) {
    forall p | p in files && IsMarkdown(p) :: Found(parse, rows, p, Quiet(files)[p]) == Fresh(parse, p, files[p])
  }

  lemma SeeingFilesIsTransparent(parse: Parser, rows: map<string, Row>, files: map<string, File>)
    requires SeesFiles(parse, rows, files)
    ensures Loads(parse, rows, Quiet(files)) <==> Loads(parse, map[], Quiet(files))
    ensures Loads(parse, map[], Quiet(files))
      ==> Loaded(parse, rows, Quiet(files)) == Loaded(parse, map[], Quiet(files))
  {
    forall p | p in files
      && IsMarkdown(p) ensures Found(parse, rows, p, Quiet(files)[p]) == Found(parse, map[], p, Quiet(files)[p]) {
    }
    forall p | p in files ensures Fails(parse, rows, p, Quiet(files)[p]) <==> Fails(parse, map[], p, Quiet(files)[p]) {
    }
    hide Found;
  }

  /**
   Over any cache made of parsed versions and any workspace, whatever the order of times: Build sees every file
   as it is if and only if each cached note's file has a later time than its row, or the same time and a content
   that parses the same.
   */
  lemma SeesFilesIff(parse: Parser, versions: map<string, Version>, files: map<string, File>)
    ensures SeesFiles(parse, RowsOf(parse, versions), files) <==>
      forall p | p in files && IsMarkdown(p) && p in RowsOf(parse, versions) ::
        || files[p].mtime > versions[p].mtime
        || (files[p].mtime == versions[p].mtime && parse(files[p].content) == parse(versions[p].content))
  {
    forall p | p in files && p in RowsOf(parse, versions)
      ensures Found(parse, RowsOf(parse, versions), p, Quiet(files)[p]) == Fresh(parse, p, files[p]) <==>
        || files[p].mtime > versions[p].mtime
        || (files[p].mtime == versions[p].mtime && parse(files[p].content) == parse(versions[p].content))
    {
      if parse(files[p].content).Some? {
        SameEntry(p, versions[p].mtime, parse(versions[p].content).value, files[p].mtime,
          parse(files[p].content).value);
      }
    }
    hide Found, Fresh;
    forall p | p in files && p !in RowsOf(parse, versions)
      ensures Found(parse, RowsOf(parse, versions), p, Quiet(files)[p]) == Fresh(parse, p, files[p])
    {
      NoRowNoHit(parse, RowsOf(parse, versions), p, files[p]);
    }
  }

  lemma NoRowNoHit(parse: Parser, rows: map<string, Row>, p: string, file: File)
    requires p !in rows
    ensures Found(parse, rows, p, Visit(file.mtime, Some(file.content))) == Fresh(parse, p, file)
  {}

  lemma SameEntry(p: string, t: int, a: Meta, t': int, b: Meta)
    ensures EntryOf(p, t, a) == EntryOf(p, t', b) <==> t == t' && a == b
  {}

  /** An edit that keeps the file's time goes unseen behind the row of the version before. */
  lemma SameTimeHidesEdit(parse: Parser, p: string, mtime: int, was: string, now: string)
    requires IsMarkdown(p) && parse(was).Some? && parse(was) != parse(now)
    ensures !SeesFiles(parse, RowsOf(parse, map[p := Version(mtime, was, 0)]), map[p := File(mtime, now)])
  {
    SeesFilesIff(parse, map[p := Version(mtime, was, 0)], map[p := File(mtime, now)]);
  }
}

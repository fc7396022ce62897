/**
 What the index knows of a note, field by field: the entry of a printed note tells its title,
 aliases, tags, headings, links and hash, and that entry is what Build stores for the file.
 */
module EntryFields {
  import opened Wrappers
  import opened Strings
  import opened Text
  import opened Frontmatter
  import opened Notes
  import opened NotesRoundTrip
  import opened NoteIndex
  import opened IndexCache
  import opened IndexBuild
  import opened NoteEntries

  /** The fields are those of the note; a title that is absent or not a string is empty, like absent lists. */
  ghost predicate Tells<V(!new)>(c: Codec<V>, view: View<V>, n: Note<V>, d: NoteData) {
    var fm := n.frontmatter;
    && ("title" !in fm ==> d.title == "")
    && ("title" in fm ==> d.title == match view.text(fm["title"]) case Some(s) => s case None => "")
    && ("aliases" !in fm ==> d.aliases == [])
    && ("aliases" in fm ==> d.aliases == view.list(fm["aliases"]))
    && ("tags" !in fm ==> d.tags == [])
    && ("tags" in fm ==> d.tags == view.list(fm["tags"]))
    && d.headings == view.headings(n.body)
    && d.links == Links(n.body)
    && d.hash == ContentHash(c, n)
  }

  function ParserOf<V(!new)>(c: Codec<V>, view: View<V>): Parser {
    content => ParseMeta(c, view, content)
  }

  /** Of any file that parses, and of a file without frontmatter in particular. */
  lemma EntryTells<V(!new)>(c: Codec<V>, view: View<V>, path: string, mtime: int, content: string)
    requires Parse(c, content).Some?
    ensures
      var d := ParseVisit(ParserOf(c, view), path, Visit(mtime, Some(content)));
      d.Some? && d.value.path == path && d.value.mtime == mtime && Tells(c, view, Parse(c, content).value, d.value)
    ensures Split(content).None? ==> Parse(c, content).value == Note("", map[], content, [])
  {
    hide Links, ContentHash;
  }

  lemma MetaTells<V(!new)>(c: Codec<V>, view: View<V>, n: Note<V>, path: string, mtime: int)
    ensures Tells(c, view, n, EntryOf(path, mtime, MetaOf(c, view, n)))
  {
    hide Links, ContentHash;
  }

  /** Where the note's keys stand in its file makes no difference. */
  lemma SameFields<V(!new)>(c: Codec<V>, view: View<V>, n: Note<V>, n': Note<V>, d: NoteData)
    requires n.frontmatter == n'.frontmatter && n.body == n'.body && Tells(c, view, n, d)
    ensures Tells(c, view, n', d)
  {}

  /** Of a note in memory, once it is printed into a file. */
  lemma PrintedEntryTells<V(!new)>(c: Codec<V>, view: View<V>, n: Note<V>, extra: seq<string>, path: string, mtime: int)
    requires Lawful(c) && Printable(c, n) && NewKeys(n, extra)
    ensures
      var d := ParseVisit(ParserOf(c, view), path, Visit(mtime, Some(Print(c, n, extra))));
      d.Some? && d.value.path == path && d.value.mtime == mtime && Tells(c, view, n, d.value)
  {
    ParsePrinted(c, n, extra);
    hide *;
    EntryTells(c, view, path, mtime, Print(c, n, extra));
    SameFields(c, view, Parse(c, Print(c, n, extra)).value, n,
      ParseVisit(ParserOf(c, view), path, Visit(mtime, Some(Print(c, n, extra)))).value);
  }

  /** Of a note whose file has been given suggestions: they show in no field. */
  lemma AnnotatedEntryTells<V(!new)>(c: Codec<V>, view: View<V>, n: Note<V>, suggestions: V, extra: seq<string>,
      path: string, mtime: int)
    requires Lawful(c) && Printable(c, n) && Fits(c.entry("ai_suggestions", suggestions))
    requires NewKeys(n.(frontmatter := n.frontmatter["ai_suggestions" := suggestions]), extra)
    ensures
      var file := Print(c, n.(frontmatter := n.frontmatter["ai_suggestions" := suggestions]), extra);
      var d := ParseVisit(ParserOf(c, view), path, Visit(mtime, Some(file)));
      d.Some? && d.value.path == path && d.value.mtime == mtime && Tells(c, view, n, d.value)
  {
    SuggestionsKeepEntry(c, view, n, suggestions, extra);
    MetaTells(c, view, n, path, mtime);
    hide Lawful, Printable, NewKeys, Print, Tells, MetaOf, ParseMeta;
  }

  /** Build has an entry for each .md path of the walk, and for no other. */
  lemma LoadedAreMarkdown(parse: Parser, rows: map<string, Row>, walk: map<string, Visit>, p: string)
    requires Loads(parse, rows, walk)
    ensures p in Loaded(parse, rows, walk) <==> p in walk && EndsInMd(p)
  {
    MarkdownIff(p);
  }

  /** And it keeps the rows of these paths, and no others. */
  lemma KeptAreMarkdown(rows: map<string, Row>, walk: map<string, Visit>, p: string)
    ensures p in Kept(rows, walk) <==> p in rows && p in walk && EndsInMd(p)
    ensures p in Kept(rows, walk) ==> Kept(rows, walk)[p] == rows[p]
  {
    MarkdownIff(p);
  }

  /** A note that is older than its row, or as old, is taken from the row; any other, or one of a bad row, is read. */
  lemma RowOrFile(parse: Parser, rows: map<string, Row>, walk: map<string, Visit>, stem: string, mtime: int,
      content: Option<string>)
    requires
      var p := stem + ".md";
      Loads(parse, rows, walk) && p in walk && walk[p] == Visit(mtime, content)
    ensures
      var p := stem + ".md";
      && p in Loaded(parse, rows, walk)
      && if p in rows && mtime <= rows[p].mtime && rows[p].data.Encoded?
         then Loaded(parse, rows, walk)[p] == rows[p].data.note
         else ParseVisit(parse, p, walk[p]) == Some(Loaded(parse, rows, walk)[p])
  {
    LoadedAreMarkdown(parse, rows, walk, stem + ".md");
    assert !Fails(parse, rows, stem + ".md", walk[stem + ".md"]);
    hide ParseVisit;
  }

  /**
   After Build, whose postcondition on the entries is the second premise: the entry of a note that was printed
   since its row was written, if it has one, tells the note.
   */
  lemma BuildTells<V(!new)>(c: Codec<V>, view: View<V>, idx: Index, before: map<string, NoteData>,
      rows: map<string, Row>, walk: map<string, Visit>, stem: string, mtime: int, n: Note<V>, extra: seq<string>)
    requires Loads(ParserOf(c, view), rows, walk)
    requires idx.Notes() == before + Loaded(ParserOf(c, view), rows, walk)
    requires Lawful(c) && Printable(c, n) && NewKeys(n, extra)
    requires
      var p := stem + ".md";
      p in walk && walk[p] == Visit(mtime, Some(Print(c, n, extra))) && (p in rows ==> rows[p].mtime < mtime)
    ensures
      var p := stem + ".md";
      && p in idx.entries && idx.entries[p].note.path == p && idx.entries[p].note.mtime == mtime
      && Tells(c, view, n, idx.entries[p].note)
  {
    var p := stem + ".md";
    RowOrFile(ParserOf(c, view), rows, walk, stem, mtime, Some(Print(c, n, extra)));
    PrintedEntryTells(c, view, n, extra, p, mtime);
    hide *;
    EntryIsLoaded(idx, before, Loaded(ParserOf(c, view), rows, walk), p);
  }

  lemma EntryIsLoaded(idx: Index, before: map<string, NoteData>, loaded: map<string, NoteData>, p: string)
    requires idx.Notes() == before + loaded && p in loaded
    ensures p in idx.entries && idx.entries[p].note == loaded[p]
  {
    assert p in idx.Notes();
  }
}

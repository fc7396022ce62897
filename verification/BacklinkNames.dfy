/**
 Links by name, in terms of the characters of paths: which name a path has, when two names are
 equal up to case, and which links count for a note in every run of computeBacklinks.
 */
module BacklinkNames {
  import opened Wrappers
  import opened Strings
  import opened NoteIndex
  import opened Backlinks
  import opened BacklinkOrder

  /* ---------- the name of a path ---------- */

  /** The directory part of a path: nothing, or a text up to and with a slash. */
  ghost predicate IsDir(dir: string) {
    dir == "" || exists d: string :: dir == d + "/"
  }

  /** `file` is the last element of the path. */
  ghost predicate HasFile(path: string, file: string) {
    '/' !in file && exists dir: string :: IsDir(dir) && path == dir + file
  }

  /** `name` is the last element of the path without a final ".md". */
  ghost predicate HasName(path: string, name: string) {
    HasFile(path, name + ".md") || (HasFile(path, name) && !EndsInMd(name))
  }

  lemma {:induction false} AfterSlashIs(dir: string, file: string)
    requires '/' !in file
    ensures AfterLastSlash(file) == file && AfterLastSlash(dir + ("/" + file)) == file
  {
    var path := dir + ("/" + file);
    if dir == "" {
      assert path == "/" + file && path[0] == '/' && path[1..] == file;
    } else {
      assert path[0] == dir[0] && path[1..] == dir[1..] + ("/" + file);
      assert path[1..][|dir| - 1] == '/';
      AfterSlashIs(dir[1..], file);
    }
  }

  lemma {:induction false} AfterSlashSplits(path: string) returns (dir: string)
    ensures IsDir(dir) && path == dir + AfterLastSlash(path) && '/' !in AfterLastSlash(path)
  {
    if '/' !in path {
      dir := "";
    } else if path[0] == '/' && '/' !in path[1..] {
      dir := "/";
      assert dir == "" + "/";
    } else {
      var rest := AfterSlashSplits(path[1..]);
      dir := [path[0]] + rest;
      assert rest != "" by {
        assert '/' in path[1..];
      }
      var d: string :| rest == d + "/";
      assert dir == ([path[0]] + d) + "/";
    }
  }

  lemma HasFileIff(path: string, file: string)
    ensures HasFile(path, file) <==> AfterLastSlash(path) == file
  {
    var dir := AfterSlashSplits(path);
    if HasFile(path, file) {
      var dir': string :| IsDir(dir') && path == dir' + file;
      if dir' == "" {
        assert path == file;
        AfterSlashIs("", file);
      } else {
        var d: string :| dir' == d + "/";
        assert path == d + ("/" + file);
        AfterSlashIs(d, file);
      }
    }
  }

  /** `Base` gives the one name a path has. */
  lemma HasNameIff(path: string, name: string)
    ensures HasName(path, name) <==> Base(path) == name
  {
    var file := AfterLastSlash(path);
    HasFileIff(path, name + ".md");
    HasFileIff(path, name);
    MarkdownIff(file);
    assert IsMarkdown(file) ==> file == file[..|file| - 3] + ".md";
    assert (name + ".md")[..|name|] == name;
    hide AfterLastSlash, HasFile;
  }

  lemma NameOfNote(dir: string, name: string)
    requires '/' !in name
    ensures Base(name + ".md") == name && Base(dir + ("/" + (name + ".md"))) == name
  {
    var file := name + ".md";
    AfterSlashIs(dir, file);
    assert file[..|name|] == name && file[|name|..] == ".md";
    hide AfterLastSlash;
  }

  /* ---------- equal up to case ---------- */

  /** Character by character, as strings.EqualFold compares. */
  predicate SameFold(fold: CaseFold, a: string, b: string) {
    |a| == |b| && forall i | 0 <= i < |a| :: fold(a[i]) == fold(b[i])
  }

  lemma FoldIff(fold: CaseFold, a: string, b: string)
    ensures Fold(fold, a) == Fold(fold, b) <==> SameFold(fold, a, b)
  {
    if Fold(fold, a) == Fold(fold, b) {
      forall i | 0 <= i < |a| ensures fold(a[i]) == fold(b[i]) {
        assert Fold(fold, a)[i] == Fold(fold, b)[i];
      }
    }
  }

  /* ---------- where a link leads ---------- */

  /** The link is the note's path, its title or one of its aliases, letter by letter. */
  predicate Spells(d: NoteData, link: string) {
    || link == d.path
    || (link == d.title && link != "")
    || exists i :: 0 <= i < |d.aliases| && d.aliases[i] == link
  }

  /** The link is the note's title or the name of its path, up to case. */
  ghost predicate Resembles(fold: CaseFold, d: NoteData, link: string) {
    SameFold(fold, link, d.title) || exists name :: HasName(d.path, name) && SameFold(fold, link, name)
  }

  lemma SpellsIff(d: NoteData, link: string)
    ensures Spells(d, link) <==> IsKey(d, link)
  {}

  lemma ResemblesIff(fold: CaseFold, d: NoteData, link: string)
    ensures Resembles(fold, d, link) <==> FoldMatch(fold, d, link)
  {
    FoldIff(fold, link, d.title);
    FoldIff(fold, link, Base(d.path));
    forall name ensures HasName(d.path, name) <==> Base(d.path) == name {
      HasNameIff(d.path, name);
    }
    hide Base, HasName, Fold, SameFold;
  }

  function LinkOf(notes: map<string, NoteData>, o: Occurrence): string
    requires o in Occurrences(notes)
  {
    notes[o.src].links[o.index]
  }

  /** A link that only one note spells leads there, unless it is its own; every run agrees. */
  lemma SpelledLinkLeads(fold: CaseFold, notes: map<string, NoteData>, table: map<string, string>,
      resolved: map<Occurrence, string>, o: Occurrence, t: string)
    requires Outcome(fold, notes, table, resolved) && o in Occurrences(notes) && t in notes && t != o.src
    requires forall p | p in notes :: Spells(notes[p], LinkOf(notes, o)) <==> p == t
    ensures o in resolved && resolved[o] == t
  {
    forall p | p in notes ensures IsKey(notes[p], LinkOf(notes, o)) <==> p == t {
      SpellsIff(notes[p], LinkOf(notes, o));
    }
    assert MayResolve(fold, notes, table, o.src, LinkOf(notes, o), Lookup(resolved, o));
    hide IsKey, FoldMatch;
  }

  /** A link that no other note spells leads to the one other note it resembles, or nowhere if there is none. */
  lemma ResemblingLinkLeads(fold: CaseFold, notes: map<string, NoteData>, table: map<string, string>,
      resolved: map<Occurrence, string>, o: Occurrence)
    requires Outcome(fold, notes, table, resolved) && o in Occurrences(notes)
    requires forall p | p in notes && p != o.src :: !Spells(notes[p], LinkOf(notes, o))
    ensures o in resolved ==>
      resolved[o] in notes && resolved[o] != o.src && Resembles(fold, notes[resolved[o]], LinkOf(notes, o))
    ensures o !in resolved ==> forall p | p in notes && p != o.src :: !Resembles(fold, notes[p], LinkOf(notes, o))
  {
    forall p | p in notes
      ensures IsKey(notes[p], LinkOf(notes, o)) <==> Spells(notes[p], LinkOf(notes, o))
      ensures FoldMatch(fold, notes[p], LinkOf(notes, o)) <==> Resembles(fold, notes[p], LinkOf(notes, o))
    {
      SpellsIff(notes[p], LinkOf(notes, o));
      ResemblesIff(fold, notes[p], LinkOf(notes, o));
    }
    assert MayResolve(fold, notes, table, o.src, LinkOf(notes, o), Lookup(resolved, o));
    hide IsKey, FoldMatch, Spells, Resembles;
  }

  /* ---------- the links that count for an untitled note ---------- */

  /** No title, alias, path or name of the note could be taken for `name`, nor its title or an alias for `path`. */
  ghost predicate Unlike(fold: CaseFold, d: NoteData, path: string, name: string) {
    && !Resembles(fold, d, name) && !SameFold(fold, d.path, name)
    && (forall a | a in d.aliases :: !SameFold(fold, a, name))
    && !Spells(d, path)
  }

  /** A note without title and aliases at dir/name.md, beside notes unlike it. */
  ghost predicate StandsOut(fold: CaseFold, notes: map<string, NoteData>, dir: string, name: string) {
    var t := dir + ("/" + (name + ".md"));
    && '/' !in name && t in notes && notes[t].path == t && notes[t].title == "" && notes[t].aliases == []
    && forall p | p in notes && p != t :: Unlike(fold, notes[p], t, name)
  }

  lemma SameFoldTrans(fold: CaseFold, a: string, b: string, c: string)
    requires SameFold(fold, a, b)
    ensures SameFold(fold, b, c) <==> SameFold(fold, a, c)
    ensures SameFold(fold, c, b) <==> SameFold(fold, c, a)
  {}

  lemma UnlikeSpelling(fold: CaseFold, d: NoteData, path: string, name: string, link: string)
    requires Unlike(fold, d, path, name) && (link == path || SameFold(fold, link, name))
    ensures !Spells(d, link)
  {
    assert SameFold(fold, link, name) ==> SameFold(fold, name, link);
    hide SameFold;
  }

  lemma UnlikeName(fold: CaseFold, d: NoteData, path: string, name: string, link: string)
    requires Unlike(fold, d, path, name) && SameFold(fold, link, name)
    ensures !Resembles(fold, d, link)
  {
    forall x | SameFold(fold, link, x) ensures SameFold(fold, name, x) {
      SameFoldTrans(fold, name, link, x);
    }
    hide SameFold, HasName;
  }

  /** The links of other notes that are the path t, or the name up to case. */
  ghost function LinksTo(fold: CaseFold, notes: map<string, NoteData>, t: string, name: string): set<Occurrence> {
    set o | o in Occurrences(notes) && o.src != t
      && (LinkOf(notes, o) == t || SameFold(fold, LinkOf(notes, o), name))
  }

  ghost function BlankLinks(notes: map<string, NoteData>, t: string): set<Occurrence> {
    set o | o in Occurrences(notes) && o.src != t && LinkOf(notes, o) == ""
  }

  /**
   In every run, whatever the iteration orders, those links of other notes count for such a note that are its
   path, or its name up to case, and no others but blank ones.
   */
  lemma NameCounts(fold: CaseFold, notes: map<string, NoteData>, table: map<string, string>,
      resolved: map<Occurrence, string>, dir: string, name: string)
    requires Outcome(fold, notes, table, resolved) && StandsOut(fold, notes, dir, name)
    ensures
      var t := dir + ("/" + (name + ".md"));
      LinksTo(fold, notes, t, name) <= ResolvedTo(resolved, t) <= LinksTo(fold, notes, t, name) + BlankLinks(notes, t)
  {
    var t := dir + ("/" + (name + ".md"));
    forall o | o in Occurrences(notes)
      ensures o in LinksTo(fold, notes, t, name) ==> Lookup(resolved, o) == Some(t)
      ensures Lookup(resolved, o) == Some(t) ==> o in LinksTo(fold, notes, t, name) || o in BlankLinks(notes, t)
    {
      NameLeads(fold, notes, table, resolved, dir, name, o);
    }
    assert resolved.Keys <= Occurrences(notes);
    hide StandsOut, Treated, IsLookup, Occurrences, SameFold, LinkOf;
  }

  lemma NameLeads(fold: CaseFold, notes: map<string, NoteData>, table: map<string, string>,
      resolved: map<Occurrence, string>, dir: string, name: string, o: Occurrence)
    requires Outcome(fold, notes, table, resolved) && StandsOut(fold, notes, dir, name) && o in Occurrences(notes)
    ensures
      var t, link := dir + ("/" + (name + ".md")), LinkOf(notes, o);
      && (o.src != t && (link == t || SameFold(fold, link, name)) ==> Lookup(resolved, o) == Some(t))
      && (Lookup(resolved, o) == Some(t) ==>
        o.src != t && (link == t || SameFold(fold, link, name) || link == ""))
  {
    var t, link := dir + ("/" + (name + ".md")), LinkOf(notes, o);
    SpellsPathOnly(notes[t], link);
    ResemblesNameOnly(fold, notes[t], dir, name, link);
    assert MayResolve(fold, notes, table, o.src, link, Lookup(resolved, o));
    if o.src != t && (link == t || SameFold(fold, link, name)) {
      forall p | p in notes && p != t ensures !Spells(notes[p], link) {
        UnlikeSpelling(fold, notes[p], t, name, link);
      }
      if link == t {
        hide Outcome, Spells, SameFold, Resembles, Occurrences, LinkOf, MayResolve;
        SpelledLinkLeads(fold, notes, table, resolved, o, t);
      } else {
        forall p | p in notes && p != t ensures !Resembles(fold, notes[p], link) {
          UnlikeName(fold, notes[p], t, name, link);
        }
        hide Outcome, Spells, SameFold, Resembles, Occurrences, LinkOf, MayResolve;
        ResemblingLinkLeads(fold, notes, table, resolved, o);
      }
    } else if Lookup(resolved, o) == Some(t) {
      OtherLinksLeadElsewhere(fold, notes, table, o.src, t, link);
    }
  }

  lemma SpellsPathOnly(d: NoteData, link: string)
    requires d.title == "" && d.aliases == []
    ensures Spells(d, link) <==> link == d.path
  {}

  lemma ResemblesNameOnly(fold: CaseFold, d: NoteData, dir: string, name: string, link: string)
    requires d.path == dir + ("/" + (name + ".md")) && '/' !in name && d.title == ""
    ensures Resembles(fold, d, link) <==> link == "" || SameFold(fold, link, name)
  {
    NameOfNote(dir, name);
    ResemblesIff(fold, d, link);
    FoldIff(fold, link, name);
    FoldIff(fold, link, "");
    hide Base, Fold, Resembles;
  }

  lemma OtherLinksLeadElsewhere(fold: CaseFold, notes: map<string, NoteData>, table: map<string, string>, src: string,
      t: string, link: string)
    requires IsLookup(notes, table) && t in notes && notes[t].path == t
    requires MayResolve(fold, notes, table, src, link, Some(t))
    ensures t != src && (Spells(notes[t], link) || Resembles(fold, notes[t], link))
  {
    SpellsIff(notes[t], link);
    ResemblesIff(fold, notes[t], link);
    hide Spells, IsKey, FoldMatch, Resembles;
  }

  /* ---------- one link to d/a.md ---------- */

  function Untitled(path: string, links: seq<string>): NoteData {
    NoteData(path, "", [], [], 0, "", [], links)
  }

  /** The one link of a workspace, if it is by name. */
  lemma OnlyLinkCounts(fold: CaseFold, notes: map<string, NoteData>, table: map<string, string>,
      resolved: map<Occurrence, string>, dir: string, name: string, o: Occurrence)
    requires Outcome(fold, notes, table, resolved) && StandsOut(fold, notes, dir, name)
    requires o in Occurrences(notes) && Occurrences(notes) == {o}
    requires SameFold(fold, LinkOf(notes, o), name) && LinkOf(notes, o) != ""
    ensures
      var t := dir + ("/" + (name + ".md"));
      o.src != t ==> forall p :: ResolvedTo(resolved, p) == if p == t then {o} else {}
  {
    var t := dir + ("/" + (name + ".md"));
    NameCounts(fold, notes, table, resolved, dir, name);
    if o.src != t {
      assert o in LinksTo(fold, notes, t, name);
      assert o in ResolvedTo(resolved, t);
    }
    hide StandsOut, IsLookup, SameFold, LinkOf, LinksTo, MayResolve;
  }

  lemma TwoNotesStandOut(fold: CaseFold, a: NoteData, b: NoteData, dir: string, name: string, other: string)
    requires '/' !in name && '/' !in other && a.path == dir + ("/" + (name + ".md")) && b.path == other + ".md"
    requires a.title == b.title == "" && a.aliases == b.aliases == [] && a.path != b.path
    requires name != "" && !SameFold(fold, b.path, name) && !SameFold(fold, name, other)
    ensures StandsOut(fold, map[a.path := a, b.path := b], dir, name)
  {
    NameOfNote("", other);
    ResemblesIff(fold, b, name);
    FoldIff(fold, name, other);
    FoldIff(fold, name, "");
    SpellsPathOnly(b, a.path);
    hide Resembles, Spells, Base, Fold, FoldMatch;
    NotMatched(fold, b, name);
  }

  lemma NotMatched(fold: CaseFold, d: NoteData, link: string)
    requires Fold(fold, link) != Fold(fold, Base(d.path)) && Fold(fold, link) != Fold(fold, d.title)
    ensures !FoldMatch(fold, d, link)
  {}

  lemma OnlyOccurrence(a: NoteData, b: NoteData, link: string)
    requires a.path != b.path && a.links == [] && b.links == [link]
    ensures
      var notes, o := map[a.path := a, b.path := b], Occurrence(b.path, 0);
      Occurrences(notes) == {o} && o in Occurrences(notes) && LinkOf(notes, o) == link
  {}

  /** A note that links to "A" gives the untitled note d/a.md, and nothing else, a count of one in every run. */
  lemma NamedByLink(fold: CaseFold, table: map<string, string>, resolved: map<Occurrence, string>)
    requires fold('A') == fold('a') && fold('a') != fold('b')
    requires
      var notes := map["d/a.md" := Untitled("d/a.md", []), "b.md" := Untitled("b.md", ["A"])];
      Outcome(fold, notes, table, resolved)
    ensures |ResolvedTo(resolved, "d/a.md")| == 1 && |ResolvedTo(resolved, "b.md")| == 0
  {
    var a, b := Untitled("d/a.md", []), Untitled("b.md", ["A"]);
    hide Occurrences, StandsOut, Outcome, SameFold, LinkOf, ResolvedTo;
    PathsOfTwo();
    OneLetter(fold);
    TwoNotesStandOut(fold, a, b, "d", "a", "b");
    OnlyOccurrence(a, b, "A");
    OnlyLinkCounts(fold, map[a.path := a, b.path := b], table, resolved, "d", "a", Occurrence(b.path, 0));
  }

  lemma PathsOfTwo()
    ensures "d/a.md" == "d" + ("/" + ("a" + ".md")) && "b.md" == "b" + ".md" && "d/a.md" != "b.md"
  {
    assert |"d/a.md"| == 6 && |"b.md"| == 4;
  }

  lemma OneLetter(fold: CaseFold)
    requires fold('A') == fold('a') && fold('a') != fold('b')
    ensures SameFold(fold, "A", "a") && !SameFold(fold, "a", "b") && !SameFold(fold, "b.md", "a")
  {
    assert fold("a"[0]) != fold("b"[0]);
  }
}

/**
 parseEntry of internal/index/build.go: the index entry of a note, with the wiki links of
 its body. It is the Parser that IndexBuild and IndexRuns are proved for.
 */
module NoteEntries {
  import opened Wrappers
  import opened Strings
  import opened Text
  import opened Notes
  import opened NotesRoundTrip
  import opened IndexBuild

  /* ---------- wiki links ---------- */

  /** How many characters of s come before its first `c`. */
  function Until(s: string, c: char): (n: nat)
    ensures n <= |s| && c !in s[..n] && (n < |s| ==> s[n] == c)
  {
    if s == "" || s[0] == c then 0
    else
      var n := Until(s[1..], c);
      assert s[..n + 1] == [s[0]] + s[1..][..n];
      n + 1
  }

  /** What the link pattern captures: "[[", then one or more characters other than ']', then "]]"; leftmost first. */
  function Matches(s: string): seq<string>
    decreases |s|
  {
    if |s| < 2 then []
    else if s[..2] != "[[" then Matches(s[1..])
    else
      var n := Until(s[2..], ']');
      if n > 0 && n + 4 <= |s| && s[n + 3] == ']' then [s[2..n + 2]] + Matches(s[n + 4..]) else Matches(s[1..])
  }

  /** The target of a captured link: what is before the first '|', trimmed. */
  function TargetOf(capture: string): string {
    TrimSpace(capture[..Until(capture, '|')])
  }

  function Targets(captures: seq<string>): seq<string> {
    seq(|captures|, i requires 0 <= i < |captures| => TargetOf(captures[i]))
  }

  function Links(body: string): seq<string> {
    Targets(Matches(body))
  }

  method ExtractLinks(body: string) returns (result: seq<string>)
    ensures result == Links(body)
  {
    var captures := Matches(body);
    result := [];
    for i := 0 to |captures|
      invariant |result| == i && forall j | 0 <= j < i :: result[j] == TargetOf(captures[j])
    {
      var target := captures[i];
      var bar := Until(target, '|');
      if bar < |target| {
        target := target[..bar];
      }
      assert target == captures[i][..bar];
      result := result + [TrimSpace(target)];
    }
  }

  lemma NoBracketNoMatch(text: string, rest: string)
    requires '[' !in text
    ensures Matches(text + rest) == Matches(rest)
  {
    if text == "" {
      assert text + rest == rest;
    } else {
      assert (text + rest)[0] == text[0] && (text + rest)[1..] == text[1..] + rest;
      NoBracketNoMatch(text[1..], rest);
    }
  }

  lemma MatchHere(capture: string, rest: string)
    requires capture != "" && ']' !in capture
    ensures Matches("[[" + (capture + ("]]" + rest))) == [capture] + Matches(rest)
  {
    var tail := capture + ("]]" + rest);
    UntilBrackets(capture, rest);
    hide Until;
    var s := "[[" + tail;
    assert s[2..] == tail;
    assert s[|capture| + 3] == tail[|capture| + 1] == ("]]" + rest)[1] == ']';
    assert s[2..|capture| + 2] == tail[..|capture|] == capture;
    assert s[|capture| + 4..] == tail[|capture| + 2..] == ("]]" + rest)[2..] == rest;
    MatchAt(s, |capture|);
  }

  lemma UntilBrackets(capture: string, rest: string)
    requires ']' !in capture
    ensures Until(capture + ("]]" + rest), ']') == |capture|
  {
    assert "]]" + rest == [']'] + ("]" + rest);
    UntilIs(capture, ']', "]" + rest);
  }

  lemma MatchAt(s: string, n: nat)
    requires |s| >= 2 && s[..2] == "[[" && Until(s[2..], ']') == n && n > 0 && n + 4 <= |s| && s[n + 3] == ']'
    ensures Matches(s) == [s[2..n + 2]] + Matches(s[n + 4..])
  {
    hide Until;
  }

  /** A link in running text is found, and the scan goes on behind it. */
  lemma LinkIsFound(text: string, capture: string, rest: string)
    requires '[' !in text && capture != "" && ']' !in capture
    ensures Links(text + ("[[" + (capture + ("]]" + rest)))) == [TargetOf(capture)] + Links(rest)
  {
    NoBracketNoMatch(text, "[[" + (capture + ("]]" + rest)));
    MatchHere(capture, rest);
    hide Matches, TargetOf;
  }

  lemma {:induction false} UntilIs(a: string, c: char, rest: string)
    requires c !in a
    ensures Until(a + ([c] + rest), c) == |a|
  {
    if a == "" {
      assert a + ([c] + rest) == [c] + rest;
    } else {
      assert (a + ([c] + rest))[0] == a[0] && (a + ([c] + rest))[1..] == a[1..] + ([c] + rest);
      UntilIs(a[1..], c, rest);
    }
  }

  /** White space up to index k, where the target ends. */
  predicate BlankUpTo(capture: string, k: nat) {
    k <= |capture| && (k < |capture| ==> capture[k] == '|') && forall j | 0 <= j < k :: IsSpace(capture[j])
  }

  /**
   A link has a blank target, as in "[[ ]]" and "[[|x]]", exactly if there is only white space before its
   first '|' or its end.
   */
  lemma BlankTargetIff(capture: string)
    ensures TargetOf(capture) == "" <==> exists k: nat :: BlankUpTo(capture, k)
  {
    var n := Until(capture, '|');
    if TargetOf(capture) == "" {
      assert forall j | 0 <= j < n :: capture[..n][j] in capture[..n];
      assert BlankUpTo(capture, n);
    }
    if k: nat :| BlankUpTo(capture, k) {
      assert !IsSpace('|');
      assert n <= k by {
        AtIsIn(capture[..n], k);
      }
    }
  }

  /* ---------- entries ---------- */

  /** How parseEntry takes a string or a list of strings out of a YAML value, and finds headings. */
  datatype View<!V> = View(text: V -> Option<string>, list: V -> seq<string>, headings: string -> seq<string>)

  function TextAt<V>(view: View<V>, fm: map<string, V>, key: string): string {
    if key !in fm then "" else match view.text(fm[key]) case None => "" case Some(s) => s
  }

  function ListAt<V>(view: View<V>, fm: map<string, V>, key: string): seq<string> {
    if key in fm then view.list(fm[key]) else []
  }

  function MetaOf<V(!new)>(c: Codec<V>, view: View<V>, n: Note<V>): Meta {
    Meta(TextAt(view, n.frontmatter, "title"), ListAt(view, n.frontmatter, "aliases"),
      ListAt(view, n.frontmatter, "tags"),
         ContentHash(c, n), view.headings(n.body), Links(n.body))
  }

  function ParseMeta<V(!new)>(c: Codec<V>, view: View<V>, content: string): Option<Meta> {
    match Parse(c, content) case None => None case Some(n) => Some(MetaOf(c, view, n))
  }

  /**
   Suggestions are not content: write them into a note's file, and its index entry is the
   same as before but for the file time.
   */
  lemma SuggestionsKeepEntry<V(!new)>(c: Codec<V>, view: View<V>, n: Note<V>, suggestions: V, extra: seq<string>)
    requires Lawful(c) && Printable(c, n) && Fits(c.entry(AI, suggestions))
    requires NewKeys(n.(frontmatter := n.frontmatter[AI := suggestions]), extra)
    ensures
      var file := Print(c, n.(frontmatter := n.frontmatter[AI := suggestions]), extra);
      ParseMeta(c, view, file) == Some(MetaOf(c, view, n))
  {
    SuggestionsKeepHash(c, n, suggestions, extra);
    hide *;
    var file := Print(c, n.(frontmatter := n.frontmatter[AI := suggestions]), extra);
    SameMeta(c, view, n, Parse(c, file).value, suggestions);
    ParsedMeta(c, view, file);
  }

  lemma ParsedMeta<V(!new)>(c: Codec<V>, view: View<V>, content: string)
    requires Parse(c, content).Some?
    ensures ParseMeta(c, view, content) == Some(MetaOf(c, view, Parse(c, content).value))
  {}

  lemma SameMeta<V(!new)>(c: Codec<V>, view: View<V>, n: Note<V>, n': Note<V>, suggestions: V)
    requires n'.frontmatter == n.frontmatter[AI := suggestions] && n'.body == n.body
      && ContentHash(c, n') == ContentHash(c, n)
    ensures MetaOf(c, view, n') == MetaOf(c, view, n)
  {
    hide ContentHash, Links, TextAt, ListAt;
    assert AI != "title" && AI != "aliases" && AI != "tags" by {
      assert |AI| == 14;
    }
    OtherKeyStays(view, n.frontmatter, "title", suggestions);
    OtherKeyStays(view, n.frontmatter, "aliases", suggestions);
    OtherKeyStays(view, n.frontmatter, "tags", suggestions);
  }

  lemma OtherKeyStays<V>(view: View<V>, fm: map<string, V>, key: string, value: V)
    requires key != AI
    ensures TextAt(view, fm[AI := value], key) == TextAt(view, fm, key)
    ensures ListAt(view, fm[AI := value], key) == ListAt(view, fm, key)
  {}
}

/**
 Printing and parsing notes. What marshal writes parses back to the same note and prints
 the same again; adding suggestions never changes the content hash; and a file written
 back untouched is byte-identical exactly under the condition of `WriteBackIsIdentical`.
 */
module NotesRoundTrip {
  import opened Wrappers
  import opened Text
  import opened Frontmatter
  import opened Notes
  import opened Strings

  function PairsOf<V(!new)>(c: Codec<V>, fm: map<string, V>, keys: seq<string>): seq<(string, V)> {
    seq(|keys|, i requires 0 <= i < |keys| => (keys[i], ValueOf(c, fm, keys[i])))
  }

  /** An encoded entry is whole lines of clean, non-blank text, none of them a fence. */
  predicate EntryText(e: string) {
    e != "" && !Blank(e) && EndsInNewline(e) && Clean(e) && FENCE !in Scan(e)
  }

  /** The laws of YAML used here: entries look as above, and entries of distinct keys in a row decode to them. */
  ghost predicate Lawful<V(!new)>(c: Codec<V>) {
    && (forall k, v :: EntryText(c.entry(k, v)))
    && (forall fm: map<string, V>, keys: seq<string> | keys != [] && Distinct(keys) ::
          c.decode(Render(c, fm, keys)) == Some(PairsOf(c, fm, keys)))
  }

  /* ---------- what a printed block looks like ---------- */

  /** Whole lines of clean text without a fence. */
  predicate BlockText(s: string) {
    EndsInNewline(s) && Clean(s) && FENCE !in Scan(s)
  }

  lemma BlockTextAppend(a: string, b: string)
    requires BlockText(a) && BlockText(b)
    ensures BlockText(a + b)
  {
    CleanAppend(a, b);
    if Fits(a) { ScanAppend(a, b); } else { ScanOverlong(a, b); }
    CleanEndsInNewline(a + b);
  }

  lemma {:induction false} RenderedText<V(!new)>(c: Codec<V>, fm: map<string, V>, keys: seq<string>)
    requires Lawful(c)
    ensures BlockText(Render(c, fm, keys))
    ensures keys != [] ==> !Blank(Render(c, fm, keys))
  {
    if keys != [] {
      var key := keys[|keys| - 1];
      var e := c.entry(key, ValueOf(c, fm, key));
      RenderedText(c, fm, keys[..|keys| - 1]);
      assert EntryText(e);
      assert BlockText(e);
      hide Lawful, BlockText;
      BlockTextAppend(Render(c, fm, keys[..|keys| - 1]), e);
      BlankAppend(Render(c, fm, keys[..|keys| - 1]), e);
    }
  }

  /** What one key adds to the block: its value, or what stands for the value of a key that is gone from the map. */
  lemma {:induction false} RenderedEntry<V(!new)>(c: Codec<V>, fm: map<string, V>, keys: seq<string>, i: nat)
    requires i < |keys|
    ensures Render(c, fm, keys) == Render(c, fm, keys[..i]) +
      (c.entry(keys[i], if keys[i] in fm then fm[keys[i]] else c.missing) + Render(c, fm, keys[i + 1..]))
  {
    var init := keys[..|keys| - 1];
    if i < |keys| - 1 {
      RenderedEntry(c, fm, init, i);
      assert init[..i] == keys[..i] && init[i + 1..] == keys[i + 1..][..|keys[i + 1..]| - 1];
    }
  }

  /** Of pairs with the same key, the last gives the value. */
  lemma {:induction false} LastPairWins<V>(pairs: seq<(string, V)>, i: nat)
    requires i < |pairs| && forall j | i < j < |pairs| :: pairs[j].0 != pairs[i].0
    ensures pairs[i].0 in MapOf(pairs) && MapOf(pairs)[pairs[i].0] == pairs[i].1
  {
    if i < |pairs| - 1 {
      LastPairWins(pairs[..|pairs| - 1], i);
    }
  }

  lemma BlankAppend(a: string, b: string)
    requires !Blank(b)
    ensures !Blank(a + b)
  {
    var ch :| ch in b && !IsSpace(ch);
    assert ch in a + b;
  }

  lemma {:induction false} RenderedFits<V(!new)>(c: Codec<V>, fm: map<string, V>, keys: seq<string>)
    requires Lawful(c)
    requires forall k | k in keys :: Fits(c.entry(k, ValueOf(c, fm, k)))
    ensures Fits(Render(c, fm, keys))
  {
    if keys != [] {
      RenderedFits(c, fm, keys[..|keys| - 1]);
      RenderedText(c, fm, keys[..|keys| - 1]);
      FitsAppend(Render(c, fm, keys[..|keys| - 1]), c.entry(keys[|keys| - 1], ValueOf(c, fm, keys[|keys| - 1])));
    }
  }

  /** Parts that are whole fitting lines without a fence are found again. */
  lemma ReassembledSplits(p: Parts)
    requires EndsInNewline(p.pre) && Fits(p.pre) && FENCE !in Scan(p.pre)
    requires EndsInNewline(p.yaml) && Fits(p.yaml) && FENCE !in Scan(p.yaml)
    requires Fits(p.body)
    ensures Split(Reassemble(p)) == Some(Parts(Norm(p.pre), Norm(p.yaml), Norm(p.body)))
  {
    ScanReassembled(p);
    SplitAtFences(Reassemble(p), Scan(p.pre), Scan(p.yaml) + ([FENCE] + Scan(p.body)), Scan(p.yaml), Scan(p.body));
    UnlinesScan(p.pre);
    UnlinesScan(p.yaml);
    UnlinesScan(p.body);
  }

  lemma ScanReassembled(p: Parts)
    requires EndsInNewline(p.pre) && Fits(p.pre)
    requires EndsInNewline(p.yaml) && Fits(p.yaml)
    ensures Scan(Reassemble(p)) == Scan(p.pre) + ([FENCE] + (Scan(p.yaml) + ([FENCE] + Scan(p.body))))
    ensures Fits(Reassemble(p)) <==> Fits(p.body)
  {
    var tail := p.yaml + (FENCE_LINE + p.body);
    hide Scan, Fits;
    ScanAppend(p.pre, FENCE_LINE + tail);
    FitsAppend(p.pre, FENCE_LINE + tail);
    ScanFence(tail);
    ScanAppend(p.yaml, FENCE_LINE + p.body);
    FitsAppend(p.yaml, FENCE_LINE + p.body);
    ScanFence(p.body);
  }

  /* ---------- printed notes parse back ---------- */

  /** The notes that survive: keys in order once and present, whole clean lines, no fence before the first. */
  ghost predicate Printable<V(!new)>(c: Codec<V>, n: Note<V>) {
    && Distinct(n.keyOrder) && (forall k | k in n.keyOrder :: k in n.frontmatter)
    && Clean(n.preFence) && Fits(n.preFence) && FENCE !in Scan(n.preFence)
    && Clean(n.body) && Fits(n.body)
    && forall k | k in n.frontmatter :: Fits(c.entry(k, n.frontmatter[k]))
  }

  lemma {:induction false} WithoutAIDistinct(keys: seq<string>)
    requires Distinct(keys)
    ensures Distinct(WithoutAI(keys))
  {
    if keys != [] {
      WithoutAIDistinct(keys[..|keys| - 1]);
      assert keys[|keys| - 1] !in keys[..|keys| - 1];
    }
  }

  /** marshal writes every key of the map exactly once. */
  lemma OrderedIsComplete<V(!new)>(c: Codec<V>, n: Note<V>, extra: seq<string>)
    requires Printable(c, n) && NewKeys(n, extra)
    ensures Distinct(Ordered(n, extra))
    ensures forall k :: k in Ordered(n, extra) <==> k in n.frontmatter
  {
    WithoutAIDistinct(n.keyOrder);
    var file := WithoutAI(n.keyOrder);
    if n.frontmatter != map[] {
      DistinctAppend(file, extra);
      assert AI !in file && AI !in extra;
      var last := if AI in n.frontmatter then [AI] else [];
      DistinctAppend(file + extra, last);
      forall k ensures k in Ordered(n, extra) <==> k in n.frontmatter {
        assert k in Ordered(n, extra) <==> k in file || k in extra || k in last;
      }
    }
  }

  lemma DistinctAppend(a: seq<string>, b: seq<string>)
    requires Distinct(a) && Distinct(b) && forall k | k in a :: k !in b
    ensures Distinct(a + b)
  {
    forall i, j | 0 <= i < j < |a + b| ensures (a + b)[i] != (a + b)[j] {
      if i < |a| <= j {
        assert a[i] in a && b[j - |a|] in b;
      }
    }
  }

  lemma {:induction false} MapOfPairs<V(!new)>(c: Codec<V>, fm: map<string, V>, keys: seq<string>)
    ensures MapOf(PairsOf(c, fm, keys)).Keys == (set k | k in keys)
    ensures forall k | k in keys :: MapOf(PairsOf(c, fm, keys))[k] == ValueOf(c, fm, k)
  {
    if keys != [] {
      var init := keys[..|keys| - 1];
      MapOfPairs(c, fm, init);
      assert PairsOf(c, fm, keys)[..|keys| - 1] == PairsOf(c, fm, init);
      assert keys == init + [keys[|keys| - 1]];
    }
  }

  /** Parse(marshal(n)) is n again, its keys now in the printed order. */
  lemma ParsePrinted<V(!new)>(c: Codec<V>, n: Note<V>, extra: seq<string>)
    requires Lawful(c) && Printable(c, n) && NewKeys(n, extra)
    ensures Parse(c, Print(c, n, extra)) == Some(Note(n.preFence, n.frontmatter, n.body, Ordered(n, extra)))
  {
    var keys := Ordered(n, extra);
    var block := Render(c, n.frontmatter, keys);
    OrderedIsComplete(c, n, extra);
    BlockSplits(c, n, keys);
    assert Split(Print(c, n, extra)) == Some(Parts(n.preFence, block, n.body));
    BlockDecodes(c, n.frontmatter, keys);
  }

  lemma BlockSplits<V(!new)>(c: Codec<V>, n: Note<V>, keys: seq<string>)
    requires Lawful(c) && Printable(c, n) && forall k | k in keys :: k in n.frontmatter
    ensures var p := Parts(n.preFence, Render(c, n.frontmatter, keys), n.body); Split(Reassemble(p)) == Some(p)
  {
    RenderedText(c, n.frontmatter, keys);
    RenderedFits(c, n.frontmatter, keys);
    CleanEndsInNewline(n.preFence);
    ReassembledSplits(Parts(n.preFence, Render(c, n.frontmatter, keys), n.body));
  }

  lemma BlockDecodes<V(!new)>(c: Codec<V>, fm: map<string, V>, keys: seq<string>)
    requires Lawful(c) && Distinct(keys) && forall k :: k in keys <==> k in fm
    ensures Decode(c, Render(c, fm, keys)) == Some(PairsOf(c, fm, keys))
    ensures MapOf(PairsOf(c, fm, keys)) == fm && KeysOf(PairsOf(c, fm, keys)) == keys
  {
    RenderedText(c, fm, keys);
    MapOfPairs(c, fm, keys);
  }

  /**
   The fixed point. For a printable note, whatever order the map gave its new keys: the
   printed file parses to the same pre-fence, map and body, with the file's own keys first in
   their order and ai_suggestions last; and printing that note gives the same file.
   */
  lemma PrintIsFixedPoint<V(!new)>(c: Codec<V>, n: Note<V>, extra: seq<string>)
    requires Lawful(c) && Printable(c, n) && NewKeys(n, extra)
    ensures Parse(c, Print(c, n, extra)).Some?
    ensures var n' := Parse(c, Print(c, n, extra)).value;
            && n'.preFence == n.preFence && n'.frontmatter == n.frontmatter && n'.body == n.body
            && (n.frontmatter != map[] ==> WithoutAI(n.keyOrder) <= n'.keyOrder)
            && (AI in n.frontmatter ==> n'.keyOrder[|n'.keyOrder| - 1..] == [AI])
            && forall extra' | NewKeys(n', extra') :: Print(c, n', extra') == Print(c, n, extra)
  {
    ParsePrinted(c, n, extra);
    OrderedIsComplete(c, n, extra);
    hide Lawful, Printable, Parse, WithoutAI, Render;
    var n' := Note(n.preFence, n.frontmatter, n.body, Ordered(n, extra));
    forall extra' | NewKeys(n', extra') ensures Print(c, n', extra') == Print(c, n, extra) {
      NoNewKeys(n', extra');
      ReorderedSame(n, extra);
    }
  }

  lemma NoNewKeys<V(!new)>(n: Note<V>, extra: seq<string>)
    requires NewKeys(n, extra) && forall k | k in n.frontmatter :: k in n.keyOrder
    ensures extra == []
  {
    AtIsIn(extra, 0);
  }

  lemma ReorderedSame<V(!new)>(n: Note<V>, extra: seq<string>)
    requires NewKeys(n, extra)
    ensures Ordered(Note(n.preFence, n.frontmatter, n.body, Ordered(n, extra)), []) == Ordered(n, extra)
  {
    var keys, own := Ordered(n, extra), WithoutAI(n.keyOrder) + extra;
    if n.frontmatter != map[] {
      assert AI !in own;
      if AI in n.frontmatter {
        assert keys == own + [AI] && keys[..|keys| - 1] == own;
        assert WithoutAI(keys) == WithoutAI(own) == own;
      } else {
        assert keys == own && WithoutAI(keys) == own;
      }
    }
  }

  /**
   Own writes are suppressed. Setting or replacing ai_suggestions, printing and parsing
   again leaves the content hash as it was, whatever the key order.
   */
  lemma SuggestionsKeepHash<V(!new)>(c: Codec<V>, n: Note<V>, suggestions: V, extra: seq<string>)
    requires Lawful(c) && Printable(c, n) && Fits(c.entry(AI, suggestions))
    requires NewKeys(n.(frontmatter := n.frontmatter[AI := suggestions]), extra)
    ensures var file := Print(c, n.(frontmatter := n.frontmatter[AI := suggestions]), extra);
            && Parse(c, file).Some?
            && Parse(c, file).value.frontmatter == n.frontmatter[AI := suggestions]
            && Parse(c, file).value.body == n.body
            && ContentHash(c, Parse(c, file).value) == ContentHash(c, n)
  {
    var n1 := n.(frontmatter := n.frontmatter[AI := suggestions]);
    SuggestionsKeepPrintable(c, n, suggestions);
    ParsePrinted(c, n1, extra);
    SameWithout(n.frontmatter, AI, suggestions);
    hide Printable, Lawful, NewKeys, Parse, Print;
  }

  lemma SameWithout<V>(fm: map<string, V>, key: string, value: V)
    ensures fm[key := value] - {key} == fm - {key}
  {}

  lemma SuggestionsKeepPrintable<V(!new)>(c: Codec<V>, n: Note<V>, suggestions: V)
    requires Printable(c, n) && Fits(c.entry(AI, suggestions))
    ensures Printable(c, n.(frontmatter := n.frontmatter[AI := suggestions]))
  {}

  /* ---------- writing back what was read ---------- */

  /** A YAML block that is already as marshal prints it. */
  predicate Canonical<V(!new)>(c: Codec<V>, yaml: string) {
    Decode(c, yaml).Some? && yaml == Reprinted(c, yaml)
  }

  function Reprinted<V(!new)>(c: Codec<V>, yaml: string): string
    requires Decode(c, yaml).Some?
  {
    var fm := MapOf(Decode(c, yaml).value);
    Render(c, fm, Ordered(Note("", fm, "", KeysOf(Decode(c, yaml).value)), []))
  }

  lemma {:induction false} MapOfHasKeys<V>(pairs: seq<(string, V)>)
    ensures forall k :: k in MapOf(pairs) <==> k in KeysOf(pairs)
  {
    if pairs != [] {
      var init := pairs[..|pairs| - 1];
      MapOfHasKeys(init);
      assert KeysOf(pairs) == KeysOf(init) + [pairs[|pairs| - 1].0];
    }
  }

  /** A parsed note has no new keys, so it prints in one way. */
  lemma ParsedPrint<V(!new)>(c: Codec<V>, data: string, extra: seq<string>)
    requires Split(data).Some? && Parse(c, data).Some? && NewKeys(Parse(c, data).value, extra)
    ensures var p := Split(data).value;
            Print(c, Parse(c, data).value, extra) == Reassemble(Parts(p.pre, Reprinted(c, p.yaml), p.body))
  {
    var pairs := Decode(c, Split(data).value.yaml).value;
    MapOfHasKeys(pairs);
    NoNewKeys(Parse(c, data).value, extra);
  }

  /** If the file starts with its own pre-fence part again, what follows scans to the lines after the first fence. */
  lemma SameFileSameHead(data: string, rest: string)
    requires Split(data).Some? && data == Split(data).value.pre + (FENCE_LINE + rest)
    ensures var lines := Scan(data); lines[FirstFence(lines).value + 1..] == Scan(rest)
    ensures Fits(Split(data).value.pre) && EndsInNewline(Split(data).value.pre)
  {
    var lines, pre := Scan(data), Split(data).value.pre;
    var open := FirstFence(lines).value;
    ScannedAreLines(data);
    ScanUnlines(lines[..open]);
    hide Scan, Fits, FirstFence, Unlines, Split;
    ScanAppend(pre, FENCE_LINE + rest);
    ScanFence(rest);
    TailBehind(lines, Scan(pre), Scan(rest));
  }

  lemma TailBehind(lines: seq<string>, a: seq<string>, b: seq<string>)
    requires lines == a + ([FENCE] + b)
    ensures |a| < |lines| && lines[|a| + 1..] == b
  {}

  /** If the reprinted file is the file that was read, its YAML block was not changed either. */
  lemma SameFileSameBlock(data: string, block: string)
    requires Split(data).Some? && BlockText(block)
    requires data == Reassemble(Parts(Split(data).value.pre, block, Split(data).value.body))
    ensures Fits(data) && block == Split(data).value.yaml
  {
    var lines, p := Scan(data), Split(data).value;
    var tail := lines[FirstFence(lines).value + 1..];
    var close := FirstFence(tail).value;
    ScannedAreLines(data);
    ScanUnlines(tail[close + 1..]);
    assert FENCE in tail by { assert tail[close] in tail; }
    SameFileSameHead(data, block + (FENCE_LINE + p.body));
    if !Fits(block) {
      ScanOverlong(block, FENCE_LINE + p.body);
      assert false;
    }
    BlockIsFound(data, p, block, tail);
  }

  lemma BlockIsFound(data: string, p: Parts, block: string, tail: seq<string>)
    requires BlockText(block) && Fits(block) && tail == Scan(block + (FENCE_LINE + p.body))
    requires FirstFence(tail).Some? && p.yaml == Unlines(tail[..FirstFence(tail).value])
    requires EndsInNewline(p.pre) && Fits(p.pre) && Fits(p.body) && data == Reassemble(Parts(p.pre, block, p.body))
    ensures block == p.yaml && Fits(data)
  {
    ScanReassembled(Parts(p.pre, block, p.body));
    ScanAppend(block, FENCE_LINE + p.body);
    ScanFence(p.body);
    CutAtFence(tail, Scan(block), Scan(p.body));
    UnlinesScan(block);
  }

  /**
   When writing back an unchanged note reproduces the file byte for byte: exactly when it has a pair of
   fences, all lines fit the scanner, lines end in a bare newline, and its YAML block is as
   marshal prints it. In particular never for a file without frontmatter.
   */
  lemma WriteBackIsIdentical<V(!new)>(c: Codec<V>, data: string, extra: seq<string>)
    requires Lawful(c) && Parse(c, data).Some? && NewKeys(Parse(c, data).value, extra)
    ensures Print(c, Parse(c, data).value, extra) == data <==>
            Split(data).Some? && Fits(data) && Clean(data) && Canonical(c, Split(data).value.yaml)
  {
    if Split(data).None? {
      assert |Print(c, Parse(c, data).value, extra)| >= |data| + 8;
    } else {
      var p := Split(data).value;
      ParsedPrint(c, data, extra);
      SplitIsExact(data);
      var fm := MapOf(Decode(c, p.yaml).value);
      RenderedText(c, fm, Ordered(Note("", fm, "", KeysOf(Decode(c, p.yaml).value)), []));
      if Print(c, Parse(c, data).value, extra) == data {
        SameFileSameBlock(data, Reprinted(c, p.yaml));
      }
    }
  }

  /** A file without frontmatter is not written back as it was: it gets a pair of fences. */
  lemma PlainFileIsNotWrittenBack<V(!new)>(c: Codec<V>)
    ensures Split("x").None? && Parse(c, "x").Some? && NewKeys(Parse(c, "x").value, [])
    ensures Print(c, Parse(c, "x").value, []) == FENCE_LINE + (FENCE_LINE + "x") != "x"
  {
    ScanStep("x");
    assert LineEnd("x") == 1 && "x"[..1] == "x" && Rest("x") == "";
    assert Scan("x") == ["x"] && ["x"][1..] == [] && "x"[0] != FENCE[0];
    NoSplitIffFewFences("x");
    hide Scan, LineEnd;
    assert "" + (FENCE_LINE + ("" + (FENCE_LINE + "x"))) == FENCE_LINE + (FENCE_LINE + "x");
    assert |FENCE_LINE + (FENCE_LINE + "x")| == 9;
  }
}

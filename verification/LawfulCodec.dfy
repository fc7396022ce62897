/** The laws asked of YAML in NotesRoundTrip can be met: a codec that meets them. */
module LawfulCodec {
  import opened Wrappers
  import opened Text
  import opened Strings
  import opened Frontmatter
  import opened Notes
  import opened NotesRoundTrip

  type Pair = (string, bool)

  /** Each character in unary. */
  function EncodeKey(key: string): string {
    if key == "" then "" else Strokes(key[0] as nat) + "," + EncodeKey(key[1..])
  }

  function Strokes(n: nat): string {
    if n == 0 then "" else "x" + Strokes(n - 1)
  }

  function Line(key: string, value: bool): string {
    "k" + (EncodeKey(key) + (if value then "t" else "f"))
  }

  function Entry(key: string, value: bool): string {
    Line(key, value) + "\n"
  }

  /* ---------- an entry can be read back ---------- */

  lemma {:induction false} SameStrokes(m: nat, a: string, n: nat, b: string)
    requires Strokes(m) + ("," + a) == Strokes(n) + ("," + b)
    ensures m == n && a == b
  {
    var s, t := Strokes(m) + ("," + a), Strokes(n) + ("," + b);
    if m == 0 || n == 0 {
      assert s[0] == t[0];
      assert m == 0 ==> s == "," + a;
      assert n == 0 ==> t == "," + b;
      assert ("," + a)[1..] == a && ("," + b)[1..] == b;
    } else {
      assert s == "x" + (Strokes(m - 1) + ("," + a)) && t == "x" + (Strokes(n - 1) + ("," + b));
      assert s[1..] == Strokes(m - 1) + ("," + a) && t[1..] == Strokes(n - 1) + ("," + b);
      SameStrokes(m - 1, a, n - 1, b);
    }
  }

  lemma FirstOfKey(key: string, end: string)
    requires |end| == 1 && end[0] in {'t', 'f'}
    ensures (EncodeKey(key) + end)[0] in {'t', 'f'} <==> key == ""
    ensures key == "" ==> EncodeKey(key) + end == end
    ensures key != "" ==> EncodeKey(key) + end == Strokes(key[0] as nat) + ("," + (EncodeKey(key[1..]) + end))
  {
    if key == "" {
      assert EncodeKey(key) + end == end;
    } else {
      Reassociate(Strokes(key[0] as nat), EncodeKey(key[1..]), end);
      FirstStroke(key[0] as nat, EncodeKey(key[1..]) + end);
    }
  }

  lemma Reassociate(a: string, b: string, c: string)
    ensures (a + "," + b) + c == a + ("," + (b + c))
  {}

  lemma FirstStroke(n: nat, rest: string)
    ensures (Strokes(n) + ("," + rest))[0] in {'x', ','}
  {}

  lemma {:induction false} SameKey(a: string, x: string, b: string, y: string)
    requires |x| == |y| == 1 && x[0] in {'t', 'f'} && y[0] in {'t', 'f'}
    requires EncodeKey(a) + x == EncodeKey(b) + y
    ensures a == b && x == y
  {
    FirstOfKey(a, x);
    FirstOfKey(b, y);
    if a != "" {
      SameStrokes(a[0] as nat, EncodeKey(a[1..]) + x, b[0] as nat, EncodeKey(b[1..]) + y);
      SameKey(a[1..], x, b[1..], y);
      assert a == [a[0]] + a[1..] && b == [b[0]] + b[1..];
    }
  }

  lemma SameLine(a: Pair, b: Pair)
    requires Line(a.0, a.1) == Line(b.0, b.1)
    ensures a == b
  {
    var x, y := if a.1 then "t" else "f", if b.1 then "t" else "f";
    assert Line(a.0, a.1)[1..] == EncodeKey(a.0) + x && Line(b.0, b.1)[1..] == EncodeKey(b.0) + y;
    SameKey(a.0, x, b.0, y);
  }

  /* ---------- what an entry looks like ---------- */

  lemma {:induction false} StrokesOnly(n: nat)
    ensures forall c | c in Strokes(n) :: c == 'x'
  {
    if n > 0 {
      StrokesOnly(n - 1);
    }
  }

  lemma {:induction false} KeyText(key: string)
    ensures forall c | c in EncodeKey(key) :: c in {'x', ','}
  {
    if key != "" {
      StrokesOnly(key[0] as nat);
      KeyText(key[1..]);
    }
  }

  lemma LineText(key: string, value: bool)
    ensures forall c | c in Line(key, value) :: c in {'k', 'x', ',', 't', 'f'}
  {
    KeyText(key);
  }

  lemma EntryLooksRight(key: string, value: bool)
    ensures EntryText(Entry(key, value))
  {
    var line, e := Line(key, value), Entry(key, value);
    LineText(key, value);
    assert line[0] == 'k' && line[0] in line;
    assert e == line + "\n" + "";
    LineEndOfLine(line, "");
    assert e[..|line|] == line && Rest(e) == "";
    assert line[|line| - 1] in line && DropCR(line) == line;
    ScanStep(e);
    NormFirstLine(e);
    assert e[0] == 'k' && e[0] in e && !IsSpace('k');
    assert FENCE[0] == '-';
  }

  /* ---------- a block can be read back ---------- */

  function Block(pairs: seq<Pair>): string {
    if pairs == [] then ""
    else Block(pairs[..|pairs| - 1]) + Entry(pairs[|pairs| - 1].0, pairs[|pairs| - 1].1)
  }

  lemma BlockIsWhole(pairs: seq<Pair>)
    ensures EndsInNewline(Block(pairs))
  {}

  /** The last line of a text of whole lines is determined. */
  lemma SameLast(a: string, v: string, b: string, w: string)
    requires EndsInNewline(a) && EndsInNewline(b) && '\n' !in v && '\n' !in w
    requires a + (v + "\n") == b + (w + "\n")
    ensures a == b && v == w
  {
    NotLonger(a, v, b, w);
    NotLonger(b, w, a, v);
    var s, t := a + (v + "\n"), b + (w + "\n");
    assert a == s[..|a|] && b == t[..|b|];
    assert v == s[|a|..|a| + |v|] && w == t[|b|..|b| + |w|];
  }

  lemma NotLonger(a: string, v: string, b: string, w: string)
    requires EndsInNewline(b) && '\n' !in v
    requires a + (v + "\n") == b + (w + "\n")
    ensures |b| <= |a|
  {
    NoNewlineIn(a, v);
    EndsWhole(b, w + "\n");
  }

  lemma NoNewlineIn(a: string, v: string)
    requires '\n' !in v
    ensures forall i | |a| <= i < |a| + |v| :: (a + (v + "\n"))[i] != '\n'
  {
    forall i | |a| <= i < |a| + |v| ensures (a + (v + "\n"))[i] != '\n' {
      assert (a + (v + "\n"))[i] == v[i - |a|];
    }
  }

  lemma EndsWhole(b: string, x: string)
    requires EndsInNewline(b)
    ensures b != "" ==> (b + x)[|b| - 1] == '\n'
  {}

  lemma SameLastEntry(p: seq<Pair>, x: Pair, q: seq<Pair>, y: Pair)
    requires Block(p) + Entry(x.0, x.1) == Block(q) + Entry(y.0, y.1)
    ensures x == y && Block(p) == Block(q)
  {
    BlockIsWhole(p);
    BlockIsWhole(q);
    LineText(x.0, x.1);
    LineText(y.0, y.1);
    SameLast(Block(p), Line(x.0, x.1), Block(q), Line(y.0, y.1));
    SameLine(x, y);
  }

  lemma {:induction false} SameBlock(p: seq<Pair>, q: seq<Pair>)
    requires Block(p) == Block(q)
    ensures p == q
  {
    if p != [] && q != [] {
      var x, y := p[|p| - 1], q[|q| - 1];
      SameLastEntry(p[..|p| - 1], x, q[..|q| - 1], y);
      SameBlock(p[..|p| - 1], q[..|q| - 1]);
      assert p == p[..|p| - 1] + [x] && q == q[..|q| - 1] + [y];
    }
  }

  ghost function Decoded(yaml: string): Option<seq<Pair>> {
    if pairs :| Block(pairs) == yaml then Some(pairs) else None
  }

  lemma BlockDecodes(pairs: seq<Pair>)
    ensures Decoded(Block(pairs)) == Some(pairs)
  {
    SameBlock(Decoded(Block(pairs)).value, pairs);
  }

  lemma {:induction false} RenderIsBlock(c: Codec<bool>, fm: map<string, bool>, keys: seq<string>)
    requires c.entry == Entry
    ensures Render(c, fm, keys) == Block(PairsOf(c, fm, keys))
  {
    if keys != [] {
      RenderIsBlock(c, fm, keys[..|keys| - 1]);
      assert PairsOf(c, fm, keys)[..|keys| - 1] == PairsOf(c, fm, keys[..|keys| - 1]);
    }
  }

  lemma LawsCanBeMet()
    ensures exists c: Codec<bool> :: Lawful(c)
  {
    var c: Codec<bool> := Codec(Entry, Decoded, (fm: map<string, bool>) => "", (s: string) => s, false);
    forall k, v ensures EntryText(c.entry(k, v)) {
      EntryLooksRight(k, v);
    }
    forall fm: map<string, bool>, keys: seq<string> | keys != [] && Distinct(keys)
      ensures c.decode(Render(c, fm, keys)) == Some(PairsOf(c, fm, keys))
    {
      RenderIsBlock(c, fm, keys);
      BlockDecodes(PairsOf(c, fm, keys));
    }
    assert Lawful(c);
  }
}

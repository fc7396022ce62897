/**
 Parse, marshal and ContentHash of internal/notes/notes.go. YAML and SHA-256 are
 parameters, with the laws the claims need stated in `Lawful`.
 */
module Notes {
  import opened Wrappers
  import opened Frontmatter
  import opened Strings

  const AI := "ai_suggestions"

  /**
   What notes.go takes from yaml.v3 and crypto/sha256: `entry` is Marshal of a one-key
   map, `decode` the key/value nodes of a mapping in file order (None for malformed YAML),
   `whole` Marshal of a map, `digest` the hex SHA-256, `missing` the nil that a key without a value yields.
   */
  datatype Codec<!V(!new)> = Codec(
    entry: (string, V) -> string,
    decode: string -> Option<seq<(string, V)>>,
    whole: map<string, V> -> string,
    digest: string -> string,
    missing: V)

  /** notes.Note; `keyOrder` is the order of the keys in the file. */
  datatype Note<V> = Note(preFence: string, frontmatter: map<string, V>, body: string, keyOrder: seq<string>)

  /* ---------- parsing ---------- */

  /** The map of a list of pairs: a later value for the same key wins. */
  function MapOf<V>(pairs: seq<(string, V)>): map<string, V> {
    if pairs == [] then map[]
    else
      var last := pairs[|pairs| - 1];
      MapOf(pairs[..|pairs| - 1])[last.0 := last.1]
  }

  function KeysOf<V>(pairs: seq<(string, V)>): (keys: seq<string>)
    ensures |keys| == |pairs| && forall i | 0 <= i < |pairs| :: keys[i] == pairs[i].0
  {
    seq(|pairs|, i requires 0 <= i < |pairs| => pairs[i].0)
  }

  function Decode<V(!new)>(c: Codec<V>, yaml: string): Option<seq<(string, V)>> {
    if Blank(yaml) then Some([]) else c.decode(yaml)
  }

  /** None is the error of malformed YAML. */
  function Parse<V(!new)>(c: Codec<V>, data: string): Option<Note<V>> {
    match Split(data)
    case None => Some(Note("", map[], data, []))
    case Some(p) =>
      match Decode(c, p.yaml)
      case None => None
      case Some(pairs) => Some(Note(p.pre, MapOf(pairs), p.body, KeysOf(pairs)))
  }

  method DecodeYAML<V(!new)>(c: Codec<V>, yaml: string) returns (fm: map<string, V>, order: seq<string>, ok: bool)
    ensures ok <==> Decode(c, yaml).Some?
    ensures ok ==> fm == MapOf(Decode(c, yaml).value) && order == KeysOf(Decode(c, yaml).value)
  {
    fm, order, ok := map[], [], true;
    if Blank(yaml) {
      return;
    }
    match c.decode(yaml)
    case None => return map[], [], false;
    case Some(pairs) =>
      for i := 0 to |pairs|
        invariant ok && fm == MapOf(pairs[..i]) && order == KeysOf(pairs[..i])
      {
        assert pairs[..i + 1][..i] == pairs[..i];
        fm := fm[pairs[i].0 := pairs[i].1];
        order := order + [pairs[i].0];
      }
      assert pairs[..|pairs|] == pairs;
  }

  method ParseNote<V(!new)>(c: Codec<V>, data: string) returns (note: Option<Note<V>>)
    ensures note == Parse(c, data)
  {
    var pre, yaml, body, ok := SplitFrontmatter(data);
    if !ok {
      return Some(Note("", map[], data, []));
    }
    var fm, order, decoded := DecodeYAML(c, yaml);
    return if decoded then Some(Note(pre, fm, body, order)) else None;
  }

  /* ---------- printing ---------- */

  /** The keys other than ai_suggestions, in order. */
  function WithoutAI(keys: seq<string>): (r: seq<string>)
    ensures forall k :: k in r <==> k in keys && k != AI
    ensures AI !in keys ==> r == keys
  {
    if keys == [] then []
    else
      var init := WithoutAI(keys[..|keys| - 1]);
      assert keys == keys[..|keys| - 1] + [keys[|keys| - 1]];
      if keys[|keys| - 1] == AI then init else init + [keys[|keys| - 1]]
  }

  /** Keys added after parsing: in the map, not in the key order. Go's map iteration may list them in any order. */
  ghost predicate NewKeys<V>(n: Note<V>, extra: seq<string>) {
    && Distinct(extra)
    && forall k :: k in extra <==> k in n.frontmatter && k !in n.keyOrder && k != AI
  }

  ghost predicate Distinct(keys: seq<string>) {
    forall i, j | 0 <= i < j < |keys| :: keys[i] != keys[j]
  }

  /** The order in which marshal writes the keys: the file's own, new ones, ai_suggestions last. */
  function Ordered<V>(n: Note<V>, extra: seq<string>): seq<string> {
    if n.frontmatter == map[] then [] else WithoutAI(n.keyOrder) + extra + (if AI in n.frontmatter then [AI] else [])
  }

  function ValueOf<V(!new)>(c: Codec<V>, fm: map<string, V>, key: string): V {
    if key in fm then fm[key] else c.missing
  }

  /** One encoded entry after another. */
  function Render<V(!new)>(c: Codec<V>, fm: map<string, V>, keys: seq<string>): string {
    if keys == [] then ""
    else Render(c, fm, keys[..|keys| - 1]) + c.entry(keys[|keys| - 1], ValueOf(c, fm, keys[|keys| - 1]))
  }

  function Print<V(!new)>(c: Codec<V>, n: Note<V>, extra: seq<string>): string {
    Reassemble(Parts(n.preFence, Render(c, n.frontmatter, Ordered(n, extra)), n.body))
  }

  /** The first half of marshal: collecting the keys. */
  method OrderKeys<V(!new)>(n: Note<V>) returns (ordered: seq<string>)
    requires n.frontmatter != map[]
    ensures exists extra :: NewKeys(n, extra) && ordered == Ordered(n, extra)
  {
    ordered := [];
    ghost var extra := [];
    var seen := {};
    for i := 0 to |n.keyOrder|
      invariant ordered == WithoutAI(n.keyOrder[..i])
      invariant forall k :: k in seen <==> k in n.keyOrder[..i] && k != AI
    {
      assert n.keyOrder[..i + 1] == n.keyOrder[..i] + [n.keyOrder[i]];
      if n.keyOrder[i] != AI {
        ordered := ordered + [n.keyOrder[i]];
        seen := seen + {n.keyOrder[i]};
      }
    }
    assert n.keyOrder[..|n.keyOrder|] == n.keyOrder;
    hide WithoutAI;
    var rest := n.frontmatter.Keys;
    while rest != {}
      invariant rest <= n.frontmatter.Keys && Distinct(extra)
      invariant forall k :: k in extra <==> k in n.frontmatter.Keys - rest && k !in n.keyOrder && k != AI
      invariant ordered == WithoutAI(n.keyOrder) + extra
      decreases |rest|
    {
      var k :| k in rest;
      rest := rest - {k};
      if k !in seen && k != AI {
        ordered := ordered + [k];
        extra := extra + [k];
      }
    }
    if AI in n.frontmatter {
      ordered := ordered + [AI];
    }
    assert NewKeys(n, extra) && ordered == Ordered(n, extra);
  }

  /** The second half: one encoded entry after another, up to a key among `bad`, whose value yaml.Marshal refuses. */
  method WriteEntries<V(!new)>(c: Codec<V>, fm: map<string, V>, ordered: seq<string>, before: string, bad: set<string>)
    returns (buf: string, ok: bool)
    ensures ok <==> forall k | k in ordered :: k !in bad
    ensures ok ==> buf == before + Render(c, fm, ordered)
  {
    buf := before;
    for i := 0 to |ordered|
      invariant buf == before + Render(c, fm, ordered[..i])
      invariant forall k | k in ordered[..i] :: k !in bad
    {
      if ordered[i] in bad {
        return buf, false;
      }
      assert ordered[..i + 1] == ordered[..i] + [ordered[i]] && ordered[..i + 1][..i] == ordered[..i];
      buf := buf + c.entry(ordered[i], ValueOf(c, fm, ordered[i]));
    }
    assert ordered[..|ordered|] == ordered;
    ok := true;
  }

  /** Which keys are printed: those of the map, and those of the key order even if they are gone from the map. */
  lemma PrintedKeys<V>(n: Note<V>, extra: seq<string>)
    requires NewKeys(n, extra)
    ensures forall k ::
      k in Ordered(n, extra) <==> n.frontmatter != map[] && (k in n.frontmatter || (k in n.keyOrder && k != AI))
  {}

  /**
   marshal prints the note, the new keys in whatever order the map yields them, or fails on a value that
   cannot be encoded.
   */
  method Marshal<V(!new)>(c: Codec<V>, n: Note<V>, bad: set<string>) returns (result: Option<string>)
    ensures result.None?
      <==> n.frontmatter != map[] && exists k :: k in bad && (k in n.frontmatter || (k in n.keyOrder && k != AI))
    ensures result.Some? ==> exists extra :: NewKeys(n, extra) && result.value == Print(c, n, extra)
  {
    var buf := n.preFence + FENCE_LINE;
    var ordered := [];
    assert n.frontmatter == map[] ==> NewKeys(n, []) && Ordered(n, []) == [];
    if n.frontmatter != map[] {
      ordered := OrderKeys(n);
    }
    ghost var extra :| NewKeys(n, extra) && ordered == Ordered(n, extra);
    PrintedKeys(n, extra);
    hide NewKeys, Ordered, Render;
    var ok;
    buf, ok := WriteEntries(c, n.frontmatter, ordered, buf, bad);
    if !ok {
      return None;
    }
    buf := buf + FENCE_LINE;
    buf := buf + n.body;
    SameParts(n.preFence, FENCE_LINE, Render(c, n.frontmatter, ordered), n.body);
    assert buf == Print(c, n, extra);
    return Some(buf);
  }

  lemma SameParts(pre: string, fence: string, block: string, body: string)
    ensures pre + fence + block + fence + body == pre + (fence + (block + (fence + body)))
  {}

  /* ---------- hashing ---------- */

  function ContentHash<V(!new)>(c: Codec<V>, n: Note<V>): string {
    var filtered := n.frontmatter - {AI};
    c.digest((if filtered == map[] then "" else c.whole(filtered)) + n.body)
  }

  method HashNote<V(!new)>(c: Codec<V>, n: Note<V>) returns (hash: string)
    ensures hash == ContentHash(c, n)
  {
    var filtered: map<string, V> := map[];
    var keep := n.frontmatter.Keys - {AI};
    assert keep == (n.frontmatter - {AI}).Keys;
    var rest := keep;
    while rest != {}
      invariant rest <= keep && filtered.Keys == keep - rest
      invariant forall k | k in filtered :: filtered[k] == n.frontmatter[k]
      decreases |rest|
    {
      var k :| k in rest;
      rest := rest - {k};
      filtered := filtered[k := n.frontmatter[k]];
    }
    assert filtered == n.frontmatter - {AI};
    var written := if filtered == map[] then "" else c.whole(filtered);
    return c.digest(written + n.body);
  }
}

/**
 What the content hash tells apart: with a digest that never collides, two notes with bodies
 of one length have the same hash exactly if they agree on everything but their suggestions.
 The YAML and the body are hashed in one run, though, so a body can imitate another note's YAML.
 */
module NotesHash {
  import opened Notes

  /** Two maps of keys to values are the same but for the suggestions. */
  ghost predicate SameMeta<V>(a: map<string, V>, b: map<string, V>) {
    forall k: string | k != "ai_suggestions" :: (k in a <==> k in b) && (k in a && k in b ==> a[k] == b[k])
  }

  ghost predicate DigestIsInjective<V(!new)>(c: Codec<V>) {
    forall x: string, y: string | c.digest(x) == c.digest(y) :: x == y
  }

  /** Nothing but an empty map is written as nothing, and different maps are written differently. */
  ghost predicate WholeIsInjective<V(!new)>(c: Codec<V>) {
    && (forall a: map<string, V>, b: map<string, V> | c.whole(a) == c.whole(b) :: a == b)
    && forall a: map<string, V> | a != map[] :: c.whole(a) != ""
  }

  /** What is hashed before the body. */
  function Written<V(!new)>(c: Codec<V>, n: Note<V>): string {
    var filtered := n.frontmatter - {"ai_suggestions"};
    if filtered == map[] then "" else c.whole(filtered)
  }

  lemma HashDecides<V(!new)>(c: Codec<V>, a: Note<V>, b: Note<V>)
    requires DigestIsInjective(c)
    ensures ContentHash(c, a) == ContentHash(c, b) <==> Written(c, a) + a.body == Written(c, b) + b.body
  {}

  lemma SameWritten<V(!new)>(c: Codec<V>, a: Note<V>, b: Note<V>)
    requires WholeIsInjective(c)
    ensures Written(c, a) == Written(c, b) <==> SameMeta(a.frontmatter, b.frontmatter)
  {
    var x, y := a.frontmatter - {"ai_suggestions"}, b.frontmatter - {"ai_suggestions"};
    assert x == y <==> SameMeta(a.frontmatter, b.frontmatter) by {
      SameMetaIff(a.frontmatter, b.frontmatter, "ai_suggestions");
    }
    hide SameMeta;
  }

  lemma SameMetaIff<V>(a: map<string, V>, b: map<string, V>, key: string)
    ensures a - {key} == b - {key} <==>
      forall k: string | k != key :: (k in a <==> k in b) && (k in a && k in b ==> a[k] == b[k])
  {
    if a - {key} == b - {key} {
      forall k: string | k != key ensures (k in a <==> k in b) && (k in a && k in b ==> a[k] == b[k]) {
        assert k in a <==> k in a - {key};
        assert k in b <==> k in b - {key};
      }
    }
  }

  /** With the same frontmatter, the hash changes exactly when the body does. */
  lemma HashFollowsBody<V(!new)>(c: Codec<V>, a: Note<V>, b: Note<V>)
    requires DigestIsInjective(c) && a.frontmatter == b.frontmatter
    ensures ContentHash(c, a) == ContentHash(c, b) <==> a.body == b.body
  {
    HashDecides(c, a, b);
    hide ContentHash;
    SameHead(Written(c, a), a.body, b.body);
  }

  lemma SameHead(head: string, x: string, y: string)
    ensures head + x == head + y <==> x == y
  {
    assert (head + x)[|head|..] == x && (head + y)[|head|..] == y;
  }

  lemma SameTail(x: string, y: string, tail: string, tail': string)
    requires |tail| == |tail'|
    ensures x + tail == y + tail' <==> x == y && tail == tail'
  {
    if x + tail == y + tail' {
      assert (x + tail)[..|x|] == x && (y + tail')[..|y|] == y;
      assert (x + tail)[|x|..] == tail && (y + tail')[|y|..] == tail';
    }
  }

  /**
   Two notes have the same content but for suggestions if and only if they have the same hash and bodies of
   the same length. So with the same body the hash changes exactly when a value other than ai_suggestions does.
   */
  lemma SameContentIff<V(!new)>(c: Codec<V>, a: Note<V>, b: Note<V>)
    requires DigestIsInjective(c) && WholeIsInjective(c)
    ensures a.body == b.body && SameMeta(a.frontmatter, b.frontmatter) <==>
      ContentHash(c, a) == ContentHash(c, b) && |a.body| == |b.body|
  {
    HashDecides(c, a, b);
    SameWritten(c, a, b);
    hide *;
    if |a.body| == |b.body| {
      SameTail(Written(c, a), Written(c, b), a.body, b.body);
    }
  }

  /** The length is needed: a note without frontmatter may spell out the YAML of another in its body. */
  lemma BodyImitatesYAML<V(!new)>(c: Codec<V>, n: Note<V>)
    requires WholeIsInjective(c) && !SameMeta(n.frontmatter, map[])
    ensures
      var plain := Note("", map[], Written(c, n) + n.body, []);
      ContentHash(c, plain) == ContentHash(c, n) && plain.body != n.body
  {
    SameWritten(c, n, Note("", map[], "", []));
    hide WholeIsInjective, SameMeta;
    var none: map<string, V> := map[];
    assert none - {"ai_suggestions"} == map[];
    assert Written(c, Note("", map[], "", [])) == "";
    assert "" + (Written(c, n) + n.body) == Written(c, n) + n.body;
  }
}

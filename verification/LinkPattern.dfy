/**
 The link pattern of internal/index/build.go told by positions: what a leftmost match is, that
 `Matches` takes one after the other, and what the target of a captured text is.
 */
module LinkPattern {
  import opened Wrappers
  import opened Strings
  import opened NoteEntries

  /** At i there are two opening brackets, then n > 0 characters other than ']', then two closing brackets. */
  predicate LinkAt(s: string, i: nat, n: nat) {
    && n > 0 && i + n + 4 <= |s|
    && s[i] == '[' && s[i + 1] == '['
    && (forall j | i + 2 <= j < i + n + 2 :: s[j] != ']')
    && s[i + n + 2] == ']' && s[i + n + 3] == ']'
  }

  ghost predicate NoLinkBefore(s: string, i: nat) {
    forall j: nat, m: nat | j < i :: !LinkAt(s, j, m)
  }

  lemma UntilIsLength(s: string, c: char, n: nat)
    requires n < |s| && s[n] == c && forall j | 0 <= j < n :: s[j] != c
    ensures Until(s, c) == n
  {
    AtIsIn(s[..Until(s, c)], n);
  }

  lemma MatchAtStart(s: string, n: nat)
    requires LinkAt(s, 0, n)
    ensures Matches(s) == [s[2..n + 2]] + Matches(s[n + 4..])
  {
    UntilIsLength(s[2..], ']', n);
    assert s[..2] == "[[";
    hide Until;
    MatchAt(s, n);
  }

  lemma NoMatchAtStart(s: string)
    requires s != "" && NoLinkBefore(s, 1)
    ensures Matches(s) == Matches(s[1..])
  {
    if |s| >= 2 && s[..2] == "[[" {
      assert s[0] == s[..2][0] && s[1] == s[..2][1];
      var n := Until(s[2..], ']');
      assert !LinkAt(s, 0, n);
      assert forall j | 2 <= j < n + 2 :: s[j] == s[2..][..n][j - 2] && s[j] in s[2..][..n];
      assert n < |s[2..]| ==> s[n + 2] == ']';
    }
  }

  lemma ShiftedLink(s: string, i: nat, n: nat)
    requires s != ""
    ensures LinkAt(s[1..], i, n) <==> LinkAt(s, i + 1, n)
  {
    var t := s[1..];
    assert LinkAt(t, i, n) ==> forall j | i + 3 <= j < i + n + 3 :: t[j - 1] == s[j];
  }

  /** The leftmost link comes first, and the search goes on behind it. */
  lemma {:induction false} FirstLink(s: string, i: nat, n: nat)
    requires LinkAt(s, i, n) && NoLinkBefore(s, i)
    ensures Matches(s) == [s[i + 2..i + n + 2]] + Matches(s[i + n + 4..])
    decreases i
  {
    if i == 0 {
      MatchAtStart(s, n);
    } else {
      NoMatchAtStart(s);
      ShiftedLink(s, i - 1, n);
      forall j: nat, m: nat | j < i - 1 ensures !LinkAt(s[1..], j, m) {
        ShiftedLink(s, j, m);
      }
      FirstLink(s[1..], i - 1, n);
      assert s[1..][i - 1 + 2..i - 1 + n + 2] == s[i + 2..i + n + 2] && s[1..][i - 1 + n + 4..] == s[i + n + 4..];
    }
  }

  /** Text without a link has no matches. */
  lemma {:induction false} NoLinks(s: string)
    requires NoLinkBefore(s, |s|)
    ensures Matches(s) == []
  {
    if |s| >= 2 {
      NoMatchAtStart(s);
      forall j: nat, m: nat | j < |s| - 1 ensures !LinkAt(s[1..], j, m) {
        ShiftedLink(s, j, m);
      }
      NoLinks(s[1..]);
    }
  }

  /** The target is what comes before the first '|', or all of it, without the white space around it. */
  lemma TargetIs(left: string, target: string, right: string, alias: string)
    requires Blank(left) && Blank(right) && '|' !in target
    requires target != "" ==> !IsSpace(target[0]) && !IsSpace(target[|target| - 1])
    ensures TargetOf(left + (target + right)) == target
    ensures TargetOf((left + (target + right)) + ("|" + alias)) == target
  {
    var text := left + (target + right);
    assert !IsSpace('|');
    assert '|' !in text;
    TrimIs(left, target, right);
    hide TrimSpace, Blank, IsSpace;
    UntilIs(text, '|', alias);
    assert (text + ("|" + alias))[..|text|] == text;
    var n := Until(text, '|');
    assert text[..n] == text;
  }
}

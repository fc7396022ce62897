/**
 splitUpDown of internal/store/migrations.go: the down block of a migration file and what counts as its up
 script. The comment there calls everything outside the block up script; the code takes only what follows it.
 */
module MigrationFiles {
  import opened Wrappers
  import opened Strings

  const DOWN_START := "-- down:"
  const DOWN_END := "-- /down"

  predicate OccursAt(s: string, sub: string, i: nat) {
    i + |sub| <= |s| && s[i..i + |sub|] == sub
  }

  /** strings.Index: where `sub` first occurs in s. */
  function Index(s: string, sub: string): (r: Option<nat>)
    ensures r.Some? ==> OccursAt(s, sub, r.value)
    ensures forall i: nat | OccursAt(s, sub, i) :: r.Some? && r.value <= i
  {
    if |s| < |sub| then None
    else if OccursAt(s, sub, 0) then Some(0)
    else
      OccursBehind(s, sub);
      match Index(s[1..], sub)
      case None => None
      case Some(i) => Some(i + 1)
  }

  lemma OccursBehind(s: string, sub: string)
    requires |s| >= |sub| && !OccursAt(s, sub, 0)
    ensures s != ""
    ensures forall i: nat :: OccursAt(s[1..], sub, i) <==> OccursAt(s, sub, i + 1)
    ensures forall i: nat | OccursAt(s, sub, i) :: i > 0 && OccursAt(s[1..], sub, i - 1)
  {
    assert s != "" by {
      assert s[..0] == "";
    }
    forall i: nat ensures OccursAt(s[1..], sub, i) <==> OccursAt(s, sub, i + 1) {
      SameSlice(s, i, |sub|);
    }
    forall i: nat | OccursAt(s, sub, i) ensures i > 0 && OccursAt(s[1..], sub, i - 1) {
      if i > 0 {
        SameSlice(s, i - 1, |sub|);
      }
    }
  }

  lemma SameSlice(s: string, i: nat, n: nat)
    requires s != ""
    ensures i + 1 + n <= |s| ==> s[1..][i..i + n] == s[i + 1..i + 1 + n]
  {}

  datatype Scripts = Scripts(up: string, down: string)

  /** None where Go panics: the end marker comes first, so the slice between the markers has no meaning. */
  function SplitAround(content: string, start: string, stop: string): Option<Scripts> {
    match Index(content, start)
    case None => Some(Scripts(TrimSpace(content), ""))
    case Some(begin) =>
      match Index(content, stop)
      case None => Some(Scripts(TrimSpace(content), ""))
      case Some(end) =>
        if end < begin + |start| then None
        else Some(Scripts(TrimSpace(content[end + |stop|..]), TrimSpace(content[begin + |start|..end])))
  }

  function SplitUpDown(content: string): Option<Scripts> {
    SplitAround(content, DOWN_START, DOWN_END)
  }

  function Around(before: string, start: string, down: string, stop: string, after: string): string {
    before + (start + (down + (stop + after)))
  }

  function File(before: string, down: string, after: string): string {
    Around(before, DOWN_START, down, DOWN_END, after)
  }

  /**
   A file made of a text before the block, the block and a text after it, each marker first occurring at its
   place.
   */
  predicate HasBlock(before: string, down: string, after: string) {
    && Index(File(before, down, after), DOWN_START) == Some(|before|)
    && Index(File(before, down, after), DOWN_END) == Some(|before| + |DOWN_START| + |down|)
  }

  lemma Slices(a: string, b: string, c: string, d: string, e: string)
    ensures
      var s, n := Around(a, b, c, d, e), |a| + |b| + |c|;
      |s| == n + |d| + |e| && s[|a| + |b|..n] == c && s[n + |d|..] == e
  {
    assert a + (b + (c + (d + e))) == (a + b) + (c + (d + e));
    assert a + (b + (c + (d + e))) == ((a + b) + (c + d)) + e;
  }

  lemma SplitsAround(before: string, start: string, down: string, stop: string, after: string)
    requires Index(Around(before, start, down, stop, after), start) == Some(|before|)
    requires Index(Around(before, start, down, stop, after), stop) == Some(|before| + |start| + |down|)
    ensures SplitAround(Around(before, start, down, stop, after), start, stop) ==
      Some(Scripts(TrimSpace(after), TrimSpace(down)))
  {
    hide Index, TrimSpace;
    Slices(before, start, down, stop, after);
    hide Around;
  }

  /** Whatever comes before the block is dropped. */
  lemma BlockIsSplit(before: string, down: string, after: string)
    requires HasBlock(before, down, after)
    ensures SplitUpDown(File(before, down, after)) == Some(Scripts(TrimSpace(after), TrimSpace(down)))
  {
    hide Index, TrimSpace, Around, SplitAround;
    SplitsAround(before, DOWN_START, down, DOWN_END, after);
  }

  /**
   So everything outside the block is the up script, as the comment has it, if and only if only white space
   comes before the block.
   */
  lemma AllOutsideIsUpIff(before: string, down: string, after: string)
    requires HasBlock(before, down, after)
    ensures SplitUpDown(File(before, down, after)).value.up == TrimSpace(before + after)
      <==> forall c | c in before :: IsSpace(c)
  {
    BlockIsSplit(before, down, after);
    if forall c | c in before :: IsSpace(c) {
      TrimDropsBlank(before, after);
    } else {
      TrimKeepsMore(before, after);
    }
  }

  lemma {:induction false} TrimDropsBlank(before: string, after: string)
    requires forall c | c in before :: IsSpace(c)
    ensures TrimSpace(before + after) == TrimSpace(after)
  {
    if before == "" {
      assert before + after == after;
    } else {
      assert (before + after)[0] == before[0] && (before + after)[1..] == before[1..] + after;
      TrimDropsBlank(before[1..], after);
    }
  }

  /** How many characters of s are not white space. */
  function Inked(s: string): nat {
    if s == "" then 0 else (if IsSpace(s[0]) then 0 else 1) + Inked(s[1..])
  }

  lemma {:induction false} InkedAppend(a: string, b: string)
    ensures Inked(a + b) == Inked(a) + Inked(b)
  {
    if a == "" {
      assert a + b == b;
    } else {
      assert (a + b)[0] == a[0] && (a + b)[1..] == a[1..] + b;
      InkedAppend(a[1..], b);
    }
  }

  lemma {:induction false} TrimKeepsInk(s: string)
    ensures Inked(TrimSpace(s)) == Inked(s)
    decreases |s|
  {
    if s != "" && IsSpace(s[0]) {
      TrimKeepsInk(s[1..]);
    } else if s != "" && IsSpace(s[|s| - 1]) {
      var init, last := s[..|s| - 1], s[|s| - 1..];
      assert s == init + last;
      InkedAppend(init, last);
      assert last[1..] == "";
      TrimKeepsInk(init);
    }
  }

  lemma {:induction false} HasInk(s: string, i: nat)
    requires i < |s| && !IsSpace(s[i])
    ensures Inked(s) > 0
  {
    if i > 0 {
      HasInk(s[1..], i - 1);
    }
  }

  lemma TrimKeepsMore(before: string, after: string)
    requires exists c :: c in before && !IsSpace(c)
    ensures TrimSpace(before + after) != TrimSpace(after)
  {
    var i :| 0 <= i < |before| && !IsSpace(before[i]);
    HasInk(before, i);
    InkedAppend(before, after);
    TrimKeepsInk(before + after);
    TrimKeepsInk(after);
  }

  /** The first occurrence, told by one character that has not come before. */
  lemma FirstBy(s: string, sub: string, n: nat, j: nat)
    requires OccursAt(s, sub, n) && j < |sub| && forall i | j <= i < n + j :: s[i] != sub[j]
    ensures Index(s, sub) == Some(n)
  {
    forall i: nat | OccursAt(s, sub, i) ensures i >= n {
      assert s[i..i + |sub|][j] == s[i + j];
    }
  }

  const TEXT_FIRST := "x-- down:-- /down"

  lemma TextFirstIsFile()
    ensures File("x", "", "") == TEXT_FIRST
    ensures TEXT_FIRST[1..9] == DOWN_START && TEXT_FIRST[9..17] == DOWN_END
  {
    assert DOWN_START + ("" + (DOWN_END + "")) == "-- down:-- /down";
  }

  /** A file that starts with another text, which is dropped. */
  lemma TextBeforeIsDropped()
    ensures HasBlock("x", "", "") && SplitUpDown(File("x", "", "")) == Some(Scripts("", ""))
    ensures TrimSpace("x" + "") != ""
  {
    TextFirstIsFile();
    hide Index, TrimSpace, File;
    FirstBy(TEXT_FIRST, DOWN_START, 1, 0);
    FirstBy(TEXT_FIRST, DOWN_END, 9, 3);
    BlockIsSplit("x", "", "");
    TrimOfX();
  }

  lemma TrimOfX()
    ensures TrimSpace("x" + "") != "" && TrimSpace("") == ""
  {
    assert "x" + "" == "x" && "x"[0] in "x" && !IsSpace("x"[0]);
  }

  /* ---------- the markers, spelled out ---------- */

  ghost predicate Nowhere(s: string, sub: string) {
    forall i: nat :: !OccursAt(s, sub, i)
  }

  ghost predicate FirstAt(s: string, sub: string, i: nat) {
    OccursAt(s, sub, i) && forall j: nat | j < i :: !OccursAt(s, sub, j)
  }

  lemma IndexIs(s: string, sub: string)
    ensures Index(s, sub).None? <==> Nowhere(s, sub)
    ensures forall i: nat | FirstAt(s, sub, i) :: Index(s, sub) == Some(i)
  {
    hide OccursAt;
  }

  /** A file that lacks one of the markers is up script altogether. */
  lemma NoBlockIsAllUp(content: string)
    requires Nowhere(content, "-- down:") || Nowhere(content, "-- /down")
    ensures SplitUpDown(content) == Some(Scripts(TrimSpace(content), ""))
  {
    IndexIs(content, "-- down:");
    IndexIs(content, "-- /down");
    hide Index, TrimSpace, Nowhere, FirstAt;
  }

  /** Otherwise the first markers decide; the code panics if the end marker comes before the end of the other. */
  lemma MarkersDecide(content: string, begin: nat, end: nat)
    requires FirstAt(content, "-- down:", begin) && FirstAt(content, "-- /down", end)
    ensures SplitUpDown(content) ==
      if end < begin + 8 then None
      else Some(Scripts(TrimSpace(content[end + 8..]), TrimSpace(content[begin + 8..end])))
  {
    IndexIs(content, "-- down:");
    IndexIs(content, "-- /down");
    hide Index, TrimSpace, Nowhere, FirstAt;
    assert |"-- down:"| == 8 && |"-- /down"| == 8;
  }

  lemma BlockShape(down: string, up: string)
    ensures
      var file, n := "-- down:" + (down + ("-- /down" + up)), 8 + |down|;
      && OccursAt(file, "-- down:", 0) && OccursAt(file, "-- /down", n)
      && file[8..n] == down && file[n + 8..] == up
  {
    var file := "-- down:" + (down + ("-- /down" + up));
    assert file == ("-- down:" + down) + ("-- /down" + up);
    assert file == (("-- down:" + down) + "-- /down") + up;
  }

  /** Such a file as the ten shipped ones are: a block without a comment, then the up script, whatever it is. */
  lemma BlockFirst(down: string, up: string)
    requires '-' !in down
    ensures SplitUpDown("-- down:" + (down + ("-- /down" + up))) == Some(Scripts(TrimSpace(up), TrimSpace(down)))
  {
    var file, n := "-- down:" + (down + ("-- /down" + up)), 8 + |down|;
    BlockShape(down, up);
    forall j: nat | OccursAt(file, "-- /down", j) ensures j >= n {
      EndMarkerIsLate(file, down, up, j);
    }
    hide *;
    FirstAtStart(file, "-- down:");
    LeastIsFirst(file, "-- /down", n);
    MarkersDecide(file, 0, n);
  }

  lemma FirstAtStart(s: string, sub: string)
    requires OccursAt(s, sub, 0)
    ensures FirstAt(s, sub, 0)
  {}

  lemma LeastIsFirst(s: string, sub: string, n: nat)
    requires OccursAt(s, sub, n) && forall j: nat | OccursAt(s, sub, j) :: j >= n
    ensures FirstAt(s, sub, n)
  {}

  lemma EndMarkerIsLate(file: string, down: string, up: string, j: nat)
    requires '-' !in down && file == "-- down:" + (down + ("-- /down" + up)) && OccursAt(file, "-- /down", j)
    ensures j >= 8 + |down|
  {
    var slice := file[j..j + 8];
    assert slice[0] == file[j] && slice[1] == file[j + 1] && slice[3] == file[j + 3];
    assert forall i | 8 <= i < 8 + |down| :: file[i] == down[i - 8] && down[i - 8] in down;
    assert forall i | 0 <= i < 8 :: file[i] == "-- down:"[i];
  }
}

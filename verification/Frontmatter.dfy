/** splitFrontmatter of internal/notes/notes.go: the first two lines that are exactly "---". */
module Frontmatter {
  import opened Wrappers
  import opened Text

  const FENCE := "---"
  const FENCE_LINE := "---\n"

  datatype Parts = Parts(pre: string, yaml: string, body: string)

  /** The index of the first fence. */
  function FirstFence(lines: seq<string>): (r: Option<nat>)
    ensures r.Some? ==> r.value < |lines| && lines[r.value] == FENCE && FENCE !in lines[..r.value]
    ensures r.None? ==> FENCE !in lines
  {
    if lines == [] then None
    else if lines[0] == FENCE then Some(0)
    else
      match FirstFence(lines[1..])
      case None => None
      case Some(i) =>
        assert lines[..i + 1] == [lines[0]] + lines[1..][..i];
        Some(i + 1)
  }

  function Split(data: string): Option<Parts> {
    var lines := Scan(data);
    match FirstFence(lines)
    case None => None
    case Some(open) =>
      var tail := lines[open + 1..];
      match FirstFence(tail)
      case None => None
      case Some(close) => Some(Parts(Unlines(lines[..open]), Unlines(tail[..close]), Unlines(tail[close + 1..])))
  }

  /** The file the three parts make up. */
  function Reassemble(p: Parts): string {
    p.pre + (FENCE_LINE + (p.yaml + (FENCE_LINE + p.body)))
  }

  lemma UnlinesFence(lines: seq<string>, i: nat)
    requires i < |lines| && lines[i] == FENCE
    ensures Unlines(lines) == Unlines(lines[..i]) + (FENCE_LINE + Unlines(lines[i + 1..]))
  {
    assert lines == lines[..i] + lines[i..] && lines[i..][1..] == lines[i + 1..];
    UnlinesAppend(lines[..i], lines[i..]);
    assert FENCE + "\n" == FENCE_LINE;
  }

  /**
   The split is exact. When all lines fit the scanner, the parts and the two fences make up the input
   with one '\r' dropped from each line end and a final newline added if missing. When a
   line does not fit, everything from it on is lost: they make up a proper prefix.
   */
  lemma SplitIsExact(data: string)
    requires Split(data).Some?
    ensures Fits(data) ==> Reassemble(Split(data).value) == Norm(data)
    ensures !Fits(data) ==> Reassemble(Split(data).value) < Norm(data)
  {
    var lines := Scan(data);
    var open := FirstFence(lines).value;
    var close := FirstFence(lines[open + 1..]).value;
    UnlinesScan(data);
    hide Scan, Norm, Fits, Unlines, FirstFence;
    PartsMakeUpLines(lines, open, lines[open + 1..], close);
  }

  lemma PartsMakeUpLines(lines: seq<string>, open: nat, tail: seq<string>, close: nat)
    requires open < |lines| && lines[open] == FENCE && tail == lines[open + 1..]
    requires close < |tail| && tail[close] == FENCE
    ensures Reassemble(Parts(Unlines(lines[..open]), Unlines(tail[..close]), Unlines(tail[close + 1..]))) ==
      Unlines(lines)
  {
    UnlinesFence(lines, open);
    UnlinesFence(tail, close);
  }

  /** Only the first two fences matter: whatever holds them in these places is split there. */
  lemma SplitAtFences(data: string, a: seq<string>, tail: seq<string>, b: seq<string>, c: seq<string>)
    requires Scan(data) == a + ([FENCE] + tail) && tail == b + ([FENCE] + c)
    requires FENCE !in a && FENCE !in b
    ensures Split(data) == Some(Parts(Unlines(a), Unlines(b), Unlines(c)))
  {
    hide Scan, Unlines, FirstFence;
    CutAtFence(Scan(data), a, tail);
    CutAtFence(tail, b, c);
  }

  lemma CutAtFence(lines: seq<string>, a: seq<string>, rest: seq<string>)
    requires lines == a + ([FENCE] + rest) && FENCE !in a
    ensures FirstFence(lines) == Some(|a|) && lines[..|a|] == a && lines[|a| + 1..] == rest
  {
    assert lines[|a|] == FENCE;
    match FirstFence(lines)
    case Some(k) =>
      AtIsIn(a, k);
      AtIsIn(lines[..k], |a|);
  }

  lemma ScanFence(rest: string)
    ensures Scan(FENCE_LINE + rest) == [FENCE] + Scan(rest)
    ensures Fits(FENCE_LINE + rest) <==> Fits(rest)
  {
    assert LineEnd(FENCE_LINE) == 3 by {
      assert FENCE_LINE[1..] == "--\n" && "--\n"[1..] == "-\n" && "-\n"[1..] == "\n";
    }
    assert Rest(FENCE_LINE) == "" && FENCE_LINE[..3] == FENCE;
    ScanAppend(FENCE_LINE, rest);
    FitsAppend(FENCE_LINE, rest);
  }

  /** A body of one line that does not fit the scanner is lost, and nothing says so. */
  lemma OverlongBodyIsLost(line: string)
    requires '\n' !in line && |line| > MAX_LINE
    ensures Split(FENCE_LINE + (FENCE_LINE + line)) == Some(Parts("", "", ""))
  {
    assert line != "" && (forall i | 0 <= i < |line| :: line[i] in line);
    assert LineEnd(line) == |line| && Scan(line) == [];
    hide Scan, LineEnd;
    ScanFence(line);
    ScanFence(FENCE_LINE + line);
    assert [] + ([FENCE] + ([FENCE] + [])) == [FENCE] + ([FENCE] + []) && [] + ([FENCE] + []) == [FENCE] + [];
    SplitAtFences(FENCE_LINE + (FENCE_LINE + line), [], [FENCE] + [], [], []);
  }

  /** There are such lines. */
  lemma OverlongLineExists()
    ensures exists line: string :: '\n' !in line && |line| > MAX_LINE
  {
    var line: string := seq(MAX_LINE + 1, _ => 'x');
    assert '\n' !in line;
  }

  function CountFences(lines: seq<string>): nat {
    if lines == [] then 0 else (if lines[0] == FENCE then 1 else 0) + CountFences(lines[1..])
  }

  lemma {:induction false} FirstFenceCounts(lines: seq<string>)
    ensures FirstFence(lines).None? <==> CountFences(lines) == 0
    ensures FirstFence(lines).Some? ==> CountFences(lines) == 1 + CountFences(lines[FirstFence(lines).value + 1..])
  {
    if lines != [] && lines[0] != FENCE {
      FirstFenceCounts(lines[1..]);
    }
  }

  /** There is nothing to split exactly when the scanned lines hold fewer than two fences. */
  lemma NoSplitIffFewFences(data: string)
    ensures Split(data).None? <==> CountFences(Scan(data)) < 2
  {
    var lines := Scan(data);
    FirstFenceCounts(lines);
    match FirstFence(lines)
    case None =>
    case Some(open) => FirstFenceCounts(lines[open + 1..]);
  }

  /* ---------- the Go loops ---------- */

  /** strings.Join(lines, "\n") */
  function Join(lines: seq<string>): string {
    if lines == [] then "" else if |lines| == 1 then lines[0] else lines[0] + "\n" + Join(lines[1..])
  }

  /** The newline splitFrontmatter adds back is the one Join leaves out. */
  lemma {:induction false} JoinPlusNewline(lines: seq<string>)
    ensures Unlines(lines) == if lines == [] then "" else Join(lines) + "\n"
  {
    if |lines| > 1 {
      JoinPlusNewline(lines[1..]);
    }
  }

  method ReadLines(data: string) returns (lines: seq<string>)
    ensures lines == Scan(data)
  {
    lines := [];
    var rest := data;
    while rest != "" && LineEnd(rest) <= MAX_LINE
      invariant lines + Scan(rest) == Scan(data)
      decreases |rest|
    {
      ScanStep(rest);
      Regroup(lines, [DropCR(rest[..LineEnd(rest)])], Scan(Rest(rest)));
      lines := lines + [DropCR(rest[..LineEnd(rest)])];
      rest := Rest(rest);
    }
  }

  method FindFence(lines: seq<string>, start: nat) returns (index: int)
    requires start <= |lines|
    ensures index == match FirstFence(lines[start..]) case None => -1 case Some(i) => start + i
  {
    index := -1;
    var i := start;
    while i < |lines|
      invariant start <= i <= |lines| && index == -1
      invariant FENCE !in lines[start..i]
    {
      if lines[i] == FENCE {
        assert lines[start..] == lines[start..i] + ([FENCE] + lines[i + 1..]);
        CutAtFence(lines[start..], lines[start..i], lines[i + 1..]);
        return i;
      }
      i := i + 1;
    }
    assert lines[start..i] == lines[start..];
  }

  /** The lines of one part joined, with the newline of the last line put back. */
  method JoinPart(lines: seq<string>) returns (part: string)
    ensures part == Unlines(lines)
  {
    JoinPlusNewline(lines);
    part := Join(lines);
    if |lines| > 0 {
      part := part + "\n";
    }
  }

  method SplitFrontmatter(data: string) returns (pre: string, yaml: string, body: string, ok: bool)
    ensures ok <==> Split(data).Some?
    ensures ok ==> Split(data) == Some(Parts(pre, yaml, body))
    ensures !ok ==> pre == yaml == body == ""
  {
    hide Scan, Unlines, FirstFence;
    var lines := ReadLines(data);
    assert lines[0..] == lines;
    var open := FindFence(lines, 0);
    if open == -1 {
      return "", "", "", false;
    }
    var close := FindFence(lines, open + 1);
    if close == -1 {
      return "", "", "", false;
    }
    ghost var tail := lines[open + 1..];
    assert lines[open + 1..close] == tail[..close - open - 1] && lines[close + 1..] == tail[close - open..];
    pre := JoinPart(lines[..open]);
    yaml := JoinPart(lines[open + 1..close]);
    body := JoinPart(lines[close + 1..]);
    ok := true;
  }
}

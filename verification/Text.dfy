/**
 Lines of a file as bufio.Scanner delivers them to splitFrontmatter: cut at '\n', one
 '\r' dropped from the end of each, and nothing more from the first line that does not
 fit the scanner's 64 KiB buffer. A char stands for a byte.
 */
module Text {
  /** bufio.MaxScanTokenSize less the byte the newline, or the read at the end of file, needs. */
  const MAX_LINE := 65535

  /** The length of the first line. */
  function LineEnd(s: string): (k: nat)
    ensures k <= |s|
    ensures forall i | 0 <= i < k :: s[i] != '\n'
    ensures k < |s| ==> s[k] == '\n'
  {
    if s == "" || s[0] == '\n' then 0 else 1 + LineEnd(s[1..])
  }

  function DropCR(line: string): string {
    if line != "" && line[|line| - 1] == '\r' then line[..|line| - 1] else line
  }

  /** Everything after the first line. */
  function Rest(s: string): (r: string)
    ensures s != "" ==> |r| < |s|
  {
    if LineEnd(s) < |s| then s[LineEnd(s) + 1..] else ""
  }

  /** All lines the scanner yields; it stops without notice at a line that is too long. */
  function Scan(s: string): seq<string>
    decreases |s|
  {
    if s == "" || LineEnd(s) > MAX_LINE then [] else [DropCR(s[..LineEnd(s)])] + Scan(Rest(s))
  }

  /** Every line fits the scanner's buffer. */
  predicate Fits(s: string)
    decreases |s|
  {
    s == "" || (LineEnd(s) <= MAX_LINE && Fits(Rest(s)))
  }

  function Unlines(lines: seq<string>): string {
    if lines == [] then "" else lines[0] + "\n" + Unlines(lines[1..])
  }

  /** The text with each '\r' before a newline or the end dropped, and a final newline added if missing. */
  function Norm(s: string): string {
    if s == "" then ""
    else if s[0] == '\r' && (|s| == 1 || s[1] == '\n') then if |s| == 1 then "\n" else Norm(s[1..])
    else if |s| == 1 then if s == "\n" then s else s + "\n"
    else [s[0]] + Norm(s[1..])
  }

  /** Text made of whole lines, none of them ending in '\r'. */
  predicate Clean(s: string) {
    Norm(s) == s
  }

  /* ---------- scanning and rejoining normalises ---------- */

  lemma DropCRCons(c: char, tail: string)
    requires tail != "" || c != '\r'
    ensures DropCR([c] + tail) == [c] + DropCR(tail)
  {
    if tail != "" {
      assert ([c] + tail)[..|tail|] == [c] + tail[..|tail| - 1];
    }
  }

  /** The first line and the rest, seen from the second character on. */
  lemma SkipOne(s: string)
    requires |s| > 1 && s[0] != '\n'
    ensures LineEnd(s) == LineEnd(s[1..]) + 1
    ensures s[..LineEnd(s)] == [s[0]] + s[1..][..LineEnd(s[1..])]
    ensures Rest(s) == Rest(s[1..])
  {}

  lemma {:induction false} NormFirstLine(s: string)
    requires s != ""
    ensures Norm(s) == DropCR(s[..LineEnd(s)]) + "\n" + Norm(Rest(s))
    decreases |s|
  {
    if |s| == 1 {
      NormOneChar(s);
    } else if s[0] != '\n' {
      SkipOne(s);
      NormFirstLine(s[1..]);
      if s[0] != '\r' || s[1] != '\n' {
        var tail := s[1..][..LineEnd(s[1..])];
        DropCRCons(s[0], tail);
        assert ([s[0]] + DropCR(tail)) + "\n" + Norm(Rest(s)) == [s[0]] + (DropCR(tail) + "\n" + Norm(Rest(s)));
      }
    }
  }

  lemma NormOneChar(s: string)
    requires |s| == 1
    ensures Norm(s) == DropCR(s[..LineEnd(s)]) + "\n" + Norm(Rest(s))
  {
    assert s == [s[0]];
    if s[0] != '\n' {
      assert LineEnd(s) == 1 && s[..1] == s;
    }
  }

  lemma {:induction false} UnlinesScan(s: string)
    ensures Fits(s) ==> Unlines(Scan(s)) == Norm(s)
    ensures !Fits(s) ==> Unlines(Scan(s)) < Norm(s)
    decreases |s|
  {
    if s != "" {
      NormFirstLine(s);
      if LineEnd(s) <= MAX_LINE {
        UnlinesScan(Rest(s));
        var line := DropCR(s[..LineEnd(s)]);
        assert Scan(s)[1..] == Scan(Rest(s));
        if !Fits(s) {
          PrefixBehind(line + "\n", Unlines(Scan(Rest(s))), Norm(Rest(s)));
        }
      }
    }
  }

  lemma PrefixBehind(a: string, b: string, c: string)
    requires b < c
    ensures a + b < a + c
  {}

  /* ---------- scanning a concatenation ---------- */

  predicate EndsInNewline(s: string) {
    s == "" || s[|s| - 1] == '\n'
  }

  lemma {:induction false} LineEndOfAppend(a: string, b: string)
    requires a != "" && EndsInNewline(a)
    ensures LineEnd(a + b) == LineEnd(a) < |a|
    decreases |a|
  {
    if a[0] != '\n' {
      assert (a + b)[1..] == a[1..] + b;
      LineEndOfAppend(a[1..], b);
    }
  }

  lemma FirstLineOfAppend(a: string, b: string)
    requires a != "" && EndsInNewline(a)
    ensures LineEnd(a + b) == LineEnd(a)
    ensures (a + b)[..LineEnd(a)] == a[..LineEnd(a)]
    ensures Rest(a + b) == Rest(a) + b && EndsInNewline(Rest(a))
  {
    LineEndOfAppend(a, b);
    assert (a + b)[LineEnd(a) + 1..] == a[LineEnd(a) + 1..] + b;
  }

  lemma {:induction false} FitsAppend(a: string, b: string)
    requires EndsInNewline(a)
    ensures Fits(a + b) <==> Fits(a) && Fits(b)
    decreases |a|
  {
    if a == "" {
      assert a + b == b;
    } else {
      FirstLineOfAppend(a, b);
      FitsAppend(Rest(a), b);
    }
  }

  lemma {:induction false} ScanAppend(a: string, b: string)
    requires EndsInNewline(a) && Fits(a)
    ensures Scan(a + b) == Scan(a) + Scan(b)
    decreases |a|
  {
    if a == "" {
      assert a + b == b && [] + Scan(b) == Scan(b);
    } else {
      FirstLineOfAppend(a, b);
      ScanAppend(Rest(a), b);
      Regroup([DropCR(a[..LineEnd(a)])], Scan(Rest(a)), Scan(b));
    }
  }

  lemma Regroup(a: seq<string>, b: seq<string>, c: seq<string>)
    ensures (a + b) + c == a + (b + c)
  {}

  /** The scanner never gets past a line that is too long. */
  lemma {:induction false} ScanOverlong(a: string, b: string)
    requires EndsInNewline(a) && !Fits(a)
    ensures Scan(a + b) == Scan(a)
    decreases |a|
  {
    FirstLineOfAppend(a, b);
    if LineEnd(a) <= MAX_LINE {
      ScanOverlong(Rest(a), b);
    }
  }

  lemma ScanStep(s: string)
    requires s != ""
    ensures Scan(s) == if LineEnd(s) > MAX_LINE then [] else [DropCR(s[..LineEnd(s)])] + Scan(Rest(s))
    ensures Fits(s) <==> LineEnd(s) <= MAX_LINE && Fits(Rest(s))
    ensures |Rest(s)| < |s|
  {}

  lemma {:induction false} CleanEndsInNewline(s: string)
    ensures EndsInNewline(Norm(s)) && |Norm(s)| <= |s| + 1
    ensures s != "" ==> Norm(s) != ""
    decreases |s|
  {
    if |s| > 1 {
      CleanEndsInNewline(s[1..]);
    }
  }

  lemma {:induction false} NormAppend(a: string, b: string)
    requires EndsInNewline(a)
    ensures Norm(a + b) == Norm(a) + Norm(b)
    decreases |a|
  {
    if a == "" {
      assert a + b == b;
    } else if |a| == 1 {
      assert (a + b)[1..] == b;
      assert a + b == "" + a + b;
    } else {
      assert (a + b)[1..] == a[1..] + b;
      NormAppend(a[1..], b);
    }
  }

  /** Clean text is empty or ends in a newline, and has no '\r' before one. */
  lemma {:induction false} CleanIff(s: string)
    ensures Clean(s) <==> EndsInNewline(s) && forall i | 0 <= i < |s| - 1 :: !(s[i] == '\r' && s[i + 1] == '\n')
    decreases |s|
  {
    if |s| == 1 {
      assert Norm(s)[|Norm(s)| - 1] == '\n';
    } else if |s| > 1 {
      if s[0] == '\r' && s[1] == '\n' {
        StartsAlike(s[1..]);
      } else {
        assert Norm(s) == [s[0]] + Norm(s[1..]) && s == [s[0]] + s[1..];
        SameHeads(s[0], Norm(s[1..]), s[1..]);
        CleanIff(s[1..]);
        assert (forall i | 0 <= i < |s| - 1 :: !(s[i] == '\r' && s[i + 1] == '\n')) <==>
          forall i | 0 <= i < |s[1..]| - 1 :: !(s[1..][i] == '\r' && s[1..][i + 1] == '\n') by {
          ShiftPairs(s);
        }
      }
    }
  }

  lemma StartsAlike(s: string)
    requires s != "" && s[0] == '\n'
    ensures Norm(s) != "" && Norm(s)[0] == '\n'
  {}

  lemma SameHeads(c: char, a: string, b: string)
    ensures [c] + a == [c] + b <==> a == b
  {
    assert ([c] + a)[1..] == a && ([c] + b)[1..] == b;
  }

  lemma ShiftPairs(s: string)
    requires |s| > 1 && !(s[0] == '\r' && s[1] == '\n')
    ensures (forall i | 0 <= i < |s| - 1 :: !(s[i] == '\r' && s[i + 1] == '\n')) <==>
      forall i | 0 <= i < |s[1..]| - 1 :: !(s[1..][i] == '\r' && s[1..][i + 1] == '\n')
  {
    var t := s[1..];
    if forall i | 0 <= i < |t| - 1 :: !(t[i] == '\r' && t[i + 1] == '\n') {
      forall i | 0 <= i < |s| - 1 ensures !(s[i] == '\r' && s[i + 1] == '\n') {
        if i > 0 {
          assert s[i] == t[i - 1] && s[i + 1] == t[i];
        }
      }
    }
  }

  lemma CleanAppend(a: string, b: string)
    requires Clean(a) && Clean(b)
    ensures Clean(a + b)
  {
    CleanEndsInNewline(a);
    NormAppend(a, b);
  }

  /** A line that can stand on its own; it may still end in a '\r' of its own. */
  predicate IsLine(line: string) {
    |line| <= MAX_LINE && '\n' !in line
  }

  lemma {:induction false} LineEndOfLine(line: string, tail: string)
    requires '\n' !in line
    ensures LineEnd(line + "\n" + tail) == |line|
  {
    var s := line + "\n" + tail;
    if line != "" {
      assert s[1..] == line[1..] + "\n" + tail;
      assert s[0] == line[0] && line[0] in line;
      LineEndOfLine(line[1..], tail);
    }
  }

  /** Rejoined lines scan to as many lines, each without one trailing '\r'. */
  lemma {:induction false} ScanUnlines(lines: seq<string>)
    requires forall l | l in lines :: IsLine(l)
    ensures Fits(Unlines(lines)) && EndsInNewline(Unlines(lines))
    ensures |Scan(Unlines(lines))| == |lines|
    ensures forall i | 0 <= i < |lines| :: Scan(Unlines(lines))[i] == DropCR(lines[i])
  {
    if lines != [] {
      var line, tail := lines[0], Unlines(lines[1..]);
      assert IsLine(line);
      ScanUnlines(lines[1..]);
      LineEndOfLine(line, tail);
      var s := line + "\n" + tail;
      assert s[..|line|] == line && Rest(s) == tail;
      ScanStep(s);
      hide Scan, Fits, LineEnd, Rest, DropCR;
    }
  }

  lemma {:induction false} ScannedAreLines(s: string)
    ensures forall l | l in Scan(s) :: IsLine(l)
    decreases |s|
  {
    if s != "" && LineEnd(s) <= MAX_LINE {
      ScannedAreLines(Rest(s));
      assert forall i | 0 <= i < LineEnd(s) :: s[..LineEnd(s)][i] != '\n';
    }
  }

  lemma {:induction false} UnlinesAppend(a: seq<string>, b: seq<string>)
    ensures Unlines(a + b) == Unlines(a) + Unlines(b)
  {
    if a == [] {
      assert a + b == b;
    } else {
      assert (a + b)[1..] == a[1..] + b;
      UnlinesAppend(a[1..], b);
    }
  }
}

/**
 The scanner's limit in numbers: a line of up to 65535 characters is read, one of 65536 or
 more ends the file for splitFrontmatter, whatever comes after it.
 */
module LineLimit {
  import opened Wrappers
  import opened Text
  import opened Frontmatter

  /** One line and its end, "\n" or "\r\n", is one scanned line. */
  lemma LineIsScanned(line: string)
    requires '\n' !in line && |line| <= 65535
    ensures Scan(line + "\n") == [DropCR(line)]
    ensures |line| < 65535 ==> Scan(line + "\r" + "\n") == [line]
  {
    hide Scan, DropCR;
    OneLine(line);
    if |line| < 65535 {
      OneLine(line + "\r");
      DropsCR(line);
    }
  }

  lemma DropsCR(line: string)
    ensures DropCR(line + "\r") == line
  {
    assert (line + "\r")[..|line|] == line;
  }

  lemma OneLine(line: string)
    requires '\n' !in line
    ensures |line| <= 65535 ==> Scan(line + "\n") == [DropCR(line)]
  {
    var s := line + "\n" + "";
    LineEndOfLine(line, "");
    assert s == line + "\n" && s[..|line|] == line && Rest(s) == "";
  }

  /** Not so a longer one, nor anything behind it. */
  lemma LongLineIsNotScanned(line: string, rest: string)
    requires '\n' !in line && |line| >= 65536
    ensures Scan(line + rest) == []
  {
    LineEndIsBehind(line + rest, |line|);
  }

  lemma LineEndIsBehind(s: string, n: nat)
    requires NoNewline(s, 0, n)
    ensures LineEnd(s) >= n
  {}

  /** n characters from i on, none of them a newline. */
  predicate NoNewline(s: string, i: nat, n: nat) {
    i + n <= |s| && forall j | i <= j < i + n :: s[j] != '\n'
  }

  /** Somewhere 65536 characters go by without a newline. */
  ghost predicate HasLongLine(s: string) {
    exists i: nat :: NoNewline(s, i, 65536)
  }

  lemma LongFirstLine(s: string)
    requires LineEnd(s) > 65535
    ensures HasLongLine(s)
  {
    assert NoNewline(s, 0, 65536);
  }

  lemma LongLineBehind(s: string)
    requires LineEnd(s) <= 65535
    ensures HasLongLine(s) <==> HasLongLine(Rest(s))
  {
    var k := LineEnd(s);
    if i: nat :| NoNewline(s, i, 65536) {
      assert k < |s|;
      assert i > k;
      assert NoNewline(Rest(s), i - k - 1, 65536);
    }
    if i: nat :| NoNewline(Rest(s), i, 65536) {
      assert NoNewline(s, i + k + 1, 65536);
    }
  }

  lemma {:induction false} FitsIff(s: string)
    ensures Fits(s) <==> !HasLongLine(s)
    decreases |s|
  {
    if s != "" {
      if LineEnd(s) > 65535 {
        LongFirstLine(s);
      } else {
        LongLineBehind(s);
        FitsIff(Rest(s));
      }
    }
  }

  /** What is split off is the whole file up to line ends exactly if no line of it is too long. */
  lemma SplitKeepsFileIff(data: string)
    requires Split(data).Some?
    ensures
      var p := Split(data).value;
      var file := p.pre + ("---\n" + (p.yaml + ("---\n" + p.body)));
      (file == Norm(data) <==> !HasLongLine(data)) && file <= Norm(data)
  {
    SplitIsExact(data);
    FitsIff(data);
    hide Split, Norm, HasLongLine;
  }

  /** A line of a file that no scanner changes or refuses. */
  predicate IsPlain(line: string) {
    |line| <= 65535 && '\n' !in line && (line != "" ==> line[|line| - 1] != '\r')
  }

  lemma PlainLinesScan(lines: seq<string>)
    requires forall l | l in lines :: IsPlain(l)
    ensures Fits(Unlines(lines)) && EndsInNewline(Unlines(lines)) && Scan(Unlines(lines)) == lines
  {
    ScanUnlines(lines);
    forall i | 0 <= i < |lines| ensures DropCR(lines[i]) == lines[i] {
      assert IsPlain(lines[i]);
    }
    hide Scan, Unlines, Fits, EndsInNewline;
  }

  function FileOf(pre: seq<string>, yaml: seq<string>, body: seq<string>): string {
    Unlines(pre + (["---"] + (yaml + (["---"] + body))))
  }

  /**
   Any file of plain lines is split at the fences around its second part; and so is that file with a line too
   long and anything else behind it.
   */
  lemma PlainFileIsSplit(pre: seq<string>, yaml: seq<string>, body: seq<string>, long: string, rest: string)
    requires forall l | l in pre + yaml + body :: IsPlain(l)
    requires "---" !in pre && "---" !in yaml
    requires '\n' !in long && (long == "" ==> rest == "") && (long != "" ==> |long| >= 65536)
    ensures Split(FileOf(pre, yaml, body) + (long + rest)) ==
      Some(Parts(Unlines(pre), Unlines(yaml), Unlines(body)))
  {
    var lines := pre + (["---"] + (yaml + (["---"] + body)));
    forall l | l in lines ensures IsPlain(l) {
      assert l in pre || l == "---" || l in yaml || l in body;
      assert l in pre + yaml + body || IsPlain("---");
    }
    hide IsPlain;
    PlainLinesScan(lines);
    hide Fits, EndsInNewline, Unlines;
    ScanAppend(FileOf(pre, yaml, body), long + rest);
    if long == "" {
      assert long + rest == "";
      assert Scan("") == [];
    } else {
      LongLineIsNotScanned(long, rest);
    }
    hide Scan;
    assert lines + [] == lines;
    SplitAtFences(FileOf(pre, yaml, body) + (long + rest), pre, yaml + (["---"] + body), yaml, body);
  }
}

/** What the daemon and the index use of strings, unicode and filepath. */
module Strings {
  /** filepath.Ext(name) == ".md", and likewise strings.HasSuffix(name, ".md"). */
  predicate IsMarkdown(name: string) {
    |name| >= 3 && name[|name| - 3..] == ".md"
  }

  /** unicode.IsSpace */
  predicate IsSpace(c: char) {
    c in {' ', '\t', '\n', '\U{0B}', '\U{0C}', '\r', '\U{85}', '\U{A0}', '\U{1680}',
          '\U{2028}', '\U{2029}', '\U{202F}', '\U{205F}', '\U{3000}'} ||
    '\U{2000}' <= c <= '\U{200A}'
  }

  /** The characters with Unicode's White_Space property, by code point. */
  lemma SpaceIff(c: char)
    ensures
      var n := c as int;
      IsSpace(c) <==>
        9 <= n <= 13 || 8192 <= n <= 8202 || n in {32, 133, 160, 5760, 8232, 8233, 8239, 8287, 12288}
  {}

  /** strings.TrimSpace */
  function TrimSpace(s: string): (r: string)
    ensures r != "" ==> !IsSpace(r[0]) && !IsSpace(r[|r| - 1])
    ensures r == "" <==> forall c | c in s :: IsSpace(c)
    decreases |s|
  {
    if s == "" then ""
    else if IsSpace(s[0]) then
      assert s == [s[0]] + s[1..];
      TrimSpace(s[1..])
    else if IsSpace(s[|s| - 1]) then TrimSpace(s[..|s| - 1])
    else s
  }

  ghost predicate EndsInMd(path: string) {
    exists stem: string :: path == stem + ".md"
  }

  lemma MarkdownIff(name: string)
    ensures IsMarkdown(name) <==> EndsInMd(name)
  {
    if IsMarkdown(name) {
      assert name == name[..|name| - 3] + ".md";
    }
    if stem: string :| name == stem + ".md" {
      assert name[|name| - 3..] == ".md";
    }
  }

  /** strings.TrimSpace(s) == "" */
  predicate Blank(s: string) {
    forall c | c in s :: IsSpace(c)
  }

  /** Trimming takes white space off either end and nothing else. */
  lemma {:induction false} TrimSplits(s: string) returns (left: string, right: string)
    ensures s == left + (TrimSpace(s) + right) && Blank(left) && Blank(right)
    decreases |s|
  {
    left, right := "", "";
    if s != "" && IsSpace(s[0]) {
      left, right := TrimSplits(s[1..]);
      hide TrimSpace, IsSpace;
      assert s == [s[0]] + s[1..];
      assert [s[0]] + (left + (TrimSpace(s) + right)) == ([s[0]] + left) + (TrimSpace(s) + right);
      left := [s[0]] + left;
    } else if s != "" && IsSpace(s[|s| - 1]) {
      left, right := TrimSplits(s[..|s| - 1]);
      hide TrimSpace, IsSpace;
      assert s == s[..|s| - 1] + [s[|s| - 1]];
      assert (left + (TrimSpace(s) + right)) + [s[|s| - 1]] == left + (TrimSpace(s) + (right + [s[|s| - 1]]));
      right := right + [s[|s| - 1]];
    }
  }

  /** And only what it takes off: text that neither starts nor ends in white space stays as it is. */
  lemma {:induction false} TrimIs(left: string, text: string, right: string)
    requires Blank(left) && Blank(right)
    requires text != "" ==> !IsSpace(text[0]) && !IsSpace(text[|text| - 1])
    ensures TrimSpace(left + (text + right)) == text
    decreases |left| + |right|
  {
    var s := left + (text + right);
    if left != "" {
      assert s[0] == left[0] && s[1..] == left[1..] + (text + right);
      TrimIs(left[1..], text, right);
    } else if text == "" {
      assert s == right;
    } else if right != "" {
      assert s[0] == text[0] && s[|s| - 1] == right[|right| - 1];
      assert s[..|s| - 1] == left + (text + right[..|right| - 1]);
      TrimIs(left, text, right[..|right| - 1]);
    } else {
      assert s == text;
    }
  }
}

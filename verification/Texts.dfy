// The string functions of the Go library that the program parses text with.
module Texts {

  // White space as unicode.IsSpace has it.
  predicate IsSpace(c: char) {
    c in "\t\n\r " || c == '\U{0B}' || c == '\U{0C}' || c == '\U{85}' || c == '\U{A0}' || c == '\U{1680}' ||
    '\U{2000}' <= c <= '\U{200A}' || c == '\U{2028}' || c == '\U{2029}' || c == '\U{202F}' || c == '\U{205F}' ||
      c == '\U{3000}'
  }

  // The code points of white space.
  lemma SpaceCodes(c: char)
    ensures var n := c as int;
      IsSpace(c) <==>
        9 <= n <= 13 || n == 32 || n == 133 || n == 160 || n == 5760 || 8192 <= n <= 8202 || n == 8232 || n == 8233 ||
        n == 8239 || n == 8287 || n == 12288
  {
    assert '\t' as int == 9 && '\n' as int == 10 && '\r' as int == 13 && ' ' as int == 32;
  }

  function TrimLeft(s: string): string {
    if s != "" && IsSpace(s[0]) then TrimLeft(s[1..]) else s
  }

  function TrimRight(s: string): string {
    if s != "" && IsSpace(s[|s| - 1]) then TrimRight(s[..|s| - 1]) else s
  }

  function TrimSpace(s: string): string {
    TrimRight(TrimLeft(s))
  }

  predicate Blank(s: string) {
    forall i :: 0 <= i < |s| ==> IsSpace(s[i])
  }

  predicate Trimmed(s: string) {
    s == "" || (!IsSpace(s[0]) && !IsSpace(s[|s| - 1]))
  }

  lemma {:induction false} TrimLeftParts(s: string) returns (pre: string)
    ensures s == pre + TrimLeft(s) && Blank(pre) && (TrimLeft(s) == "" || !IsSpace(TrimLeft(s)[0]))
  {
    if s != "" && IsSpace(s[0]) {
      var rest := TrimLeftParts(s[1..]);
      pre := [s[0]] + rest;
    } else {
      pre := "";
    }
  }

  lemma {:induction false} TrimRightParts(s: string) returns (post: string)
    ensures s == TrimRight(s) + post && Blank(post) &&
      (TrimRight(s) == "" || !IsSpace(TrimRight(s)[|TrimRight(s)| - 1]))
  {
    if s != "" && IsSpace(s[|s| - 1]) {
      var rest := TrimRightParts(s[..|s| - 1]);
      post := rest + [s[|s| - 1]];
    } else {
      post := "";
    }
  }

  // What is cut off at either side is white space, and what is left neither starts nor
  // ends with any.
  lemma TrimParts(s: string) returns (pre: string, post: string)
    ensures s == pre + TrimSpace(s) + post && Blank(pre) && Blank(post) && Trimmed(TrimSpace(s))
  {
    pre := TrimLeftParts(s);
    post := TrimRightParts(TrimLeft(s));
    if TrimSpace(s) != "" {
      assert TrimLeft(s)[0] == TrimSpace(s)[0];
    }
  }

  lemma {:induction false} TrimLeftBlank(pre: string, s: string)
    requires Blank(pre) && (s == "" || !IsSpace(s[0]))
    ensures TrimLeft(pre + s) == s
  {
    if pre == "" {
      assert pre + s == s;
    } else {
      assert (pre + s)[1..] == pre[1..] + s;
      TrimLeftBlank(pre[1..], s);
    }
  }

  lemma {:induction false} TrimRightBlank(s: string, post: string)
    requires Blank(post) && (s == "" || !IsSpace(s[|s| - 1]))
    ensures TrimRight(s + post) == s
  {
    if post == "" {
      assert s + post == s;
    } else {
      assert (s + post)[..|s + post| - 1] == s + post[..|post| - 1];
      TrimRightBlank(s, post[..|post| - 1]);
    }
  }

  // TrimSpace(s) is the only trimmed text that white space around it makes into s.
  lemma TrimUnique(pre: string, s: string, post: string)
    requires Blank(pre) && Trimmed(s) && Blank(post)
    ensures TrimSpace(pre + s + post) == s
  {
    if s == "" {
      assert pre + s + post == (pre + post) + "";
      TrimLeftBlank(pre + post, "");
    } else {
      assert pre + s + post == pre + (s + post);
      TrimLeftBlank(pre, s + post);
      TrimRightBlank(s, post);
    }
  }

  // --- byte order of strings ---

  predicate Less(a: string, b: string) {
    b != [] && (a == [] || a[0] < b[0] || (a[0] == b[0] && Less(a[1..], b[1..])))
  }

  lemma {:induction false} LessIrreflexive(a: string)
    ensures !Less(a, a)
  {
    if a != [] {
      LessIrreflexive(a[1..]);
    }
  }

  lemma {:induction false} LessTotal(a: string, b: string)
    ensures Less(a, b) || a == b || Less(b, a)
  {
    if a != [] && b != [] {
      LessTotal(a[1..], b[1..]);
      assert a == [a[0]] + a[1..] && b == [b[0]] + b[1..];
    }
  }

  lemma {:induction false} LessTransitive(a: string, b: string, c: string)
    requires Less(a, b) && Less(b, c)
    ensures Less(a, c)
  {
    if a != [] && a[0] == b[0] && b[0] == c[0] {
      LessTransitive(a[1..], b[1..], c[1..]);
    }
  }

  // Of two words of one length the order is settled before anything that follows them.
  lemma {:induction false} LessExtends(a: string, b: string, u: string, v: string)
    requires |a| == |b| && Less(a, b)
    ensures Less(a + u, b + v)
  {
    assert (a + u)[0] == a[0] && (b + v)[0] == b[0];
    if a[0] == b[0] {
      LessExtends(a[1..], b[1..], u, v);
      assert (a + u)[1..] == a[1..] + u && (b + v)[1..] == b[1..] + v;
    }
  }

  lemma {:induction false} LessAfter(a: string, u: string, v: string)
    requires Less(u, v)
    ensures Less(a + u, a + v)
  {
    if a == [] {
      assert a + u == u && a + v == v;
    } else {
      LessAfter(a[1..], u, v);
      assert (a + u)[1..] == a[1..] + u && (a + v)[1..] == a[1..] + v;
    }
  }

  // A word is less if it is smaller at the first place where they differ, or ends there.
  lemma {:induction false} LessIs(a: string, b: string)
    ensures Less(a, b) <==> exists k: nat :: FirstDiffers(a, b, k) && k < |b| && (k == |a| || a[k] < b[k])
  {
    if a != [] && b != [] && a[0] == b[0] {
      LessIs(a[1..], b[1..]);
      if k: nat :| FirstDiffers(a[1..], b[1..], k) && k < |b[1..]| && (k == |a[1..]| || a[1..][k] < b[1..][k]) {
        assert a[..k + 1] == [a[0]] + a[1..][..k] && b[..k + 1] == [b[0]] + b[1..][..k];
        assert FirstDiffers(a, b, k + 1);
      }
      if k: nat :| FirstDiffers(a, b, k) && k < |b| && (k == |a| || a[k] < b[k]) {
        assert k > 0;
        assert a[1..][..k - 1] == a[..k][1..] && b[1..][..k - 1] == b[..k][1..];
        assert FirstDiffers(a[1..], b[1..], k - 1);
      }
    } else {
      if Less(a, b) {
        assert FirstDiffers(a, b, 0);
      }
      if k: nat :| FirstDiffers(a, b, k) && k < |b| && (k == |a| || a[k] < b[k]) {
        if k > 0 {
          FirstAgree(a, b, k);
        }
      }
    }
  }

  lemma FirstAgree(a: string, b: string, k: nat)
    requires FirstDiffers(a, b, k) && k > 0
    ensures a != [] && b != [] && a[0] == b[0]
  {
    assert a[0] == a[..k][0] && b[0] == b[..k][0];
  }

  // The words agree up to k, and one of them ends there or they differ.
  predicate FirstDiffers(a: string, b: string, k: nat) {
    k <= |a| && k <= |b| && a[..k] == b[..k] && (k < |a| && k < |b| ==> a[k] != b[k])
  }

  // --- decimal digits ---

  // The number that a sequence of decimal digits spells.
  function Number(s: string): int {
    if s == [] then 0 else 10 * Number(s[..|s| - 1]) + (s[|s| - 1] as int - '0' as int)
  }

  // --- searching ---

  predicate At(s: string, p: string, i: int) {
    0 <= i && i + |p| <= |s| && s[i..i + |p|] == p
  }

  function IndexFrom(s: string, p: string, i: nat): (k: int)
    requires i <= |s|
    ensures k == -1 || (i <= k && At(s, p, k))
    decreases |s| - i
  {
    if At(s, p, i) then i else if i == |s| then -1 else IndexFrom(s, p, i + 1)
  }

  // strings.Index: the first occurrence of p in s, or -1.
  function Index(s: string, p: string): (k: int)
    ensures k == -1 || At(s, p, k)
  {
    IndexFrom(s, p, 0)
  }

  lemma {:induction false} IndexFromIs(s: string, p: string, i: nat)
    requires i <= |s|
    ensures var k := IndexFrom(s, p, i);
      (k == -1 && forall j :: i <= j ==> !At(s, p, j)) ||
        (i <= k && At(s, p, k) && forall j :: i <= j < k ==> !At(s, p, j))
    decreases |s| - i
  {
    if i < |s| {
      IndexFromIs(s, p, i + 1);
    }
  }

  // The first occurrence is the one that no other precedes.
  lemma IndexIs(s: string, p: string)
    ensures Index(s, p) == -1 || Index(s, p) >= 0
    ensures Index(s, p) == -1 <==> forall j :: !At(s, p, j)
    ensures forall k :: 0 <= k && At(s, p, k) && (forall j :: 0 <= j < k ==> !At(s, p, j)) <==>
      k == Index(s, p) && k >= 0
  {
    IndexFromIs(s, p, 0);
  }

  lemma AtChars(s: string, p: string, i: int)
    requires 0 <= i && i + |p| <= |s|
    ensures At(s, p, i) <==> forall j :: 0 <= j < |p| ==> s[i + j] == p[j]
  {
    if At(s, p, i) {
      forall j | 0 <= j < |p| ensures s[i + j] == p[j] {
        assert s[i..i + |p|][j] == p[j];
      }
    }
  }

  lemma NoBreakInside(s: string, word: string, j: int, n: int)
    requires At(s, word, j) && '\n' !in word && j <= n < j + |word|
    ensures s[n] != '\n'
  {
    assert s[n] == s[j..j + |word|][n - j];
  }

  lemma AtInside(s: string, pre: string, t: string, post: string, i: nat, word: string, j: int)
    requires i <= |s| && s[..i] == pre + t + post
    ensures At(t, word, j) ==> At(s, word, |pre| + j)
  {
    if At(t, word, j) {
      assert s[..i][|pre| + j..|pre| + j + |word|] == t[j..j + |word|];
    }
  }

  // A word that does not start in the first i places is not in what is left of them.
  lemma TrimKeepsAbsent(s: string, i: nat, word: string)
    requires i <= |s| && word != "" && forall j :: 0 <= j < i ==> !At(s, word, j)
    ensures Index(TrimSpace(s[..i]), word) == -1
  {
    hide TrimSpace, IsSpace, Blank, Trimmed;
    var pre, post := TrimParts(s[..i]);
    var t := TrimSpace(s[..i]);
    IndexIs(t, word);
    forall j ensures !At(t, word, j) {
      AtInside(s, pre, t, post, i, word, j);
    }
  }

  // A word without line breaks that starts behind an empty line occurs there, or already
  // in front of the empty line.
  lemma AtAcrossGap(text: string, tail: string, word: string, j: int)
    requires '\n' !in word && word != "" && j < |text| + 2
    ensures At(text + "\n\n" + tail, word, j) <==> At(text, word, j)
  {
    var s := text + "\n\n" + tail;
    if 0 <= j && j + |word| <= |text| {
      assert s[j..j + |word|] == text[j..j + |word|];
    } else if At(s, word, j) {
      NoBreakInside(s, word, j, if j <= |text| then |text| else |text| + 1);
    }
  }

  lemma IndexAcrossGap(text: string, tail: string, word: string)
    requires '\n' !in word && word != "" && At(tail, word, 0)
    ensures Index(text + "\n\n" + tail, word) == if Index(text, word) >= 0 then Index(text, word) else |text| + 2
  {
    var s := text + "\n\n" + tail;
    IndexIs(s, word);
    IndexIs(text, word);
    forall j | j < |text| + 2 ensures At(s, word, j) <==> At(text, word, j) {
      AtAcrossGap(text, tail, word, j);
    }
    assert s[|text| + 2..] == tail;
    assert At(s, word, |text| + 2);
  }

  lemma IndexOfLast(s: string, word: string, i: nat)
    requires i + |word| <= |s| && s[|s| - |word|..] == word
    ensures Index(s[i..], word) >= 0
  {
    hide Index;
    var t := s[i..];
    assert At(t, word, |t| - |word|) by {
      assert t[|t| - |word|..|t| - |word| + |word|] == word;
    }
    IndexIs(t, word);
  }
}

/** Trimming of Go strings. */
module Strings {
  /** unicode.IsSpace */
  predicate IsSpace(c: char) {
    || '\t' <= c <= '\r' || c == ' '
    || c as int in {0x85, 0xA0, 0x1680, 0x2028, 0x2029, 0x202F, 0x205F, 0x3000}
    || 0x2000 <= c as int <= 0x200A
  }

  function TrimLeft(s: string): (r: string)
    ensures |r| <= |s|
  {
    if |s| > 0 && IsSpace(s[0]) then TrimLeft(s[1..]) else s
  }

  function TrimRight(s: string): string {
    if |s| > 0 && IsSpace(s[|s| - 1]) then TrimRight(s[..|s| - 1]) else s
  }

  /** strings.TrimSpace */
  function TrimSpace(s: string): string {
    TrimRight(TrimLeft(s))
  }

  predicate Blank(s: string) {
    forall i :: 0 <= i < |s| ==> IsSpace(s[i])
  }

  predicate NoSpace(s: string) {
    forall i :: 0 <= i < |s| ==> !IsSpace(s[i])
  }

  /** The characters with the Unicode property White_Space. */
  const WHITE_SPACE := "\t\n\U{0B}\U{0C}\r \U{85}\U{A0}\U{1680}\U{2000}\U{2001}\U{2002}\U{2003}\U{2004}\U{2005}"
                       + "\U{2006}\U{2007}\U{2008}\U{2009}\U{200A}\U{2028}\U{2029}\U{202F}\U{205F}\U{3000}"

  lemma SpacesAreWhiteSpace(c: char)
    ensures IsSpace(c) <==> c in WHITE_SPACE
  {
    assert forall k :: 0 <= k < |WHITE_SPACE| ==> IsSpace(WHITE_SPACE[k]);
    var n := c as int;
    if IsSpace(c) {
      var k := if n <= 0x0D then n - 9 else if n == 0x20 then 5 else if n == 0x85 then 6 else if n == 0xA0 then 7
               else if n == 0x1680 then 8 else if n <= 0x200A then 9 + (n - 0x2000) else if n == 0x2028 then 20
               else if n == 0x2029 then 21 else if n == 0x202F then 22 else if n == 0x205F then 23 else 24;
      assert WHITE_SPACE[k] == c;
    }
  }

  lemma {:induction false} TrimLeftBlank(pre: string, s: string)
    requires Blank(pre) && (|s| == 0 || !IsSpace(s[0]))
    ensures TrimLeft(pre + s) == s
  {
    if |pre| == 0 {
      assert pre + s == s;
    } else {
      assert (pre + s)[1..] == pre[1..] + s;
      TrimLeftBlank(pre[1..], s);
    }
  }

  lemma {:induction false} TrimRightBlank(s: string, post: string)
    requires Blank(post) && (|s| == 0 || !IsSpace(s[|s| - 1]))
    ensures TrimRight(s + post) == s
  {
    if |post| == 0 {
      assert s + post == s;
    } else {
      assert (s + post)[..|s + post| - 1] == s + post[..|post| - 1];
      TrimRightBlank(s, post[..|post| - 1]);
    }
  }

  /** Trimming removes the white space around a text, and nothing of a text that neither begins nor ends with it. */
  lemma TrimSpaceExact(pre: string, s: string, post: string)
    requires Blank(pre) && Blank(post) && (s != "" ==> !IsSpace(s[0]) && !IsSpace(s[|s| - 1]))
    ensures TrimSpace(pre + s + post) == s
  {
    if s == "" {
      assert pre + s + post == (pre + post) + "";
      TrimLeftBlank(pre + post, "");
    } else {
      assert pre + s + post == pre + (s + post);
      TrimLeftBlank(pre, s + post);
      TrimRightBlank(s, post);
    }
  }

  function TrimLeftChar(s: string, c: char): string {
    if |s| > 0 && s[0] == c then TrimLeftChar(s[1..], c) else s
  }

  function TrimRightChar(s: string, c: char): string {
    if |s| > 0 && s[|s| - 1] == c then TrimRightChar(s[..|s| - 1], c) else s
  }

  /** strings.Trim for a cutset of one character. */
  function TrimChar(s: string, c: char): string {
    TrimRightChar(TrimLeftChar(s, c), c)
  }

  function Repeated(c: char, n: nat): string {
    seq(n, _ => c)
  }

  lemma {:induction false} TrimLeftRepeated(c: char, n: nat, s: string)
    requires s != "" ==> s[0] != c
    ensures TrimLeftChar(Repeated(c, n) + s, c) == s
  {
    var t := Repeated(c, n) + s;
    if n == 0 {
      assert t == s;
    } else {
      assert t[1..] == Repeated(c, n - 1) + s;
      TrimLeftRepeated(c, n - 1, s);
    }
  }

  lemma {:induction false} TrimRightRepeated(s: string, c: char, n: nat)
    requires s != "" ==> s[|s| - 1] != c
    ensures TrimRightChar(s + Repeated(c, n), c) == s
  {
    var t := s + Repeated(c, n);
    if n == 0 {
      assert t == s;
    } else {
      assert t[..|t| - 1] == s + Repeated(c, n - 1);
      TrimRightRepeated(s, c, n - 1);
    }
  }

  /** However often c stands on either side, all of it goes, and nothing else. */
  lemma TrimCharExact(c: char, m: nat, s: string, n: nat)
    requires s != "" ==> s[0] != c && s[|s| - 1] != c
    ensures TrimChar(Repeated(c, m) + s + Repeated(c, n), c) == s
  {
    if s == "" {
      assert Repeated(c, m) + s + Repeated(c, n) == Repeated(c, m + n) + "";
      TrimLeftRepeated(c, m + n, "");
    } else {
      assert Repeated(c, m) + s + Repeated(c, n) == Repeated(c, m) + (s + Repeated(c, n));
      TrimLeftRepeated(c, m, s + Repeated(c, n));
      TrimRightRepeated(s, c, n);
    }
  }
}

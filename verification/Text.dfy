/** Python's view of characters, white space and the order of strings, as far as the other modules depend on it. */
module Text {
  import opened Seqs

  /** `str.isspace` of one character, which is also the regular expression class `\s`. */
  predicate IsSpace(c: char) {
    var n := c as int;
    9 <= n <= 13 || 28 <= n <= 32 || n in {0x85, 0xA0, 0x1680, 0x2028, 0x2029, 0x202F, 0x205F, 0x3000} ||
      0x2000 <= n <= 0x200A
  }

  /** The characters `str.splitlines` ends a line at. */
  predicate IsLineBreak(c: char) {
    var n := c as int;
    10 <= n <= 13 || 28 <= n <= 30 || n in {0x85, 0x2028, 0x2029}
  }

  /** The line breaks one by one; each of them is white space. */
  lemma LineBreaksAre(c: char)
    ensures IsLineBreak(c) <==>
      c in {'\n', '\U{0b}', '\U{0c}', '\r', '\U{1c}', '\U{1d}', '\U{1e}', '\U{85}', '\U{2028}', '\U{2029}'}
    ensures IsLineBreak(c) ==> IsSpace(c)
  {
  }

  /** The other white space. */
  lemma SpacesAre(c: char)
    ensures IsSpace(c) <==>
      || IsLineBreak(c)
      || c in {'\t', ' ', '\U{1f}', '\U{a0}', '\U{1680}', '\U{2000}', '\U{2001}', '\U{2002}', '\U{2003}', '\U{2004}',
        '\U{2005}', '\U{2006}', '\U{2007}', '\U{2008}', '\U{2009}', '\U{200a}', '\U{202f}', '\U{205f}', '\U{3000}'}
  {
  }

  predicate SingleLine(s: string) { forall c :: c in s ==> !IsLineBreak(c) }

  function DropSpaces(s: string): (r: string)
    ensures |r| <= |s| && r == s[|s| - |r|..]
    ensures r != "" ==> !IsSpace(r[0])
  {
    if s != "" && IsSpace(s[0]) then DropSpaces(s[1..]) else s
  }

  function DropSpacesEnd(s: string): (r: string)
    ensures r <= s
    ensures r != "" ==> !IsSpace(r[|r| - 1])
    ensures forall i :: |r| <= i < |s| ==> IsSpace(s[i])
  {
    if s != "" && IsSpace(s[|s| - 1]) then DropSpacesEnd(s[..|s| - 1]) else s
  }

  /** `s.strip()` */
  function Strip(s: string): string { DropSpacesEnd(DropSpaces(s)) }

  predicate AllSpaces(s: string) { forall i :: 0 <= i < |s| ==> IsSpace(s[i]) }

  predicate IsGap(s: string) { s != "" && AllSpaces(s) }

  predicate IsText(s: string) { s != "" && !IsSpace(s[0]) }

  predicate Trimmed(s: string) { s != "" ==> !IsSpace(s[0]) && !IsSpace(s[|s| - 1]) }

  lemma {:induction false} DropsSpaces(a: string, t: string)
    requires AllSpaces(a) && (t == "" || !IsSpace(t[0]))
    ensures DropSpaces(a + t) == t
  {
    if a == "" {
      assert a + t == t;
    } else {
      assert (a + t)[0] == a[0] && (a + t)[1..] == a[1..] + t;
      DropsSpaces(a[1..], t);
    }
  }

  lemma {:induction false} DropsSpacesEnd(t: string, b: string)
    requires AllSpaces(b) && (t == "" || !IsSpace(t[|t| - 1]))
    ensures DropSpacesEnd(t + b) == t
  {
    if b == "" {
      assert t + b == t;
    } else {
      var n := |b| - 1;
      assert (t + b)[|t| + n] == b[n] && (t + b)[..|t| + n] == t + b[..n];
      DropsSpacesEnd(t, b[..n]);
    }
  }

  /** Stripping takes off what white space stands in front and behind, and nothing else. */
  lemma StripIs(a: string, s: string, b: string)
    requires AllSpaces(a) && Trimmed(s) && AllSpaces(b)
    ensures Strip(a + (s + b)) == s
  {
    if s == "" {
      assert a + (s + b) == (a + b) + "";
      DropsSpaces(a + b, "");
    } else {
      assert (s + b)[0] == s[0];
      DropsSpaces(a, s + b);
      DropsSpacesEnd(s, b);
    }
  }

  lemma FrontChar(s: string, a: string, t: string)
    requires s != "" && s[1..] == a + t
    ensures s == ([s[0]] + a) + t
  {
    assert s == [s[0]] + s[1..];
  }

  lemma SpaceFirst(c: char, a: string)
    requires IsSpace(c) && AllSpaces(a)
    ensures AllSpaces([c] + a)
  {
  }

  lemma {:induction false} SpacesInFront(s: string) returns (a: string, t: string)
    ensures s == a + t && t == DropSpaces(s) && AllSpaces(a)
  {
    if s != "" && IsSpace(s[0]) {
      a, t := SpacesInFront(s[1..]);
      FrontChar(s, a, t);
      SpaceFirst(s[0], a);
      a := [s[0]] + a;
    } else {
      a, t := "", s;
    }
  }

  lemma StripIsTrimmed(s: string)
    ensures Trimmed(Strip(s))
  {
    var t := DropSpaces(s);
    if Strip(s) != "" {
      assert Strip(s)[0] == t[0];
    }
  }

  /** Python's `<` on strings: code point by code point, a proper prefix first. */
  predicate StringLess(a: string, b: string) {
    if b == [] then false
    else if a == [] then true
    else if a[0] != b[0] then a[0] < b[0]
    else StringLess(a[1..], b[1..])
  }

  /** A total order of strings. */
  lemma StringOrder(a: string, b: string, c: string)
    ensures a == b || StringLess(a, b) || StringLess(b, a)
    ensures !StringLess(a, b) || !StringLess(b, a)
    ensures !StringLess(b, a) && !StringLess(c, b) ==> !StringLess(c, a)
  {
    if a != [] && b != [] && a[0] == b[0] {
      assert a == [a[0]] + a[1..] && b == [b[0]] + b[1..];
      StringOrder(a[1..], b[1..], if c == [] then [] else c[1..]);
    }
  }

  function NotBlank(): char -> bool { (c: char) => c != ' ' }

  /** `_normalize_text`; `fold` is Unicode case folding. */
  function Normalize(s: string, fold: string -> string): string { Filter(fold(s), NotBlank()) }
}

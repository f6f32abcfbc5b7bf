/** UTF-8 as RFC 3629, section 3, defines it, with the decoder that drops what it cannot decode. */
module Utf8 {

  type Byte = b: int | 0 <= b < 256

  function Width(c: char): (n: nat)
    ensures 1 <= n <= 4
  {
    var n := c as int;
    if n < 0x80 then 1 else if n < 0x800 then 2 else if n < 0x1_0000 then 3 else 4
  }

  function EncodeChar(c: char): (r: seq<Byte>)
    ensures |r| == Width(c)
  {
    var n := c as int;
    if n < 0x80 then [n]
    else if n < 0x800 then [0xC0 + n / 0x40, 0x80 + n % 0x40]
    else if n < 0x1_0000 then [0xE0 + n / 0x1000, 0x80 + n / 0x40 % 0x40, 0x80 + n % 0x40]
    else [0xF0 + n / 0x4_0000, 0x80 + n / 0x1000 % 0x40, 0x80 + n / 0x40 % 0x40, 0x80 + n % 0x40]
  }

  function Encode(s: string): seq<Byte> {
    if s == [] then [] else EncodeChar(s[0]) + Encode(s[1..])
  }

  /** The byte length of a text, without building the bytes. */
  function Utf8Size(s: string): (n: nat)
    ensures n == |Encode(s)|
  {
    if s == [] then 0 else Width(s[0]) + Utf8Size(s[1..])
  }

  lemma {:induction false} SizeAppend(a: string, b: string)
    ensures Utf8Size(a + b) == Utf8Size(a) + Utf8Size(b)
  {
    if a == [] {
      assert a + b == b;
    } else {
      assert (a + b)[1..] == a[1..] + b;
      SizeAppend(a[1..], b);
    }
  }

  predicate Continues(b: int) { 0x80 <= b < 0xC0 }

  /** How many bytes the sequence starting with this lead byte must have; 0 for no lead byte. */
  function Needed(b: Byte): (n: nat)
    ensures n <= 4
  {
    if b < 0x80 then 1
    else if 0xC2 <= b < 0xE0 then 2
    else if 0xE0 <= b < 0xF0 then 3
    else if 0xF0 <= b < 0xF5 then 4
    else 0
  }

  /** The code point coded by the first `n` bytes, or -1 when they are no well-formed sequence. */
  function CodePoint(b: seq<int>, n: nat): int
    requires n <= |b| && n <= 4
  {
    if n == 1 then b[0]
    else if n == 2 && Continues(b[1]) then
      (b[0] - 0xC0) * 0x40 + (b[1] - 0x80)
    else if n == 3 && Continues(b[1]) && Continues(b[2]) then
      var v := (b[0] - 0xE0) * 0x1000 + (b[1] - 0x80) * 0x40 + (b[2] - 0x80);
      if v < 0x800 || 0xD800 <= v < 0xE000 then -1 else v
    else if n == 4 && Continues(b[1]) && Continues(b[2]) && Continues(b[3]) then
      var v := (b[0] - 0xF0) * 0x4_0000 + (b[1] - 0x80) * 0x1000 + (b[2] - 0x80) * 0x40 + (b[3] - 0x80);
      if v < 0x1_0000 || v >= 0x11_0000 then -1 else v
    else -1
  }

  predicate IsScalar(v: int) { 0 <= v < 0xD800 || 0xE000 <= v < 0x11_0000 }

  /** `bytes.decode("utf-8", errors="ignore")` */
  function Decode(b: seq<Byte>): string {
    if b == [] then ""
    else
      var n := Needed(b[0]);
      if n == 0 || n > |b| || !IsScalar(CodePoint(b, n)) then Decode(b[1..])
      else [CodePoint(b, n) as char] + Decode(b[n..])
  }

  /** How many leading characters fit into `m` bytes. */
  function FitCount(s: string, m: nat): (k: nat)
    ensures k <= |s|
  {
    if s == [] || Width(s[0]) > m then 0 else 1 + FitCount(s[1..], m - Width(s[0]))
  }

  function Truncate(s: string, m: nat): string {
    var encoded := Encode(s);
    if |encoded| <= m then s else Decode(encoded[..m])
  }

  lemma Base64Digits(n: nat)
    ensures n == n / 0x40 * 0x40 + n % 0x40
    ensures n / 0x40 == n / 0x1000 * 0x40 + n / 0x40 % 0x40
    ensures n / 0x1000 == n / 0x4_0000 * 0x40 + n / 0x1000 % 0x40
  {
    assert n / 0x1000 == n / 0x40 / 0x40;
    assert n / 0x4_0000 == n / 0x1000 / 0x40;
  }

  lemma CodePointOfChar(c: char, rest: seq<Byte>)
    ensures var b := EncodeChar(c) + rest; Needed(b[0]) == Width(c) && CodePoint(b, Width(c)) == c as int
  {
    Base64Digits(c as int);
  }

  lemma DecodeChar(c: char, rest: seq<Byte>)
    ensures Decode(EncodeChar(c) + rest) == [c] + Decode(rest)
  {
    CodePointOfChar(c, rest);
    assert (EncodeChar(c) + rest)[Width(c)..] == rest;
  }

  lemma {:induction false} DecodeTail(b: seq<Byte>)
    requires forall x :: x in b ==> Continues(x)
    ensures Decode(b) == ""
  {
    if b != [] {
      assert b[0] in b;
      DecodeTail(b[1..]);
    }
  }

  lemma DecodeCutChar(c: char, m: nat)
    requires m < Width(c)
    ensures Decode(EncodeChar(c)[..m]) == ""
  {
    var cut := EncodeChar(c)[..m];
    if m > 0 {
      CodePointOfChar(c, []);
      assert EncodeChar(c) + [] == EncodeChar(c);
      assert cut[0] == EncodeChar(c)[0];
      DecodeTail(cut[1..]);
    }
  }

  lemma {:induction false} DecodeCut(s: string, m: nat)
    requires m <= |Encode(s)|
    ensures Decode(Encode(s)[..m]) == s[..FitCount(s, m)]
  {
    if s != [] {
      var w := Width(s[0]);
      if w > m {
        DecodeCutChar(s[0], m);
        assert Encode(s)[..m] == EncodeChar(s[0])[..m];
      } else {
        DecodeCut(s[1..], m - w);
        assert Encode(s)[..m] == EncodeChar(s[0]) + Encode(s[1..])[..m - w];
        DecodeChar(s[0], Encode(s[1..])[..m - w]);
      }
    }
  }

  /** Encoding loses nothing. */
  lemma DecodeEncode(s: string)
    ensures Decode(Encode(s)) == s
  {
    var b := Encode(s);
    DecodeCut(s, |b|);
    FitBounds(s, |b|);
    assert b[..|b|] == b && s[..|s|] == s;
  }

  lemma {:induction false} FitBounds(s: string, m: nat)
    ensures var k := FitCount(s, m);
      Utf8Size(s[..k]) <= m && (forall j :: k < j <= |s| ==> Utf8Size(s[..j]) > m)
  {
    var k := FitCount(s, m);
    if s != [] {
      if k > 0 {
        FitBounds(s[1..], m - Width(s[0]));
        assert s[..k][1..] == s[1..][..k - 1];
      }
      forall j | k < j <= |s| ensures Utf8Size(s[..j]) > m {
        assert s[..j][1..] == s[1..][..j - 1];
      }
    }
  }

  /**
    Cutting at a byte limit keeps the longest prefix of whole characters that fits: every
    longer prefix is over the limit.
   */
  lemma TruncateLongest(s: string, m: nat)
    ensures var r := Truncate(s, m);
      && r <= s
      && Utf8Size(r) <= m
      && forall j :: |r| < j <= |s| ==> Utf8Size(s[..j]) > m
  {
    if |Encode(s)| > m {
      DecodeCut(s, m);
      FitBounds(s, m);
    }
  }
}

/** Escaping the tildes of numeric ranges, but not in tilde fences and backtick code spans. */
module TildeEscape {

  predicate AsciiDigit(c: char) { '0' <= c <= '9' }

  /** The regular expression class `\d`: Unicode's decimal digits. Only 0 to 9 are ASCII, and no sign is one. */
  type Digits = d: char -> bool |
    !d('\U{2212}') && forall c: char :: c as int < 128 ==> (d(c) <==> AsciiDigit(c)) witness AsciiDigit

  // ----- numeric tildes -----

  predicate IsBlank(c: char) { c == ' ' || c == '\t' }

  predicate IsSign(c: char) { c == '+' || c == '\U{2212}' || c == '-' }

  function SkipBlanks(s: string): (r: string)
    ensures |r| <= |s| && r == s[|s| - |r|..]
  {
    if s != "" && IsBlank(s[0]) then SkipBlanks(s[1..]) else s
  }

  /** `[ \t]*[+−-]?[ \t]*\d` matches a beginning of the text. */
  predicate NumberAhead(s: string, d: Digits) { DigitFirst(SkipSign(SkipBlanks(s)), d) }

  predicate DigitFirst(s: string, d: Digits) { s != "" && d(s[0]) }

  /** What follows an optional sign and the blanks behind it. */
  function SkipSign(s: string): string { if s != "" && IsSign(s[0]) then SkipBlanks(s[1..]) else s }

  /** `(?<![\\~])~(?!~)(?=[ \t]*[+−-]?[ \t]*\d)` matches at place `i`. */
  predicate TargetAt(s: string, i: nat, d: Digits)
    requires i < |s|
  {
    && s[i] == '~'
    && (i == 0 || (s[i - 1] != '\\' && s[i - 1] != '~'))
    && (i + 1 == |s| || s[i + 1] != '~')
    && NumberAhead(s[i + 1..], d)
  }

  /** The same, reading from the left: `prev` is the character before `s`. */
  predicate Target(prev: char, s: string, d: Digits) {
    s != "" && s[0] == '~' && prev != '\\' && prev != '~' && (|s| == 1 || s[1] != '~') && NumberAhead(s[1..], d)
  }

  const NOTHING: char := ' '

  function Escape(prev: char, s: string, d: Digits): string
    decreases |s|
  {
    if s == "" then ""
    else (if Target(prev, s, d) then "\\~" else [s[0]]) + Escape(s[0], s[1..], d)
  }

  /** `_NUMERIC_TILDE_RE.sub(r"\\~", s)` */
  function Sub(s: string, d: Digits): string { Escape(NOTHING, s, d) }

  // ----- inserting backslashes before tildes -----

  /** `y` is `x` with single backslashes inserted before some of its tildes. */
  predicate Inserted(x: string, y: string) {
    if x == "" then y == ""
    else if x[0] == '~' && |y| > 1 && y[0] == '\\' then y[1] == '~' && Inserted(x[1..], y[2..])
    else y != "" && y[0] == x[0] && Inserted(x[1..], y[1..])
  }

  lemma {:induction false} InsertedSame(x: string)
    ensures Inserted(x, x)
  {
    if x != "" {
      InsertedSame(x[1..]);
    }
  }

  lemma {:induction false} InsertedAppend(a: string, b: string, c: string, d: string)
    requires Inserted(a, b) && Inserted(c, d)
    ensures Inserted(a + c, b + d)
  {
    if a == "" {
      assert a + c == c && b + d == d;
    } else {
      var x, y := a + c, b + d;
      assert x[1..] == a[1..] + c;
      if a[0] == '~' && |b| > 1 && b[0] == '\\' {
        assert y[2..] == b[2..] + d;
        InsertedAppend(a[1..], b[2..], c, d);
      } else {
        assert y[1..] == b[1..] + d;
        InsertedAppend(a[1..], b[1..], c, d);
      }
    }
  }

  lemma {:induction false} EscapeInserts(prev: char, s: string, d: Digits)
    ensures Inserted(s, Escape(prev, s, d))
    decreases |s|
  {
    if s != "" {
      EscapeInserts(s[0], s[1..], d);
      var y := Escape(prev, s, d);
      if Target(prev, s, d) {
        assert y[2..] == Escape(s[0], s[1..], d);
      } else {
        assert y[1..] == Escape(s[0], s[1..], d);
      }
    }
  }

  // ----- the second pass changes nothing -----

  lemma InsertedHead(x: string, y: string)
    requires Inserted(x, y) && x != ""
    ensures y != "" && if x[0] == '~' then y[0] == '~' || y[0] == '\\' else y[0] == x[0] && Inserted(x[1..], y[1..])
  {
  }

  lemma {:induction false} SkipBlanksInserted(x: string, y: string)
    requires Inserted(x, y)
    ensures Inserted(SkipBlanks(x), SkipBlanks(y))
  {
    if x != "" && IsBlank(x[0]) {
      SkipBlanksInserted(x[1..], y[1..]);
    }
  }

  lemma SkipSignInserted(x: string, y: string)
    requires Inserted(x, y)
    ensures Inserted(SkipSign(x), SkipSign(y))
  {
    if x != "" {
      InsertedHead(x, y);
      if IsSign(x[0]) {
        SkipBlanksInserted(x[1..], y[1..]);
      }
    }
  }

  /** Whether a number comes next does not depend on the escapes behind it. */
  lemma NumberAheadInserted(x: string, y: string, d: Digits)
    requires Inserted(x, y)
    ensures NumberAhead(x, d) <==> NumberAhead(y, d)
  {
    SkipBlanksInserted(x, y);
    SkipSignInserted(SkipBlanks(x), SkipBlanks(y));
    var u := SkipSign(SkipBlanks(x));
    if u != "" {
      InsertedHead(u, SkipSign(SkipBlanks(y)));
    }
  }

  lemma {:induction false} EscapeTwice(prev: char, s: string, d: Digits)
    ensures Escape(prev, Escape(prev, s, d), d) == Escape(prev, s, d)
    decreases |s|
  {
    if s != "" {
      var y, rest := Escape(prev, s, d), Escape(s[0], s[1..], d);
      EscapeTwice(s[0], s[1..], d);
      if Target(prev, s, d) {
        assert y[0] == '\\' && y[1..] == "~" + rest && y[1..][1..] == rest;
      } else {
        assert y[0] == s[0] && y[1..] == rest;
        EscapeInserts(s[0], s[1..], d);
        NumberAheadInserted(s[1..], rest, d);
      }
    }
  }

  /** Nothing is escaped exactly if the pattern matches nowhere. */
  lemma {:induction false} UnchangedIffNoTarget(s: string, from: nat, d: Digits)
    requires from <= |s|
    ensures var prev := if from == 0 then NOTHING else s[from - 1];
      Escape(prev, s[from..], d) == s[from..] <==> forall i :: from <= i < |s| ==> !TargetAt(s, i, d)
    decreases |s| - from
  {
    if from < |s| {
      var prev := if from == 0 then NOTHING else s[from - 1];
      var t := s[from..];
      assert t[0] == s[from] && t[1..] == s[from + 1..];
      UnchangedIffNoTarget(s, from + 1, d);
      assert Target(prev, t, d) <==> TargetAt(s, from, d);
      assert Escape(prev, t, d) == (if Target(prev, t, d) then "\\~" else [t[0]]) + Escape(s[from], s[from + 1..], d);
      if Target(prev, t, d) {
        assert Escape(prev, t, d)[0] == '\\';
      } else {
        assert Escape(prev, t, d)[1..] == Escape(s[from], s[from + 1..], d);
      }
    }
  }

  /** After the substitution the pattern matches nowhere. */
  lemma SubLeavesNoTarget(s: string, d: Digits)
    ensures forall i :: 0 <= i < |Sub(s, d)| ==> !TargetAt(Sub(s, d), i, d)
  {
    EscapeTwice(NOTHING, s, d);
    var y := Sub(s, d);
    assert y[0..] == y;
    UnchangedIffNoTarget(y, 0, d);
  }
}

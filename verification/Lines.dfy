/** `str.splitlines(keepends=True)` and its inverse. */
module Lines {
  import opened Text

  /** The length of the first line with its line break. */
  function LineEnd(s: string): (n: nat)
    ensures n <= |s| && (s != "" ==> n >= 1)
  {
    if s == "" then 0
    else if s[0] == '\r' && |s| > 1 && s[1] == '\n' then 2
    else if IsLineBreak(s[0]) then 1
    else 1 + LineEnd(s[1..])
  }

  /** A line break in front of this text: a carriage return takes a newline behind it along. */
  predicate IsBreak(brk: string, rest: string) {
    brk == "\r\n" || (|brk| == 1 && IsLineBreak(brk[0]) && (brk[0] == '\r' && rest != "" ==> rest[0] != '\n'))
  }

  lemma LineEndHere(brk: string, rest: string)
    requires IsBreak(brk, rest)
    ensures LineEnd(brk + rest) == |brk|
  {
    var s := brk + rest;
    assert s[0] == brk[0];
    if |brk| == 1 && rest != "" {
      assert s[1] == rest[0];
    }
  }

  lemma {:induction false} LineEndIs(a: string, brk: string, rest: string)
    requires SingleLine(a) && IsBreak(brk, rest)
    ensures LineEnd(a + (brk + rest)) == |a| + |brk|
  {
    var s := a + (brk + rest);
    if a == "" {
      assert s == brk + rest;
      LineEndHere(brk, rest);
    } else {
      assert a[0] in a && s[0] == a[0] && s[1..] == a[1..] + (brk + rest);
      LineEndIs(a[1..], brk, rest);
    }
  }

  lemma {:induction false} LastLineEnd(a: string)
    requires SingleLine(a)
    ensures LineEnd(a) == |a|
  {
    if a != "" {
      assert a[0] in a;
      LastLineEnd(a[1..]);
    }
  }

  function LinesOf(s: string): seq<string> {
    if s == "" then [] else [s[..LineEnd(s)]] + LinesOf(s[LineEnd(s)..])
  }

  /** The first line of a text ends with its first line break. */
  lemma LinesBegin(a: string, brk: string, rest: string)
    requires SingleLine(a) && IsBreak(brk, rest)
    ensures LinesOf(a + (brk + rest)) == [a + brk] + LinesOf(rest)
  {
    var s := a + (brk + rest);
    LineEndIs(a, brk, rest);
    assert s[..|a| + |brk|] == a + brk && s[|a| + |brk|..] == rest;
  }

  function Join(ls: seq<string>): string {
    if ls == [] then "" else ls[0] + Join(ls[1..])
  }

  /** The lines are where `splitlines` puts them in the joined text. */
  predicate AreLines(ls: seq<string>) {
    ls == [] || (ls[0] != "" && LineEnd(Join(ls)) == |ls[0]| && AreLines(ls[1..]))
  }

  lemma {:induction false} JoinLines(s: string)
    ensures Join(LinesOf(s)) == s && AreLines(LinesOf(s))
  {
    if s != "" {
      JoinLines(s[LineEnd(s)..]);
      assert LinesOf(s)[1..] == LinesOf(s[LineEnd(s)..]);
      assert s == s[..LineEnd(s)] + s[LineEnd(s)..];
    }
  }

  lemma {:induction false} LinesJoin(ls: seq<string>)
    requires AreLines(ls)
    ensures LinesOf(Join(ls)) == ls
  {
    if ls != [] {
      LinesJoin(ls[1..]);
      var s := Join(ls);
      assert s[..|ls[0]|] == ls[0] && s[|ls[0]|..] == Join(ls[1..]);
    }
  }

  lemma {:induction false} JoinAppend(a: seq<string>, b: seq<string>)
    ensures Join(a + b) == Join(a) + Join(b)
  {
    if a == [] {
      assert a + b == b;
    } else {
      assert (a + b)[1..] == a[1..] + b;
      JoinAppend(a[1..], b);
    }
  }

  /** A line ends where it did when less text follows. */
  lemma {:induction false} LineEndBeforeLess(a: string, b: string, less: string)
    requires a != "" && LineEnd(a + b) == |a| && less <= b
    ensures LineEnd(a + less) == |a|
  {
    var x, y := a + b, a + less;
    if |a| > 1 {
      assert x[1..] == a[1..] + b && y[1..] == a[1..] + less;
      assert x[1] == a[1] == y[1];
      if !IsLineBreak(a[0]) {
        LineEndBeforeLess(a[1..], b, less);
      }
    } else if less != "" {
      assert x[1] == b[0] == less[0] == y[1];
      assert x[1..] == b;
    } else {
      assert y[1..] == "";
    }
  }

  lemma {:induction false} FirstLinesAreLines(ls: seq<string>, m: nat)
    requires AreLines(ls) && m <= |ls|
    ensures AreLines(ls[..m])
  {
    if m > 0 {
      FirstLinesAreLines(ls[1..], m - 1);
      assert ls[..m][1..] == ls[1..][..m - 1];
      assert ls[1..] == ls[1..][..m - 1] + ls[1..][m - 1..];
      JoinAppend(ls[1..][..m - 1], ls[1..][m - 1..]);
      LineEndBeforeLess(ls[0], Join(ls[1..]), Join(ls[1..][..m - 1]));
    }
  }

  lemma {:induction false} LastLinesAreLines(ls: seq<string>, m: nat)
    requires AreLines(ls) && m <= |ls|
    ensures AreLines(ls[m..])
  {
    if m > 0 {
      LastLinesAreLines(ls[1..], m - 1);
      assert ls[1..][m - 1..] == ls[m..];
    }
  }
}

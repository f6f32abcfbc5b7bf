/** Printing lines and reading them back with `splitlines`. */
module ReportLines {
  import opened Text
  import opened Lines

  /** No line break but the newline. */
  predicate Clean(s: string) { forall c :: c in s && IsLineBreak(c) ==> c == '\n' }

  lemma StripTrims(s: string)
    ensures Trimmed(Strip(s)) && |Strip(s)| <= |s|
    ensures Trimmed(s) ==> Strip(s) == s
    ensures forall c :: c in Strip(s) ==> c in s
  {
  }

  /** The text before the first line break. */
  function Body(s: string): (r: string)
    ensures r <= s && SingleLine(r)
  {
    if s == "" || IsLineBreak(s[0]) then "" else [s[0]] + Body(s[1..])
  }

  /** `s.splitlines()` */
  function SplitLines(s: string): (ls: seq<string>)
    ensures forall l :: l in ls ==> SingleLine(l)
  {
    if s == "" then [] else [Body(s)] + SplitLines(s[LineEnd(s)..])
  }

  lemma {:induction false} BodyIs(a: string, t: string)
    requires SingleLine(a) && (t == "" || IsLineBreak(t[0]))
    ensures Body(a + t) == a
  {
    if a == "" {
      assert a + t == t;
    } else {
      assert a[0] in a && (a + t)[0] == a[0] && (a + t)[1..] == a[1..] + t;
      BodyIs(a[1..], t);
    }
  }

  /** A text is split at its first line break, which is dropped. */
  lemma SplitBegins(a: string, brk: string, rest: string)
    requires SingleLine(a) && IsBreak(brk, rest)
    ensures SplitLines(a + (brk + rest)) == [a] + SplitLines(rest)
  {
    var s := a + (brk + rest);
    LineEndIs(a, brk, rest);
    BodyIs(a, brk + rest);
    assert s[|a| + |brk|..] == rest;
  }

  /** Without a line break it is one line, and no line if it is empty. */
  lemma SplitEnds(a: string)
    requires SingleLine(a)
    ensures SplitLines(a) == if a == "" then [] else [a]
  {
    if a != "" {
      LastLineEnd(a);
      BodyIs(a, "");
      assert a + "" == a && a[|a|..] == "";
    }
  }

  /** `s.split("\n")` */
  function SplitNewlines(s: string): (ls: seq<string>)
    ensures |ls| >= 1
  {
    if s == "" then [""]
    else if s[0] == '\n' then [""] + SplitNewlines(s[1..])
    else
      var rest := SplitNewlines(s[1..]);
      [[s[0]] + rest[0]] + rest[1..]
  }

  /** `"\n".join(ls)` */
  function JoinNewlines(ls: seq<string>): string {
    if ls == [] then "" else if |ls| == 1 then ls[0] else ls[0] + "\n" + JoinNewlines(ls[1..])
  }

  function Terminated(ls: seq<string>): string { if ls == [] then "" else ls[0] + "\n" + Terminated(ls[1..]) }

  /** The lines read from a list of printed strings that may hold line breaks themselves. */
  function Rows(ls: seq<string>): (rows: seq<string>)
    ensures forall l :: l in rows ==> SingleLine(l)
  {
    if ls == [] then [] else SplitLines(ls[0] + "\n") + Rows(ls[1..])
  }

  lemma {:induction false} TerminatedAppend(a: seq<string>, b: seq<string>)
    ensures Terminated(a + b) == Terminated(a) + Terminated(b)
  {
    if a == [] {
      assert a + b == b;
    } else {
      assert (a + b)[1..] == a[1..] + b;
      TerminatedAppend(a[1..], b);
    }
  }

  lemma {:induction false} RowsAppend(a: seq<string>, b: seq<string>)
    ensures Rows(a + b) == Rows(a) + Rows(b)
  {
    if a == [] {
      assert a + b == b;
    } else {
      assert (a + b)[1..] == a[1..] + b;
      RowsAppend(a[1..], b);
    }
  }

  lemma {:induction false} JoinIsTerminated(ls: seq<string>)
    requires ls != []
    ensures JoinNewlines(ls) + "\n" == Terminated(ls)
  {
    if |ls| > 1 {
      JoinIsTerminated(ls[1..]);
      assert ls[0] + "\n" + JoinNewlines(ls[1..]) + "\n" == ls[0] + "\n" + (JoinNewlines(ls[1..]) + "\n");
    } else {
      assert ls[1..] == [];
    }
  }

  lemma {:induction false} JoinSplit(s: string)
    ensures JoinNewlines(SplitNewlines(s)) == s
  {
    if s != "" {
      JoinSplit(s[1..]);
      var rest := SplitNewlines(s[1..]);
      var ls := SplitNewlines(s);
      if s[0] == '\n' {
        assert ls[1..] == rest;
        assert "" + "\n" + s[1..] == s;
      } else {
        assert ls[1..] == rest[1..];
        assert |rest| > 1 ==> [s[0]] + rest[0] + "\n" + JoinNewlines(rest[1..]) == [s[0]] + JoinNewlines(rest);
      }
    }
  }

  // ----- reading printed lines -----

  lemma {:induction false} LineReads(a: string, rest: string)
    requires SingleLine(a)
    ensures LineEnd(a + "\n" + rest) == |a| + 1 && Body(a + "\n" + rest) == a
  {
    var s := a + "\n" + rest;
    if a != "" {
      assert s[1..] == a[1..] + "\n" + rest;
      assert a[0] in a;
      LineReads(a[1..], rest);
    }
  }

  lemma SplitAfterLine(a: string, rest: string)
    requires SingleLine(a)
    ensures SplitLines(a + "\n" + rest) == [a] + SplitLines(rest)
  {
    LineReads(a, rest);
    assert (a + "\n" + rest)[|a| + 1..] == rest;
  }

  lemma SplitCons(s: string)
    requires s != "" && s[0] != '\n'
    ensures SplitNewlines(s)[0] == [s[0]] + SplitNewlines(s[1..])[0]
    ensures SplitNewlines(s)[1..] == SplitNewlines(s[1..])[1..] && |SplitNewlines(s)| == |SplitNewlines(s[1..])|
  {
  }

  lemma {:induction false} FirstNewline(s: string)
    requires Clean(s)
    ensures SplitNewlines(s)[0] == Body(s)
    ensures |SplitNewlines(s)| == 1 ==> Body(s) == s
    ensures |SplitNewlines(s)| > 1 ==>
      |Body(s)| < |s| && s[|Body(s)|] == '\n' && SplitNewlines(s)[1..] == SplitNewlines(s[|Body(s)| + 1..])
  {
    if s != "" && s[0] != '\n' {
      var t := s[1..];
      assert s[0] in s && forall c :: c in t ==> c in s;
      FirstNewline(t);
      SplitCons(s);
      assert Body(s) == [s[0]] + Body(t);
      assert [s[0]] + t == s;
      if |SplitNewlines(t)| > 1 {
        assert s[|Body(s)| + 1..] == t[|Body(t)| + 1..];
      }
    }
  }

  lemma Glue(a: string, b: string, c: string)
    ensures (a + "\n" + b) + "\n" + c == a + "\n" + (b + "\n" + c)
    ensures (a + "\n" + b) + c == a + "\n" + (b + c)
  {
  }

  lemma CutAtNewline(s: string, n: nat)
    requires n < |s| && s[n] == '\n'
    ensures s == s[..n] + "\n" + s[n + 1..]
  {
  }

  /** A clean text is one line, or a line and a clean text behind a newline. */
  lemma FirstLineOf(s: string) returns (more: bool, a: string, t: string)
    requires Clean(s)
    ensures SingleLine(a) && Clean(t)
    ensures !more ==> s == a && SplitNewlines(s) == [a]
    ensures more ==> s == a + "\n" + t && |t| < |s| && SplitNewlines(s) == [a] + SplitNewlines(t)
  {
    FirstNewline(s);
    a := Body(s);
    more := |SplitNewlines(s)| > 1;
    if more {
      CutAtNewline(s, |a|);
      t := s[|a| + 1..];
    } else {
      t := "";
    }
  }

  lemma ReadOn(a: string, t: string, rest: string, ls: seq<string>)
    requires SingleLine(a) && SplitLines(t + "\n" + rest) == ls + SplitLines(rest)
    ensures SplitLines((a + "\n" + t) + "\n" + rest) == ([a] + ls) + SplitLines(rest)
  {
    Glue(a, t, rest);
    SplitAfterLine(a, t + "\n" + rest);
  }

  /** A clean text printed with a newline behind it is read as its own lines. */
  lemma {:induction false} CleanReads(s: string, rest: string)
    requires Clean(s)
    ensures SplitLines(s + "\n" + rest) == SplitNewlines(s) + SplitLines(rest)
    decreases |s|
  {
    var more, a, t := FirstLineOf(s);
    if more {
      CleanReads(t, rest);
      ReadOn(a, t, rest, SplitNewlines(t));
    } else {
      SplitAfterLine(s, rest);
    }
  }

  /** Up to its last newline a text is split like the text cut off there. */
  lemma {:induction false} LineEndAtNewline(s: string, rest: string)
    ensures LineEnd(s + "\n" + rest) == LineEnd(s + "\n") <= |s| + 1
    ensures Body(s + "\n" + rest) == Body(s + "\n")
  {
    var x, y := s + "\n" + rest, s + "\n";
    if s != "" {
      assert x[1..] == s[1..] + "\n" + rest && y[1..] == s[1..] + "\n";
      assert x[1] == y[1];
      LineEndAtNewline(s[1..], rest);
    }
  }

  lemma SplitStep(s: string, n: nat, tail: string)
    requires s != "" && n == LineEnd(s) && s[n..] == tail
    ensures SplitLines(s) == [Body(s)] + SplitLines(tail)
  {
  }

  lemma CutWithin(s: string, rest: string, n: nat)
    requires n <= |s|
    ensures (s + "\n" + rest)[n..] == s[n..] + "\n" + rest && (s + "\n")[n..] == s[n..] + "\n"
  {
  }

  lemma CutBehind(s: string, rest: string)
    ensures (s + "\n" + rest)[|s| + 1..] == rest && (s + "\n")[|s| + 1..] == ""
  {
  }

  lemma {:induction false} SplitAtNewline(s: string, rest: string)
    ensures SplitLines(s + "\n" + rest) == SplitLines(s + "\n") + SplitLines(rest)
    decreases |s|
  {
    LineEndAtNewline(s, rest);
    var n := LineEnd(s + "\n");
    if n <= |s| {
      CutWithin(s, rest, n);
      SplitStep(s + "\n" + rest, n, s[n..] + "\n" + rest);
      SplitStep(s + "\n", n, s[n..] + "\n");
      SplitAtNewline(s[n..], rest);
    } else {
      CutBehind(s, rest);
      SplitStep(s + "\n" + rest, n, rest);
      SplitStep(s + "\n", n, "");
    }
  }

  lemma RowsReadOn(l: string, t: string, rest: string, rows: seq<string>)
    requires SplitLines(t + rest) == rows + SplitLines(rest)
    ensures SplitLines((l + "\n" + t) + rest) == (SplitLines(l + "\n") + rows) + SplitLines(rest)
  {
    SplitAtNewline(l, t + rest);
    Glue(l, t, rest);
  }

  lemma {:induction false} RowsRead(ls: seq<string>, rest: string)
    ensures SplitLines(Terminated(ls) + rest) == Rows(ls) + SplitLines(rest)
  {
    if ls == [] {
      assert Terminated(ls) + rest == rest;
    } else {
      RowsRead(ls[1..], rest);
      RowsReadOn(ls[0], Terminated(ls[1..]), rest, Rows(ls[1..]));
    }
  }

  /** A clean text printed on lines of its own. */
  lemma CleanRows(s: string)
    requires Clean(s)
    ensures SplitLines(s + "\n") == SplitNewlines(s)
  {
    CleanReads(s, "");
    assert s + "\n" + "" == s + "\n" && SplitLines("") == [];
  }

  lemma CleanGlue(a: string, b: string)
    requires SingleLine(a) && Clean(b)
    ensures Clean(a + "\n" + b)
  {
  }

  lemma {:induction false} JoinedLinesAreClean(ls: seq<string>)
    requires forall l :: l in ls ==> SingleLine(l)
    ensures Clean(JoinNewlines(ls))
  {
    if ls != [] {
      assert ls[0] in ls;
      if |ls| > 1 {
        assert forall l :: l in ls[1..] ==> l in ls;
        JoinedLinesAreClean(ls[1..]);
        CleanGlue(ls[0], JoinNewlines(ls[1..]));
      }
    }
  }

  lemma {:induction false} DropSpacesAppend(s: string, c: char)
    ensures DropSpaces(s + [c]) == if DropSpaces(s) == "" then DropSpaces([c]) else DropSpaces(s) + [c]
  {
    if s == "" {
      assert s + [c] == [c];
    } else {
      assert (s + [c])[1..] == s[1..] + [c];
      if IsSpace(s[0]) {
        DropSpacesAppend(s[1..], c);
      }
    }
  }

  lemma StripSpace(s: string, c: char)
    requires IsSpace(c)
    ensures Strip(s + [c]) == Strip(s)
  {
    DropSpacesAppend(s, c);
    var t := DropSpaces(s);
    assert (t + [c])[..|t|] == t;
    assert [c][1..] == "";
  }

  lemma {:induction false} DropSpacesKeepsEnd(s: string)
    requires s != "" && !IsSpace(s[|s| - 1])
    ensures DropSpaces(s) != "" && DropSpaces(s)[|DropSpaces(s)| - 1] == s[|s| - 1]
  {
    if IsSpace(s[0]) {
      DropSpacesKeepsEnd(s[1..]);
    }
  }

  lemma StripNotEmpty(s: string)
    requires s != "" && !IsSpace(s[|s| - 1])
    ensures Strip(s) != ""
  {
    DropSpacesKeepsEnd(s);
  }

  lemma {:induction false} JoinNewlinesAppend(a: seq<string>, b: seq<string>)
    requires a != [] && b != []
    ensures JoinNewlines(a + b) == JoinNewlines(a) + "\n" + JoinNewlines(b)
  {
    assert (a + b)[1..] == a[1..] + b;
    if |a| > 1 {
      JoinNewlinesAppend(a[1..], b);
      Glue(a[0], JoinNewlines(a[1..]), JoinNewlines(b));
    }
  }

  // ----- lines up to a stop -----

  /** The lines before the first one that `stop` accepts. */
  function Before(ls: seq<string>, stop: string -> bool): (r: seq<string>)
    ensures r <= ls && forall l :: l in r ==> !stop(l)
    ensures |r| < |ls| ==> stop(ls[|r|])
  {
    if ls == [] || stop(ls[0]) then [] else [ls[0]] + Before(ls[1..], stop)
  }

  lemma {:induction false} BeforeAppend(a: seq<string>, b: seq<string>, stop: string -> bool)
    requires forall l :: l in a ==> !stop(l)
    ensures Before(a + b, stop) == a + Before(b, stop)
  {
    if a == [] {
      assert a + b == b;
    } else {
      assert (a + b)[1..] == a[1..] + b;
      BeforeAppend(a[1..], b, stop);
    }
  }

  lemma StopAt(a: seq<string>, rest: seq<string>, stop: string -> bool)
    requires (forall l :: l in a ==> !stop(l)) && rest != [] && stop(rest[0])
    ensures Before(a + rest, stop) == a
  {
    BeforeAppend(a, rest, stop);
    assert a + [] == a;
  }

  lemma StopWithin(a: seq<string>, b: seq<string>, k: nat, stop: string -> bool) returns (m: nat)
    requires k < |a| && stop(a[k])
    ensures m < |a| && stop(a[m]) && Before(a + b, stop) == a[..m]
  {
    var kept := Before(a + b, stop);
    m := |kept|;
    assert forall i :: 0 <= i < |kept| ==> kept[i] in kept && kept[i] == (a + b)[i];
    assert (a + b)[k] == a[k];
    assert (a + b)[m] == a[m] && kept == a[..m];
  }

  lemma RunsPast(x: string, y: string, z: string, rest: seq<string>, stop: string -> bool)
    requires !stop(x) && !stop(y) && !stop(z)
    requires |rest| > 2 && rest[0] == y && rest[1] == z && stop(rest[2])
    ensures Before([x] + rest, stop) == [x, y, z]
  {
    assert [x] + rest == [x, y, z] + rest[2..];
    StopAt([x, y, z], rest[2..], stop);
  }

  method CollectBefore(ls: seq<string>, stop: string -> bool) returns (collected: seq<string>)
    ensures collected == Before(ls, stop)
  {
    collected := [];
    for i := 0 to |ls|
      invariant collected == ls[..i] && forall l :: l in collected ==> !stop(l)
    {
      if stop(ls[i]) {
        assert ls == collected + ls[i..];
        StopAt(collected, ls[i..], stop);
        return;
      }
      collected := collected + [ls[i]];
    }
    assert ls == ls + [];
    BeforeAppend(ls, [], stop);
  }
}

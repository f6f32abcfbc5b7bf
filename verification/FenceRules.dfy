/** Tilde fences by the characters of their lines, and what they do to the text around them. */
module FenceRules {
  import opened Text
  import opened Lines
  import opened TildeEscape
  import opened InlineCode
  import opened InlineRules
  import opened TildeFences

  // ----- fence lines -----

  predicate AllTildes(s: string) { forall i :: 0 <= i < |s| ==> s[i] == '~' }

  /** At most three blanks, three or more tildes, and what stands behind the last of them. */
  predicate IsFenceLine(line: string, blanks: string, tildes: string, rest: string) {
    && line == blanks + (tildes + rest)
    && |blanks| <= 3 && AllBlanks(blanks)
    && |tildes| >= 3 && AllTildes(tildes)
    && (rest == "" || rest[0] != '~')
  }

  ghost predicate OpensFence(line: string, n: nat) {
    exists blanks, tildes, rest :: IsFenceLine(line, blanks, tildes, rest) && |tildes| == n
  }

  ghost predicate ClosesFence(line: string, n: nat) {
    exists blanks, tildes, rest :: IsFenceLine(line, blanks, tildes, rest) && |tildes| >= n && AllSpaces(rest)
  }

  lemma {:induction false} RunOfTildes(tildes: string, rest: string)
    requires AllTildes(tildes) && (rest == "" || rest[0] != '~')
    ensures TildeRun(tildes + rest) == |tildes|
  {
    if tildes == "" {
      assert tildes + rest == rest;
    } else {
      assert (tildes + rest)[0] == tildes[0] && (tildes + rest)[1..] == tildes[1..] + rest;
      RunOfTildes(tildes[1..], rest);
    }
  }

  lemma {:induction false} TildesInFront(s: string)
    ensures AllTildes(s[..TildeRun(s)]) && (TildeRun(s) < |s| ==> s[TildeRun(s)] != '~')
  {
    if s != "" && s[0] == '~' {
      TildesInFront(s[1..]);
      var n := TildeRun(s);
      assert s[..n] == [s[0]] + s[1..][..n - 1];
    }
  }

  lemma RunOfLine(line: string, t: string)
    requires SkipBlanks(line) == t && |line| - |t| <= 3 && TildeRun(t) >= 3
    ensures FenceRun(line) == TildeRun(t) && FenceRest(line) == t[TildeRun(t)..]
  {
  }

  lemma RunOfFenceLine(line: string, blanks: string, tildes: string, rest: string)
    requires IsFenceLine(line, blanks, tildes, rest)
    ensures FenceRun(line) == |tildes| && FenceRest(line) == rest
  {
    RunOfTildes(tildes, rest);
    SkipsBlanks(blanks, tildes + rest);
    RunOfLine(line, tildes + rest);
    assert (tildes + rest)[|tildes|..] == rest;
  }

  lemma FenceMeans(line: string, t: string)
    requires IsFence(line) && t == SkipBlanks(line)
    ensures |line| - |t| <= 3 && TildeRun(t) >= 3 && FenceRun(line) == TildeRun(t)
    ensures FenceRest(line) == t[TildeRun(t)..]
  {
  }

  lemma CutTildes(t: string, n: nat) returns (tildes: string, rest: string)
    requires n == TildeRun(t)
    ensures t == tildes + rest && |tildes| == n && rest == t[n..]
    ensures AllTildes(tildes) && (rest == "" || rest[0] != '~')
  {
    TildesInFront(t);
    tildes, rest := t[..n], t[n..];
  }

  lemma FenceLineOf(line: string) returns (blanks: string, tildes: string, rest: string)
    requires IsFence(line)
    ensures IsFenceLine(line, blanks, tildes, rest) && |tildes| == FenceRun(line) && rest == FenceRest(line)
  {
    var t;
    blanks, t := BlanksInFront(line);
    FenceMeans(line, t);
    tildes, rest := CutTildes(t, FenceRun(line));
  }

  /** A line opens a fence of `n` tildes exactly if it is blanks, `n` tildes and no tilde next. */
  lemma OpeningLines(line: string, n: nat)
    ensures IsFence(line) && FenceRun(line) == n <==> OpensFence(line, n)
  {
    if IsFence(line) {
      var blanks, tildes, rest := FenceLineOf(line);
    }
    if OpensFence(line, n) {
      var blanks, tildes, rest :| IsFenceLine(line, blanks, tildes, rest) && |tildes| == n;
      RunOfFenceLine(line, blanks, tildes, rest);
    }
  }

  lemma SpacesOnly(s: string)
    ensures (forall c :: c in s ==> IsSpace(c)) <==> AllSpaces(s)
  {
  }

  /** It closes one of `n` exactly if it opens one of as many or more and nothing but white space follows. */
  lemma ClosingLines(line: string, n: nat)
    ensures Closes(line, n) <==> ClosesFence(line, n)
  {
    SpacesOnly(FenceRest(line));
    if Closes(line, n) {
      var blanks, tildes, rest := FenceLineOf(line);
    }
    if ClosesFence(line, n) {
      var blanks, tildes, rest :| IsFenceLine(line, blanks, tildes, rest) && |tildes| >= n && AllSpaces(rest);
      RunOfFenceLine(line, blanks, tildes, rest);
    }
  }

  // ----- the text around fences -----

  ghost predicate NoneOpens(ls: seq<string>) { forall l, n :: l in ls ==> !OpensFence(l, n) }

  ghost predicate NoneCloses(ls: seq<string>, n: nat) { forall l :: l in ls ==> !ClosesFence(l, n) }

  lemma NoneOpensIs(ls: seq<string>)
    requires NoneOpens(ls)
    ensures NoFence(ls)
  {
    forall l | l in ls ensures !IsFence(l) {
      OpeningLines(l, FenceRun(l));
    }
  }

  /** Without a fence a text is escaped as one block. */
  lemma ProseAlone(s: string, d: Digits)
    requires NoneOpens(LinesOf(s))
    ensures EscapeText(s, d) == EscapeAround(s, d)
  {
    var ls := LinesOf(s);
    NoneOpensIs(ls);
    JoinLines(s);
    RenderPlain(ls, [], d);
    assert ls + [] == ls;
    if ls == [] {
      SubOfNothing(d);
    }
  }

  lemma SubOfNothing(d: Digits)
    ensures EscapeAround("", d) == ""
  {
  }

  /** The lines above the first fence are escaped as one block, and what follows as a text of its own. */
  lemma ProseAboveFence(plain: seq<string>, rest: seq<string>, n: nat, d: Digits)
    requires AreLines(plain + rest) && NoneOpens(plain) && rest != [] && OpensFence(rest[0], n)
    ensures EscapeText(Join(plain + rest), d) == EscapeAround(Join(plain), d) + EscapeText(Join(rest), d)
  {
    NoneOpensIs(plain);
    OpeningLines(rest[0], n);
    LinesJoin(plain + rest);
    LastLinesAreLines(plain + rest, |plain|);
    assert (plain + rest)[|plain|..] == rest;
    LinesJoin(rest);
    RenderPlain(plain, rest, d);
    SubOfNothing(d);
  }

  lemma {:induction false} OpenFenceCopies(body: seq<string>, tail: seq<string>, n: nat, d: Digits)
    requires n > 0 && NoneCloses(body, n)
    ensures Rendered(body + tail, n, d) == Join(body) + Rendered(tail, n, d)
  {
    if body == [] {
      assert body + tail == tail;
    } else {
      assert body + tail == [body[0]] + (body[1..] + tail);
      ClosingLines(body[0], n);
      RenderFenced(body[0], body[1..] + tail, n, d);
      OpenFenceCopies(body[1..], tail, n, d);
    }
  }

  lemma FourTexts(a: string, b: string, c: string, e: string)
    ensures a + (b + (c + e)) == a + b + c + e
  {
  }

  lemma FenceText(opening: string, body: seq<string>, closing: string, t: string)
    requires AreLines([opening] + (body + ([closing] + LinesOf(t))))
    ensures LinesOf(opening + Join(body) + closing + t) == [opening] + (body + ([closing] + LinesOf(t)))
  {
    var end := [closing] + LinesOf(t);
    var ls := [opening] + (body + end);
    LinesJoin(ls);
    JoinLines(t);
    assert ls[1..] == body + end && end[1..] == LinesOf(t);
    JoinAppend(body, end);
    FourTexts(opening, Join(body), closing, t);
  }

  /** A closed fence is copied, and the text behind it is escaped as a text of its own. */
  lemma FenceIsCopied(opening: string, n: nat, body: seq<string>, closing: string, t: string, d: Digits)
    requires AreLines([opening] + (body + ([closing] + LinesOf(t))))
    requires OpensFence(opening, n) && NoneCloses(body, n) && ClosesFence(closing, n)
    ensures EscapeText(opening + Join(body) + closing + t, d)
      == opening + Join(body) + closing + EscapeText(t, d)
  {
    var end := [closing] + LinesOf(t);
    FenceText(opening, body, closing, t);
    OpeningLines(opening, n);
    ClosingLines(closing, n);
    RenderOpening(opening, body + end, d);
    OpenFenceCopies(body, end, n, d);
    RenderFenced(closing, LinesOf(t), n, d);
    FourTexts(opening, Join(body), closing, EscapeText(t, d));
  }

  /** A fence that nothing closes is copied to the end of the text. */
  lemma UnclosedFenceIsCopied(opening: string, n: nat, body: seq<string>, d: Digits)
    requires AreLines([opening] + body) && OpensFence(opening, n) && NoneCloses(body, n)
    ensures EscapeText(opening + Join(body), d) == opening + Join(body)
  {
    LinesJoin([opening] + body);
    assert ([opening] + body)[1..] == body;
    OpeningLines(opening, n);
    RenderOpening(opening, body, d);
    OpenFenceCopies(body, [], n, d);
    assert body + [] == body;
    assert Join(body) + "" == Join(body);
  }
}

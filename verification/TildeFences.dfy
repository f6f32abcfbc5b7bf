/** Escaping a whole text: tilde fences are copied, what stands between them is escaped block by block. */
module TildeFences {
  import opened Text
  import opened Lines
  import opened TildeEscape
  import opened InlineCode

  // ----- fences -----

  function TildeRun(s: string): (n: nat)
    ensures n <= |s|
  {
    if s != "" && s[0] == '~' then 1 + TildeRun(s[1..]) else 0
  }

  /** The tildes of a fence line: at least three behind at most three blanks; 0 for any other line. */
  function FenceRun(line: string): nat {
    var t := SkipBlanks(line);
    if |line| - |t| <= 3 && TildeRun(t) >= 3 then TildeRun(t) else 0
  }

  predicate IsFence(line: string) { FenceRun(line) > 0 }

  function FenceRest(line: string): string { SkipBlanks(line)[TildeRun(SkipBlanks(line))..] }

  /** A fence of at least `n` tildes with only white space behind them. */
  predicate Closes(line: string, n: nat) {
    IsFence(line) && FenceRun(line) >= n && forall c :: c in FenceRest(line) ==> IsSpace(c)
  }

  // ----- blocks -----

  datatype Block = Fenced(line: string) | Prose(text: string)

  function PlainCount(ls: seq<string>): (m: nat)
    ensures m <= |ls| && forall i :: 0 <= i < m ==> !IsFence(ls[i])
    ensures m < |ls| ==> IsFence(ls[m])
  {
    if ls == [] || IsFence(ls[0]) then 0 else 1 + PlainCount(ls[1..])
  }

  /** The blocks of the lines behind an open fence of `n` tildes, or behind none. */
  function Blocks(ls: seq<string>, n: nat): seq<Block>
    decreases |ls|
  {
    if ls == [] then []
    else if n > 0 then [Fenced(ls[0])] + Blocks(ls[1..], if Closes(ls[0], n) then 0 else n)
    else if IsFence(ls[0]) then [Fenced(ls[0])] + Blocks(ls[1..], FenceRun(ls[0]))
    else [Prose(Join(ls[..PlainCount(ls)]))] + Blocks(ls[PlainCount(ls)..], 0)
  }

  function EscapedBlock(b: Block, d: Digits): Block {
    match b
    case Fenced(_) => b
    case Prose(text) => Prose(EscapeAround(text, d))
  }

  function EscapedBlocks(bs: seq<Block>, d: Digits): seq<Block> {
    if bs == [] then [] else [EscapedBlock(bs[0], d)] + EscapedBlocks(bs[1..], d)
  }

  function TextOf(bs: seq<Block>): string {
    if bs == [] then "" else (match bs[0] case Fenced(line) => line case Prose(text) => text) + TextOf(bs[1..])
  }

  function Rendered(ls: seq<string>, n: nat, d: Digits): string { TextOf(EscapedBlocks(Blocks(ls, n), d)) }

  function EscapeText(s: string, d: Digits): string { Rendered(LinesOf(s), 0, d) }

  /** The variables of the loop over the lines. */
  datatype State = State(escaped: string, plain: seq<string>, fence: nat)

  function Feed(st: State, line: string, d: Digits): State {
    if st.fence > 0 then State(st.escaped + line, st.plain, if Closes(line, st.fence) then 0 else st.fence)
    else if IsFence(line) then State(st.escaped + Flushed(st.plain, d) + line, [], FenceRun(line))
    else State(st.escaped, st.plain + [line], 0)
  }

  function Fed(st: State, ls: seq<string>, d: Digits): string
    decreases |ls|
  {
    if ls == [] then st.escaped + Flushed(st.plain, d) else Fed(Feed(st, ls[0], d), ls[1..], d)
  }

  /** `escape_numeric_tildes_for_markdown` */
  method EscapeNumericTildes(text: string, d: Digits) returns (escaped: string)
    ensures escaped == EscapeText(text, d)
  {
    escaped := "";
    var plain: seq<string> := [];
    var fence := 0;
    var ls := LinesOf(text);
    for i := 0 to |ls|
      invariant Fed(State(escaped, plain, fence), ls[i..], d) == Fed(State("", [], 0), ls, d)
    {
      var line := ls[i];
      assert ls[i..][1..] == ls[i + 1..];
      if fence > 0 {
        escaped := escaped + line;
        if Closes(line, fence) {
          fence := 0;
        }
        continue;
      }
      if IsFence(line) {
        var flushed := Flush(plain, d);
        plain := [];
        fence := FenceRun(line);
        escaped := escaped + flushed + line;
        continue;
      }
      plain := plain + [line];
    }
    var flushed := Flush(plain, d);
    escaped := escaped + flushed;
    FedIsRendered(State("", [], 0), ls, d);
    assert [] + ls == ls;
  }

  predicate NoFence(ls: seq<string>) { forall l :: l in ls ==> !IsFence(l) }

  function Flushed(plain: seq<string>, d: Digits): string { if plain == [] then "" else EscapeAround(Join(plain), d) }

  method Flush(plain: seq<string>, d: Digits) returns (flushed: string)
    ensures flushed == Flushed(plain, d)
  {
    if plain == [] {
      return "";
    }
    flushed := EscapeOutsideInlineCode(Join(plain), d);
  }

  lemma TextOfFirst(b: Block, bs: seq<Block>, d: Digits)
    ensures TextOf(EscapedBlocks([b] + bs, d))
      == (match b case Fenced(line) => line case Prose(text) => EscapeAround(text, d)) + TextOf(EscapedBlocks(bs, d))
  {
    assert ([b] + bs)[1..] == bs;
    var xs := EscapedBlocks(bs, d);
    assert ([EscapedBlock(b, d)] + xs)[1..] == xs;
  }

  lemma RenderFenced(line: string, rest: seq<string>, n: nat, d: Digits)
    requires n > 0
    ensures Rendered([line] + rest, n, d) == line + Rendered(rest, if Closes(line, n) then 0 else n, d)
  {
    assert ([line] + rest)[1..] == rest;
    TextOfFirst(Fenced(line), Blocks(rest, if Closes(line, n) then 0 else n), d);
  }

  lemma RenderOpening(line: string, rest: seq<string>, d: Digits)
    requires IsFence(line)
    ensures Rendered([line] + rest, 0, d) == line + Rendered(rest, FenceRun(line), d)
  {
    assert ([line] + rest)[1..] == rest;
    TextOfFirst(Fenced(line), Blocks(rest, FenceRun(line)), d);
  }

  lemma {:induction false} PlainCountIs(plain: seq<string>, rest: seq<string>)
    requires NoFence(plain) && (rest == [] || IsFence(rest[0]))
    ensures PlainCount(plain + rest) == |plain|
    decreases |plain|
  {
    if plain == [] {
      assert plain + rest == rest;
    } else {
      assert (plain + rest)[1..] == plain[1..] + rest;
      PlainCountIs(plain[1..], rest);
    }
  }

  /** Lines without a fence up to a fence or the end make one block. */
  lemma PlainBlock(plain: seq<string>, rest: seq<string>)
    requires plain != [] && NoFence(plain) && (rest == [] || IsFence(rest[0]))
    ensures Blocks(plain + rest, 0) == [Prose(Join(plain))] + Blocks(rest, 0)
  {
    PlainCountIs(plain, rest);
    assert (plain + rest)[..|plain|] == plain && (plain + rest)[|plain|..] == rest;
    assert plain[0] in plain;
  }

  lemma RenderPlain(plain: seq<string>, rest: seq<string>, d: Digits)
    requires NoFence(plain) && (rest == [] || IsFence(rest[0]))
    ensures Rendered(plain + rest, 0, d) == Flushed(plain, d) + Rendered(rest, 0, d)
  {
    if plain == [] {
      assert plain + rest == rest;
    } else {
      PlainBlock(plain, rest);
      TextOfFirst(Prose(Join(plain)), Blocks(rest, 0), d);
    }
  }

  lemma Chain(a: string, b: string, c: string, e: string)
    ensures a + (b + (c + e)) == (a + b + c) + e
  {
  }

  /** What has been written and what is still to be rendered make the same text after the line as before. */
  ghost predicate Keeps(st: State, next: State, line: string, rest: seq<string>, d: Digits) {
    st.escaped + Rendered(st.plain + ([line] + rest), st.fence, d)
      == next.escaped + Rendered(next.plain + rest, next.fence, d)
  }

  lemma FeedFenced(st: State, line: string, rest: seq<string>, d: Digits)
    requires st.fence > 0 && st.plain == []
    ensures Keeps(st, Feed(st, line, d), line, rest, d)
  {
    assert [] + ([line] + rest) == [line] + rest && [] + rest == rest;
    RenderFenced(line, rest, st.fence, d);
    Chain(st.escaped, line, "", Rendered(rest, if Closes(line, st.fence) then 0 else st.fence, d));
    assert "" + Rendered(rest, if Closes(line, st.fence) then 0 else st.fence, d)
      == Rendered(rest, if Closes(line, st.fence) then 0 else st.fence, d);
    assert st.escaped + line + "" == st.escaped + line;
  }

  lemma FeedOpening(st: State, line: string, rest: seq<string>, d: Digits)
    requires st.fence == 0 && IsFence(line) && NoFence(st.plain)
    ensures Keeps(st, Feed(st, line, d), line, rest, d)
  {
    RenderPlain(st.plain, [line] + rest, d);
    RenderOpening(line, rest, d);
    Chain(st.escaped, Flushed(st.plain, d), line, Rendered(rest, FenceRun(line), d));
    assert [] + rest == rest;
  }

  lemma PlainGrows(plain: seq<string>, line: string, rest: seq<string>)
    ensures plain + ([line] + rest) == (plain + [line]) + rest
  {
  }

  lemma FeedPlain(st: State, line: string, rest: seq<string>, d: Digits)
    requires st.fence == 0 && !IsFence(line)
    ensures Keeps(st, Feed(st, line, d), line, rest, d)
  {
    PlainGrows(st.plain, line, rest);
  }

  lemma FeedKeeps(st: State, line: string, rest: seq<string>, d: Digits)
    requires NoFence(st.plain) && (st.fence > 0 ==> st.plain == [])
    ensures Keeps(st, Feed(st, line, d), line, rest, d)
    ensures var next := Feed(st, line, d); NoFence(next.plain) && (next.fence > 0 ==> next.plain == [])
  {
    if st.fence > 0 {
      FeedFenced(st, line, rest, d);
    } else if IsFence(line) {
      FeedOpening(st, line, rest, d);
    } else {
      FeedPlain(st, line, rest, d);
    }
  }

  /** The loop renders the blocks. */
  lemma {:induction false} FedIsRendered(st: State, ls: seq<string>, d: Digits)
    requires NoFence(st.plain) && (st.fence > 0 ==> st.plain == [])
    ensures Fed(st, ls, d) == st.escaped + Rendered(st.plain + ls, st.fence, d)
    decreases |ls|
  {
    if ls == [] {
      FedAtEnd(st, d);
    } else {
      assert ls == [ls[0]] + ls[1..];
      FeedKeeps(st, ls[0], ls[1..], d);
      FedIsRendered(Feed(st, ls[0], d), ls[1..], d);
    }
  }

  lemma FedAtEnd(st: State, d: Digits)
    requires NoFence(st.plain) && (st.fence > 0 ==> st.plain == [])
    ensures Rendered(st.plain + [], st.fence, d) == Flushed(st.plain, d)
  {
    assert st.plain + [] == st.plain;
    if st.plain != [] {
      RenderPlain(st.plain, [], d);
      assert Rendered([], 0, d) == "";
    }
  }

  // ----- insertions keep lines and fences -----

  lemma SplitCons(s: string, m: nat)
    requires 1 <= m <= |s|
    ensures s[..m] == [s[0]] + s[1..][..m - 1] && s[m..] == s[1..][m - 1..]
  {
  }

  ghost predicate SplitInserted(x: string, m: nat, y: string, n: nat)
    requires m <= |x| && n <= |y|
  {
    Inserted(x[..m], y[..n]) && Inserted(x[m..], y[n..])
  }

  lemma SplitInsertedCons(x: string, m: nat, y: string, n: nat)
    requires x != "" && y != "" && x[0] == y[0] && 1 <= m <= |x| && 1 <= n <= |y|
    requires SplitInserted(x[1..], m - 1, y[1..], n - 1)
    ensures SplitInserted(x, m, y, n)
  {
    SplitCons(x, m);
    SplitCons(y, n);
    InsertedSame([x[0]]);
    InsertedAppend([x[0]], [y[0]], x[1..][..m - 1], y[1..][..n - 1]);
  }

  lemma SplitInsertedEscape(x: string, m: nat, y: string, n: nat)
    requires x != "" && |y| > 1 && x[0] == y[1] == '~' && y[0] == '\\' && 1 <= m <= |x| && 2 <= n <= |y|
    requires SplitInserted(x[1..], m - 1, y[2..], n - 2)
    ensures SplitInserted(x, m, y, n)
  {
    SplitCons(x, m);
    SplitCons(y, n);
    SplitCons(y[1..], n - 1);
    assert y[1..][1..] == y[2..];
    InsertedEscape(x[1..][..m - 1], y[2..][..n - 2]);
  }

  /** The first line and the rest take the insertions apart. */
  lemma {:induction false} LineEndInserted(x: string, y: string)
    requires Inserted(x, y)
    ensures SplitInserted(x, LineEnd(x), y, LineEnd(y))
    decreases |x|
  {
    if x != "" {
      InsertedHead(x, y);
      if x[0] == '~' && |y| > 1 && y[0] == '\\' {
        LineEndInserted(x[1..], y[2..]);
        assert y[1..][1..] == y[2..];
        assert LineEnd(y[1..]) == 1 + LineEnd(y[2..]);
        SplitInsertedEscape(x, LineEnd(x), y, LineEnd(y));
      } else if IsLineBreak(x[0]) {
        if |x| > 1 {
          InsertedHead(x[1..], y[1..]);
        }
        LineBreakInserted(x, y);
      } else {
        LineEndInserted(x[1..], y[1..]);
        SplitInsertedCons(x, LineEnd(x), y, LineEnd(y));
      }
    }
  }

  lemma LineBreakInserted(x: string, y: string)
    requires x != "" && y != "" && IsLineBreak(x[0]) && x[0] == y[0] && Inserted(x[1..], y[1..])
    ensures SplitInserted(x, LineEnd(x), y, LineEnd(y))
  {
    assert SplitInserted(x[1..], 0, y[1..], 0);
    if |x| > 1 {
      InsertedHead(x[1..], y[1..]);
      if x[0] == '\r' && x[1] == '\n' {
        assert SplitInserted(x[1..][1..], 0, y[1..][1..], 0);
        SplitInsertedCons(x[1..], 1, y[1..], 1);
      }
    }
    SplitInsertedCons(x, LineEnd(x), y, LineEnd(y));
  }

  predicate AllInserted(a: seq<string>, b: seq<string>) {
    |a| == |b| && forall i :: 0 <= i < |a| ==> Inserted(a[i], b[i])
  }

  lemma {:induction false} LinesInserted(x: string, y: string)
    requires Inserted(x, y)
    ensures AllInserted(LinesOf(x), LinesOf(y))
    decreases |x|
  {
    if x != "" {
      InsertedHead(x, y);
      LineEndInserted(x, y);
      LinesInserted(x[LineEnd(x)..], y[LineEnd(y)..]);
    }
  }

  lemma {:induction false} JoinInserted(a: seq<string>, b: seq<string>)
    requires AllInserted(a, b)
    ensures Inserted(Join(a), Join(b))
  {
    if a != [] {
      JoinInserted(a[1..], b[1..]);
      InsertedAppend(a[0], b[0], Join(a[1..]), Join(b[1..]));
    }
  }

  lemma {:induction false} InsertedPrefixIsUnique(x: string, p: string, q: string, y: string)
    requires Inserted(x, p) && Inserted(x, q) && p <= y && q <= y
    ensures p == q
    decreases |x|
  {
    if x != "" {
      assert p[0] == y[0] == q[0];
      if x[0] == '~' && |p| > 1 && p[0] == '\\' {
        InsertedPrefixIsUnique(x[1..], p[2..], q[2..], y[2..]);
        assert p == ['\\', '~'] + p[2..] && q == ['\\', '~'] + q[2..];
      } else {
        InsertedPrefixIsUnique(x[1..], p[1..], q[1..], y[1..]);
        assert p == [p[0]] + p[1..] && q == [q[0]] + q[1..];
      }
    }
  }

  /** Lines stay lines when backslashes are inserted in them. */
  lemma {:induction false} AreLinesInserted(a: seq<string>, b: seq<string>)
    requires AreLines(a) && AllInserted(a, b)
    ensures AreLines(b)
  {
    if a != [] {
      AreLinesInserted(a[1..], b[1..]);
      JoinInserted(a, b);
      var x, y := Join(a), Join(b);
      LineEndInserted(x, y);
      assert x[..|a[0]|] == a[0] && y == b[0] + Join(b[1..]);
      InsertedPrefixIsUnique(a[0], b[0], y[..LineEnd(y)], y);
      InsertedHead(a[0], b[0]);
    }
  }

  lemma {:induction false} TildeRunInserted(x: string, y: string)
    requires Inserted(x, y)
    ensures TildeRun(y) <= TildeRun(x)
  {
    if x != "" && y[0] == '~' {
      TildeRunInserted(x[1..], y[1..]);
    }
  }

  /** Insertions make no fences. */
  lemma FenceInserted(x: string, y: string)
    requires Inserted(x, y) && !IsFence(x)
    ensures !IsFence(y)
  {
    SkipBlanksInserted(x, y);
    BlanksKept(x, y);
    TildeRunInserted(SkipBlanks(x), SkipBlanks(y));
  }

  lemma {:induction false} BlanksKept(x: string, y: string)
    requires Inserted(x, y)
    ensures |x| - |SkipBlanks(x)| == |y| - |SkipBlanks(y)|
  {
    if x != "" {
      InsertedHead(x, y);
      if IsBlank(x[0]) {
        BlanksKept(x[1..], y[1..]);
      }
    }
  }

  // ----- the lines of the result -----

  /** The lines of the result behind an open fence of `n` tildes, or behind none. */
  function EscapedLines(ls: seq<string>, n: nat, d: Digits): seq<string>
    decreases |ls|
  {
    if ls == [] then []
    else if n > 0 then [ls[0]] + EscapedLines(ls[1..], if Closes(ls[0], n) then 0 else n, d)
    else if IsFence(ls[0]) then [ls[0]] + EscapedLines(ls[1..], FenceRun(ls[0]), d)
    else LinesOf(EscapeAround(Join(ls[..PlainCount(ls)]), d)) + EscapedLines(ls[PlainCount(ls)..], 0, d)
  }

  lemma PlainLines(plain: seq<string>, d: Digits)
    requires AreLines(plain) && NoFence(plain)
    ensures var p := LinesOf(EscapeAround(Join(plain), d));
      AllInserted(plain, p) && NoFence(p) && Join(p) == EscapeAround(Join(plain), d)
  {
    var p := LinesOf(EscapeAround(Join(plain), d));
    EscapeAroundInserts(Join(plain), d);
    LinesInserted(Join(plain), EscapeAround(Join(plain), d));
    LinesJoin(plain);
    JoinLines(EscapeAround(Join(plain), d));
    forall l | l in p ensures !IsFence(l) {
      var i :| 0 <= i < |p| && p[i] == l;
      FenceInserted(plain[i], p[i]);
    }
  }

  lemma AllInsertedAppend(a: seq<string>, b: seq<string>, c: seq<string>, e: seq<string>)
    requires AllInserted(a, b) && AllInserted(c, e)
    ensures AllInserted(a + c, b + e)
  {
  }

  lemma InsertedFirst(ls: seq<string>, tail: seq<string>)
    requires ls != [] && AllInserted(ls[1..], tail)
    ensures AllInserted(ls, [ls[0]] + tail)
  {
    InsertedSame(ls[0]);
    assert forall i :: 1 <= i < |ls| ==> ls[i] == ls[1..][i - 1] && ([ls[0]] + tail)[i] == tail[i - 1];
  }

  lemma FencedInserted(ls: seq<string>, n: nat, next: nat, tail: seq<string>, d: Digits)
    requires ls != [] && (n > 0 || IsFence(ls[0]))
    requires next == if n == 0 then FenceRun(ls[0]) else if Closes(ls[0], n) then 0 else n
    requires tail == EscapedLines(ls[1..], next, d) && AllInserted(ls[1..], tail)
    ensures AllInserted(ls, EscapedLines(ls, n, d)) && EscapedLines(ls, n, d)[0] == ls[0]
  {
    InsertedFirst(ls, tail);
    assert EscapedLines(ls, n, d) == [ls[0]] + tail;
  }

  lemma {:induction false} EscapedLinesAreInserted(ls: seq<string>, n: nat, d: Digits)
    requires AreLines(ls)
    ensures AllInserted(ls, EscapedLines(ls, n, d))
    ensures n == 0 && ls != [] && IsFence(ls[0]) ==> EscapedLines(ls, n, d)[0] == ls[0]
    decreases |ls|
  {
    if ls != [] {
      if n > 0 || IsFence(ls[0]) {
        var next := if n == 0 then FenceRun(ls[0]) else if Closes(ls[0], n) then 0 else n;
        LastLinesAreLines(ls, 1);
        EscapedLinesAreInserted(ls[1..], next, d);
        FencedInserted(ls, n, next, EscapedLines(ls[1..], next, d), d);
      } else {
        var m := PlainCount(ls);
        LastLinesAreLines(ls, m);
        EscapedLinesAreInserted(ls[m..], 0, d);
        EscapedPlain(ls, n, m, d);
      }
    }
  }

  lemma PlainPart(ls: seq<string>, m: nat, d: Digits)
    requires AreLines(ls) && m == PlainCount(ls)
    ensures AllInserted(ls[..m], LinesOf(EscapeAround(Join(ls[..m]), d)))
  {
    FirstLinesAreLines(ls, m);
    forall l | l in ls[..m] ensures !IsFence(l) {
      var i :| 0 <= i < m && ls[i] == l;
    }
    PlainLines(ls[..m], d);
  }

  lemma EscapedAbove(ls: seq<string>, m: nat, p: seq<string>, tail: seq<string>, d: Digits)
    requires ls != [] && !IsFence(ls[0]) && m == PlainCount(ls)
    requires p == LinesOf(EscapeAround(Join(ls[..m]), d)) && tail == EscapedLines(ls[m..], 0, d)
    ensures EscapedLines(ls, 0, d) == p + tail
  {
  }

  lemma InTwo(ls: seq<string>, m: nat)
    requires m <= |ls|
    ensures ls[..m] + ls[m..] == ls
  {
  }

  lemma EscapedPlain(ls: seq<string>, n: nat, m: nat, d: Digits)
    requires AreLines(ls) && ls != [] && n == 0 && !IsFence(ls[0]) && m == PlainCount(ls)
    requires AllInserted(ls[m..], EscapedLines(ls[m..], 0, d))
    ensures AllInserted(ls, EscapedLines(ls, n, d))
  {
    var p, tail := LinesOf(EscapeAround(Join(ls[..m]), d)), EscapedLines(ls[m..], 0, d);
    PlainPart(ls, m, d);
    EscapedAbove(ls, m, p, tail, d);
    AllInsertedAppend(ls[..m], p, ls[m..], tail);
    InTwo(ls, m);
  }

  lemma FirstEscaped(b: Block, bs: seq<Block>, d: Digits)
    ensures EscapedBlocks([b] + bs, d) == [EscapedBlock(b, d)] + EscapedBlocks(bs, d)
  {
    assert ([b] + bs)[1..] == bs;
  }

  /** The lines of the result fall into the escaped blocks. */
  lemma {:induction false} BlocksOfEscapedLines(ls: seq<string>, n: nat, d: Digits)
    requires AreLines(ls)
    ensures Blocks(EscapedLines(ls, n, d), n) == EscapedBlocks(Blocks(ls, n), d)
    decreases |ls|
  {
    if ls != [] {
      var y := EscapedLines(ls, n, d);
      if n > 0 || IsFence(ls[0]) {
        var next := if n == 0 then FenceRun(ls[0]) else if Closes(ls[0], n) then 0 else n;
        BlocksOfEscapedLines(ls[1..], next, d);
        assert y[1..] == EscapedLines(ls[1..], next, d);
        FirstEscaped(Fenced(ls[0]), Blocks(ls[1..], next), d);
      } else {
        var m := PlainCount(ls);
        var p, rest := LinesOf(EscapeAround(Join(ls[..m]), d)), EscapedLines(ls[m..], 0, d);
        FirstLinesAreLines(ls, m);
        LastLinesAreLines(ls, m);
        PlainLines(ls[..m], d);
        EscapedLinesAreInserted(ls[m..], 0, d);
        PlainBlock(p, rest);
        BlocksOfEscapedLines(ls[m..], 0, d);
        FirstEscaped(Prose(Join(ls[..m])), Blocks(ls[m..], 0), d);
      }
    }
  }

  lemma {:induction false} TextOfBlocks(ls: seq<string>, n: nat)
    ensures TextOf(Blocks(ls, n)) == Join(ls)
    decreases |ls|
  {
    if ls != [] {
      if n > 0 || IsFence(ls[0]) {
        TextOfBlocks(ls[1..], if n == 0 then FenceRun(ls[0]) else if Closes(ls[0], n) then 0 else n);
      } else {
        var m := PlainCount(ls);
        TextOfBlocks(ls[m..], 0);
        assert ls == ls[..m] + ls[m..];
        JoinAppend(ls[..m], ls[m..]);
      }
    }
  }

  // ----- the results -----

  lemma LinesOfResult(s: string, d: Digits)
    ensures LinesOf(EscapeText(s, d)) == EscapedLines(LinesOf(s), 0, d)
  {
    var ls := LinesOf(s);
    JoinLines(s);
    EscapedLinesAreInserted(ls, 0, d);
    AreLinesInserted(ls, EscapedLines(ls, 0, d));
    BlocksOfEscapedLines(ls, 0, d);
    TextOfBlocks(EscapedLines(ls, 0, d), 0);
    LinesJoin(EscapedLines(ls, 0, d));
  }

  /** The result is the text with single backslashes inserted before some of its tildes. */
  lemma ResultInserts(s: string, d: Digits)
    ensures Inserted(s, EscapeText(s, d))
  {
    JoinLines(s);
    JoinLines(EscapeText(s, d));
    LinesOfResult(s, d);
    EscapedLinesAreInserted(LinesOf(s), 0, d);
    JoinInserted(LinesOf(s), EscapedLines(LinesOf(s), 0, d));
  }

  /** The result has the same blocks: fenced lines as they were, the prose between them escaped. */
  lemma BlocksOfResult(s: string, d: Digits)
    ensures Blocks(LinesOf(EscapeText(s, d)), 0) == EscapedBlocks(Blocks(LinesOf(s), 0), d)
  {
    JoinLines(s);
    LinesOfResult(s, d);
    BlocksOfEscapedLines(LinesOf(s), 0, d);
  }

  lemma {:induction false} EscapedBlocksTwice(bs: seq<Block>, d: Digits)
    ensures EscapedBlocks(EscapedBlocks(bs, d), d) == EscapedBlocks(bs, d)
  {
    if bs != [] {
      EscapedBlocksTwice(bs[1..], d);
      if bs[0].Prose? {
        EscapeAroundTwice(bs[0].text, d);
      }
    }
  }

  /** Escaping twice is escaping once. */
  lemma EscapingTwice(s: string, d: Digits)
    ensures EscapeText(EscapeText(s, d), d) == EscapeText(s, d)
  {
    BlocksOfResult(s, d);
    EscapedBlocksTwice(Blocks(LinesOf(s), 0), d);
  }

  /** Outside fences and code spans of the result the pattern matches nowhere. */
  lemma NoTargetLeft(s: string, d: Digits, b: Block, p: Piece)
    requires b in Blocks(LinesOf(EscapeText(s, d)), 0) && b.Prose? && p in Pieces(b.text) && p.Plain?
    ensures forall i :: 0 <= i < |p.text| ==> !TargetAt(p.text, i, d)
  {
    BlocksOfResult(s, d);
    var x := EscapedFrom(Blocks(LinesOf(s), 0), b, d);
    PiecesOfResult(x, d);
    NoTargetInPieces(Pieces(x), d);
  }

  lemma {:induction false} EscapedFrom(bs: seq<Block>, b: Block, d: Digits) returns (x: string)
    requires b in EscapedBlocks(bs, d) && b.Prose?
    ensures b.text == EscapeAround(x, d)
  {
    if b == EscapedBlock(bs[0], d) {
      x := bs[0].text;
    } else {
      x := EscapedFrom(bs[1..], b, d);
    }
  }
}

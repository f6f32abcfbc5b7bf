/** Backtick code spans within a text, and escaping around them. */
module InlineCode {
  import opened Seqs
  import opened TildeEscape

  /** A text cut in two, what was cut out standing between the parts. */
  datatype Cut = Cut(before: string, after: string)

  datatype Found = Found(before: string, span: string, after: string)

  function Ticks(k: nat): string { seq(k, _ => '`') }

  function RunLength(s: string): (n: nat)
    ensures n <= |s|
  {
    if s != "" && s[0] == '`' then 1 + RunLength(s[1..]) else 0
  }

  lemma PutBack(s: string, a: string, b: string, c: string)
    requires s != "" && s[1..] == a + b + c
    ensures s == ([s[0]] + a) + b + c
  {
    assert s == [s[0]] + s[1..];
  }

  lemma FourParts(p: string, b: string, t: string, a: string)
    ensures ((p + b + t) + a)[|p|..] == b + t + a && ((p + b + t) + a)[..|p|] == p
  {
  }

  lemma FromThird(s: string, k: nat, b: string, t: string, a: string)
    requires k <= |s| && s[k..] == b + t + a
    ensures s == (s[..k] + b + t) + a
  {
    FourParts(s[..k], b, t, a);
    assert s == s[..k] + s[k..];
  }

  /** Cut at the first place where `k` backticks stand. */
  function CutAtRun(s: string, k: nat): (r: Option<Cut>)
    requires k > 0
    ensures r.Some? ==> |r.value.before| + k + |r.value.after| == |s| && s == r.value.before + Ticks(k) + r.value.after
  {
    if RunLength(s) >= k then
      RunIsTicks(s, k);
      Some(Cut("", s[k..]))
    else if s == "" then None
    else
      match CutAtRun(s[1..], k)
      case None => None
      case Some(c) =>
        PutBack(s, c.before, Ticks(k), c.after);
        Some(Cut([s[0]] + c.before, c.after))
  }

  lemma {:induction false} RunIsTicks(s: string, k: nat)
    ensures RunLength(s) >= k <==> k <= |s| && s[..k] == Ticks(k)
  {
    if k > 0 && s != "" {
      RunIsTicks(s[1..], k - 1);
      if k <= |s| {
        assert s[..k] == [s[0]] + s[1..][..k - 1];
        assert Ticks(k) == ['`'] + Ticks(k - 1);
      }
    }
  }

  /** The span opening at the start of `s` with `k` backticks, or with as many fewer as find a close: `` (`+).*?\1 `` */
  function SpanWith(s: string, k: nat): (r: Option<Cut>)
    requires k <= RunLength(s)
    ensures r.Some? ==> s == r.value.before + r.value.after && |r.value.before| >= 2
  {
    if k == 0 then None
    else
      match CutAtRun(s[k..], k)
      case Some(c) =>
        FromThird(s, k, c.before, Ticks(k), c.after);
        Some(Cut(s[..k] + c.before + Ticks(k), c.after))
      case None => SpanWith(s, k - 1)
  }

  /** The leftmost code span. */
  function FindSpan(s: string): (r: Option<Found>)
    ensures r.Some? ==> s == r.value.before + r.value.span + r.value.after && |r.value.span| >= 2
  {
    if s == "" then None
    else
      match SpanWith(s, RunLength(s))
      case Some(c) => Some(Found("", c.before, c.after))
      case None =>
        match FindSpan(s[1..])
        case None => None
        case Some(f) =>
          PutBack(s, f.before, f.span, f.after);
          Some(f.(before := [s[0]] + f.before))
  }

  /** Escape between the spans and copy them. */
  function EscapeAround(s: string, d: Digits): string
    decreases |s|
  {
    match FindSpan(s)
    case None => Sub(s, d)
    case Some(f) => Sub(f.before, d) + f.span + EscapeAround(f.after, d)
  }

  datatype Piece = Plain(text: string) | Code(text: string)

  /** Plain text and code spans in turn. */
  function Pieces(s: string): seq<Piece>
    decreases |s|
  {
    match FindSpan(s)
    case None => [Plain(s)]
    case Some(f) => [Plain(f.before), Code(f.span)] + Pieces(f.after)
  }

  function EscapedPieces(ps: seq<Piece>, d: Digits): seq<Piece> {
    if ps == [] then []
    else [if ps[0].Plain? then Plain(Sub(ps[0].text, d)) else ps[0]] + EscapedPieces(ps[1..], d)
  }

  /** `_escape_numeric_tildes_outside_inline_code` */
  method EscapeOutsideInlineCode(text: string, d: Digits) returns (escaped: string)
    ensures escaped == EscapeAround(text, d)
  {
    escaped := "";
    var cursor := 0;
    var found := FindSpan(text);
    assert text[0..] == text;
    while found.Some?
      invariant cursor <= |text| && found == FindSpan(text[cursor..])
      invariant escaped + EscapeAround(text[cursor..], d) == EscapeAround(text, d)
      decreases |text| - cursor
    {
      var f := found.value;
      EscapeStep(escaped, text[cursor..], f, d);
      Advance(text, cursor, f.before + f.span, f.after);
      escaped := escaped + Sub(f.before, d) + f.span;
      cursor := cursor + |f.before| + |f.span|;
      found := FindSpan(f.after);
    }
    escaped := escaped + Sub(text[cursor..], d);
  }

  lemma EscapeStep(escaped: string, s: string, f: Found, d: Digits)
    requires FindSpan(s) == Some(f)
    ensures escaped + EscapeAround(s, d) == escaped + Sub(f.before, d) + f.span + EscapeAround(f.after, d)
  {
    assert EscapeAround(s, d) == Sub(f.before, d) + f.span + EscapeAround(f.after, d);
  }

  lemma Advance(text: string, cursor: nat, head: string, tail: string)
    requires cursor <= |text| && text[cursor..] == head + tail
    ensures cursor + |head| <= |text| && text[cursor + |head|..] == tail
  {
    assert text[cursor..][|head|..] == tail;
  }

  // ----- insertions do not move backticks -----

  lemma {:induction false} RunInserted(x: string, y: string, k: nat)
    requires Inserted(x, y) && k <= RunLength(x)
    ensures RunLength(y) == RunLength(x) && y[..k] == x[..k] && Inserted(x[k..], y[k..])
    decreases |x|
  {
    if x != "" {
      InsertedHead(x, y);
      if x[0] == '`' {
        RunInserted(x[1..], y[1..], if k == 0 then 0 else k - 1);
        if k > 0 {
          assert y[..k] == [y[0]] + y[1..][..k - 1] && x[..k] == [x[0]] + x[1..][..k - 1];
          assert x[k..] == x[1..][k - 1..] && y[k..] == y[1..][k - 1..];
        }
      }
    }
  }

  ghost predicate CutInserted(r: Option<Cut>, t: Option<Cut>) {
    match (r, t)
    case (Some(c), Some(e)) => Inserted(c.before, e.before) && Inserted(c.after, e.after)
    case (None, None) => true
    case _ => false
  }

  lemma {:induction false} CutAtRunInserted(x: string, y: string, k: nat)
    requires k > 0 && Inserted(x, y)
    ensures CutInserted(CutAtRun(x, k), CutAtRun(y, k))
    decreases |x|
  {
    RunInserted(x, y, if k <= RunLength(x) then k else 0);
    if RunLength(x) < k && x != "" {
      if x[0] == '~' && |y| > 1 && y[0] == '\\' {
        CutAtRunInserted(x[1..], y[2..], k);
        CutInsertedEscape(x, y, k);
      } else {
        CutAtRunInserted(x[1..], y[1..], k);
        CutInsertedCons(x, y, k);
      }
    }
  }

  lemma CutInsertedCons(x: string, y: string, k: nat)
    requires x != "" && y != "" && x[0] == y[0] && RunLength(x) < k && RunLength(y) < k
    requires CutInserted(CutAtRun(x[1..], k), CutAtRun(y[1..], k))
    ensures CutInserted(CutAtRun(x, k), CutAtRun(y, k))
  {
    CutBehind(x, k);
    CutBehind(y, k);
    if CutAtRun(x[1..], k).Some? {
      InsertedSame([x[0]]);
      InsertedAppend([x[0]], [x[0]], CutAtRun(x[1..], k).value.before, CutAtRun(y[1..], k).value.before);
    }
  }

  lemma CutInsertedEscape(x: string, y: string, k: nat)
    requires x != "" && |y| > 1 && x[0] == y[1] == '~' && y[0] == '\\' && k > 0
    requires CutInserted(CutAtRun(x[1..], k), CutAtRun(y[2..], k))
    ensures CutInserted(CutAtRun(x, k), CutAtRun(y, k))
  {
    CutBehind(x, k);
    CutBehind(y, k);
    assert y[1..][1..] == y[2..];
    CutBehind(y[1..], k);
    if CutAtRun(x[1..], k).Some? {
      InsertedEscape(CutAtRun(x[1..], k).value.before, CutAtRun(y[2..], k).value.before);
    }
  }

  lemma InsertedEscape(x: string, y: string)
    requires Inserted(x, y)
    ensures Inserted(['~'] + x, ['\\'] + (['~'] + y))
  {
    var z := ['\\'] + (['~'] + y);
    assert z[2..] == y && (['~'] + x)[1..] == x;
  }

  lemma CutBehind(s: string, k: nat)
    requires s != "" && RunLength(s) < k
    ensures CutAtRun(s[1..], k).None? ==> CutAtRun(s, k).None?
    ensures CutAtRun(s[1..], k).Some? ==>
      CutAtRun(s, k) == Some(Cut([s[0]] + CutAtRun(s[1..], k).value.before, CutAtRun(s[1..], k).value.after))
  {
  }

  /** Where the first run stands depends only on the text up to its end. */
  lemma {:induction false} CutAtRunLocal(before: string, k: nat, a: string, b: string)
    requires k > 0 && CutAtRun(before + Ticks(k) + a, k) == Some(Cut(before, a))
    ensures CutAtRun(before + Ticks(k) + b, k) == Some(Cut(before, b))
  {
    var x, y := before + Ticks(k) + a, before + Ticks(k) + b;
    RunIsTicks(x, k);
    RunIsTicks(y, k);
    assert x[..k] == y[..k];
    if before == "" {
      assert y[k..] == b;
    } else {
      assert RunLength(x) < k;
      assert x[1..] == before[1..] + Ticks(k) + a && y[1..] == before[1..] + Ticks(k) + b;
      CutBehind(x, k);
      CutBehind(y, k);
      var c := CutAtRun(x[1..], k).value;
      assert [x[0]] + c.before == before;
      assert c.before == ([x[0]] + c.before)[1..];
      CutAtRunLocal(before[1..], k, a, b);
      assert [y[0]] + before[1..] == before;
    }
  }

  lemma {:induction false} SpanWithInserted(x: string, y: string, k: nat)
    requires Inserted(x, y) && k <= RunLength(x)
    ensures RunLength(y) == RunLength(x)
    ensures SpanWith(x, k).None? <==> SpanWith(y, k).None?
  {
    RunInserted(x, y, k);
    if k > 0 {
      CutAtRunInserted(x[k..], y[k..], k);
      SpanWithInserted(x, y, k - 1);
    }
  }

  lemma SpanClosesLocal(span: string, a: string, b: string, k: nat)
    requires 0 < k <= RunLength(span + a) && SpanWith(span + a, k) == Some(Cut(span, a))
    requires CutAtRun((span + a)[k..], k).Some?
    requires k <= RunLength(span + b)
    ensures SpanWith(span + b, k) == Some(Cut(span, b))
  {
    var x, y := span + a, span + b;
    var p, inner := x[..k], CutAtRun(x[k..], k).value.before;
    assert span == p + inner + Ticks(k);
    FourParts(p, inner, Ticks(k), a);
    FourParts(p, inner, Ticks(k), b);
    CutAtRunLocal(inner, k, a, b);
  }

  lemma SpanGoesOn(span: string, a: string, b: string, k: nat)
    requires Inserted(a, b) && k <= RunLength(span + a)
    ensures RunLength(span + b) == RunLength(span + a)
    ensures k > 0 ==> (CutAtRun((span + a)[k..], k).None? <==> CutAtRun((span + b)[k..], k).None?)
  {
    InsertedSame(span);
    InsertedAppend(span, span, a, b);
    RunInserted(span + a, span + b, k);
    if k > 0 {
      CutAtRunInserted((span + a)[k..], (span + b)[k..], k);
    }
  }

  /** A span stays what it is when backslashes are inserted behind it. */
  lemma {:induction false} SpanWithLocal(span: string, a: string, b: string, k: nat)
    requires Inserted(a, b) && k <= RunLength(span + a) && SpanWith(span + a, k) == Some(Cut(span, a))
    ensures RunLength(span + b) == RunLength(span + a)
    ensures SpanWith(span + b, k) == Some(Cut(span, b))
  {
    SpanGoesOn(span, a, b, k);
    if CutAtRun((span + a)[k..], k).Some? {
      SpanClosesLocal(span, a, b, k);
    } else {
      SpanWithLocal(span, a, b, k - 1);
    }
  }

  lemma {:induction false} FindSpanInserted(x: string, y: string)
    requires Inserted(x, y)
    ensures FindSpan(x).None? <==> FindSpan(y).None?
    decreases |x|
  {
    if x != "" {
      SpanWithInserted(x, y, RunLength(x));
      if x[0] == '~' && |y| > 1 && y[0] == '\\' {
        assert y[1..][1..] == y[2..];
        FindSpanInserted(x[1..], y[2..]);
      } else {
        FindSpanInserted(x[1..], y[1..]);
      }
    }
  }

  lemma FindBehind(s: string)
    requires s != "" && SpanWith(s, RunLength(s)).None?
    ensures FindSpan(s) == match FindSpan(s[1..]) {
      case None => None
      case Some(f) => Some(f.(before := [s[0]] + f.before))
    }
  {
  }

  lemma FindHere(span: string, a: string, b: string)
    requires Inserted(a, b) && FindSpan(span + a) == Some(Found("", span, a))
    ensures FindSpan(span + b) == Some(Found("", span, b))
  {
    var x := span + a;
    if SpanWith(x, RunLength(x)).None? {
      FindBehind(x);
    }
    SpanWithLocal(span, a, b, RunLength(x));
  }

  lemma FindCons(c: char, t: string, f: Found)
    requires SpanWith([c] + t, RunLength([c] + t)).None? && FindSpan(t) == Some(f)
    ensures FindSpan([c] + t) == Some(f.(before := [c] + f.before))
  {
    assert ([c] + t)[1..] == t;
    FindBehind([c] + t);
  }

  lemma FindTail(c: char, before: string, span: string, a: string)
    requires FindSpan([c] + (before + span + a)) == Some(Found([c] + before, span, a))
    ensures var s := [c] + (before + span + a); SpanWith(s, RunLength(s)).None?
    ensures FindSpan(before + span + a) == Some(Found(before, span, a))
  {
    var s := [c] + (before + span + a);
    assert s[1..] == before + span + a;
    if SpanWith(s, RunLength(s)).None? {
      FindBehind(s);
      var f := FindSpan(s[1..]).value;
      assert ([c] + f.before)[1..] == f.before && ([c] + before)[1..] == before;
    }
  }

  lemma Uncons(s: string, b: string, c: string)
    requires s != ""
    ensures s == [s[0]] + s[1..] && s + b + c == [s[0]] + (s[1..] + b + c)
  {
    PutBack(s + b + c, s[1..], b, c);
  }

  /** The leftmost span is found again between the insertions. */
  lemma {:induction false} FindSpanLocal(before: string, e: string, span: string, a: string, b: string)
    requires Inserted(before, e) && Inserted(a, b)
    requires FindSpan(before + span + a) == Some(Found(before, span, a))
    ensures FindSpan(e + span + b) == Some(Found(e, span, b))
    decreases |before|
  {
    if before == "" {
      assert before + span + a == span + a && e + span + b == span + b;
      FindHere(span, a, b);
    } else {
      Uncons(before, span, a);
      FindTail(before[0], before[1..], span, a);
      SpanGone(before, e, span, a, b);
      Uncons(e, span, b);
      if before[0] == '~' && |e| > 1 && e[0] == '\\' {
        FindSpanLocal(before[1..], e[2..], span, a, b);
        FindEscape(e, span, b);
      } else {
        FindSpanLocal(before[1..], e[1..], span, a, b);
        FindCons(e[0], e[1..] + span + b, Found(e[1..], span, b));
      }
    }
  }

  lemma FindEscape(e: string, span: string, b: string)
    requires |e| > 1 && e[0] == '\\' && e[1] == '~' && FindSpan(e[2..] + span + b) == Some(Found(e[2..], span, b))
    ensures FindSpan(e + span + b) == Some(Found(e, span, b))
  {
    var t := e[1..];
    assert t[1..] == e[2..];
    Uncons(t, span, b);
    Uncons(e, span, b);
    FindCons('~', e[2..] + span + b, Found(e[2..], span, b));
    FindCons('\\', t + span + b, Found(t, span, b));
  }

  lemma SpanGone(before: string, e: string, span: string, a: string, b: string)
    requires Inserted(before, e) && Inserted(a, b)
    requires var x := before + span + a; SpanWith(x, RunLength(x)).None?
    ensures var y := e + span + b; SpanWith(y, RunLength(y)).None?
  {
    var x, y := before + span + a, e + span + b;
    InsertedSame(span);
    InsertedAppend(before, e, span, span);
    InsertedAppend(before + span, e + span, a, b);
    SpanWithInserted(x, y, RunLength(x));
  }

  // ----- the results -----

  lemma {:induction false} EscapeAroundInserts(s: string, d: Digits)
    ensures Inserted(s, EscapeAround(s, d))
    decreases |s|
  {
    match FindSpan(s)
    case None => EscapeInserts(NOTHING, s, d);
    case Some(f) =>
      EscapeInserts(NOTHING, f.before, d);
      InsertedSame(f.span);
      EscapeAroundInserts(f.after, d);
      InsertedAppend(f.before, Sub(f.before, d), f.span, f.span);
      InsertedAppend(f.before + f.span, Sub(f.before, d) + f.span, f.after, EscapeAround(f.after, d));
  }

  /** The result has the same pieces: the code as it was, and the plain text with its numeric tildes escaped. */
  lemma {:induction false} PiecesOfResult(s: string, d: Digits)
    ensures Pieces(EscapeAround(s, d)) == EscapedPieces(Pieces(s), d)
    decreases |s|
  {
    var y := EscapeAround(s, d);
    match FindSpan(s)
    case None =>
      EscapeInserts(NOTHING, s, d);
      FindSpanInserted(s, y);
    case Some(f) =>
      EscapeInserts(NOTHING, f.before, d);
      EscapeAroundInserts(f.after, d);
      FindSpanLocal(f.before, Sub(f.before, d), f.span, f.after, EscapeAround(f.after, d));
      PiecesOfResult(f.after, d);
      PairFirst(Plain(f.before), Code(f.span), Pieces(f.after), d);
  }

  lemma PairFirst(p: Piece, c: Piece, rest: seq<Piece>, d: Digits)
    requires p.Plain? && c.Code?
    ensures EscapedPieces([p, c] + rest, d) == [Plain(Sub(p.text, d)), c] + EscapedPieces(rest, d)
  {
    assert ([p, c] + rest)[1..] == [c] + rest && ([c] + rest)[1..] == rest;
  }

  lemma {:induction false} EscapeAroundTwice(s: string, d: Digits)
    ensures EscapeAround(EscapeAround(s, d), d) == EscapeAround(s, d)
    decreases |s|
  {
    var y := EscapeAround(s, d);
    match FindSpan(s)
    case None =>
      EscapeInserts(NOTHING, s, d);
      FindSpanInserted(s, y);
      EscapeTwice(NOTHING, s, d);
    case Some(f) =>
      EscapeInserts(NOTHING, f.before, d);
      EscapeAroundInserts(f.after, d);
      FindSpanLocal(f.before, Sub(f.before, d), f.span, f.after, EscapeAround(f.after, d));
      EscapeTwice(NOTHING, f.before, d);
      EscapeAroundTwice(f.after, d);
  }

  /** Outside the code spans of the result the pattern matches nowhere. */
  lemma {:induction false} NoTargetInPieces(ps: seq<Piece>, d: Digits)
    ensures forall p :: p in EscapedPieces(ps, d) && p.Plain? ==> forall i :: 0 <= i < |p.text| ==>
      !TargetAt(p.text, i, d)
  {
    if ps != [] {
      NoTargetInPieces(ps[1..], d);
      if ps[0].Plain? {
        SubLeavesNoTarget(ps[0].text, d);
      }
    }
  }
}

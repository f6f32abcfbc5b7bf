/** Numeric tildes and backtick spans by the characters of the text alone. */
module InlineRules {
  import opened Seqs
  import opened Text
  import opened TildeEscape
  import opened InlineCode

  // ----- numeric tildes -----

  predicate AllBlanks(s: string) { forall i :: 0 <= i < |s| ==> s[i] == ' ' || s[i] == '\t' }

  predicate NoBlankFirst(s: string) { s == "" || (s[0] != ' ' && s[0] != '\t') }

  predicate MaybeSign(s: string) { s == "" || (|s| == 1 && (s[0] == '+' || s[0] == '-' || s[0] == '\U{2212}')) }

  /** The parts of `[ \t]*[+−-]?[ \t]*\d`, and what follows them. */
  predicate IsNumber(a: string, sign: string, b: string, t: string, d: Digits) {
    AllBlanks(a) && MaybeSign(sign) && AllBlanks(b) && t != "" && d(t[0])
  }

  lemma {:induction false} SkipsBlanks(a: string, s: string)
    requires AllBlanks(a) && NoBlankFirst(s)
    ensures SkipBlanks(a + s) == s
  {
    if a == "" {
      assert a + s == s;
    } else {
      assert (a + s)[0] == a[0] && (a + s)[1..] == a[1..] + s;
      SkipsBlanks(a[1..], s);
    }
  }

  lemma {:induction false} BlanksInFront(s: string) returns (a: string, t: string)
    ensures s == a + t && t == SkipBlanks(s) && AllBlanks(a) && NoBlankFirst(t)
  {
    if s != "" && IsBlank(s[0]) {
      a, t := BlanksInFront(s[1..]);
      FrontChar(s, a, t);
      BlankFirst(s[0], a);
      a := [s[0]] + a;
    } else {
      a, t := "", s;
    }
  }

  lemma BlankFirst(c: char, a: string)
    requires IsBlank(c) && AllBlanks(a)
    ensures AllBlanks([c] + a)
  {
  }

  lemma DigitIsPlain(t: string, d: Digits)
    requires t != "" && d(t[0])
    ensures NoBlankFirst(t) && !IsSign(t[0])
  {
  }

  lemma SignFirst(sign: string, u: string)
    requires MaybeSign(sign) && sign != ""
    ensures NoBlankFirst(sign + u) && SkipSign(sign + u) == SkipBlanks(u)
  {
    assert (sign + u)[1..] == u;
  }

  lemma AheadBy(s: string, u: string, t: string, d: Digits)
    requires SkipBlanks(s) == u && SkipSign(u) == t && t != "" && d(t[0])
    ensures NumberAhead(s, d)
  {
  }

  lemma SignOrNot(sign: string, b: string, t: string)
    requires MaybeSign(sign) && AllBlanks(b) && NoBlankFirst(t) && t != "" && !IsSign(t[0])
    ensures sign != "" ==> NoBlankFirst(sign + (b + t)) && SkipSign(sign + (b + t)) == t
    ensures SkipSign(t) == t
  {
    if sign != "" {
      SkipsBlanks(b, t);
      SignFirst(sign, b + t);
    }
  }

  lemma NoSign(a: string, b: string, t: string)
    requires AllBlanks(a) && AllBlanks(b) && NoBlankFirst(t)
    ensures SkipBlanks(a + ("" + (b + t))) == t
  {
    assert a + ("" + (b + t)) == (a + b) + t;
    SkipsBlanks(a + b, t);
  }

  /** Behind blanks, at most one sign and blanks the look-ahead finds the digit. */
  lemma NumberIsAhead(a: string, sign: string, b: string, t: string, d: Digits)
    requires IsNumber(a, sign, b, t, d)
    ensures NumberAhead(a + (sign + (b + t)), d)
  {
    DigitIsPlain(t, d);
    SignOrNot(sign, b, t);
    if sign == "" {
      NoSign(a, b, t);
      AheadBy(a + (sign + (b + t)), t, t, d);
    } else {
      SkipsBlanks(a, sign + (b + t));
      AheadBy(a + (sign + (b + t)), sign + (b + t), t, d);
    }
  }

  lemma SignInFront(u: string) returns (sign: string, b: string, t: string)
    requires SkipSign(u) != ""
    ensures u == sign + (b + t) && t == SkipSign(u) && MaybeSign(sign) && AllBlanks(b)
  {
    if IsSign(u[0]) {
      b, t := BlanksInFront(u[1..]);
      sign := [u[0]];
      assert u == sign + u[1..];
    } else {
      sign, b, t := "", "", u;
      assert u == sign + (b + u);
    }
  }

  lemma AheadMeans(s: string, d: Digits)
    requires NumberAhead(s, d)
    ensures var t := SkipSign(SkipBlanks(s)); t != "" && d(t[0])
  {
  }

  /** What the look-ahead accepts are blanks, at most one sign, blanks and a digit. */
  lemma AheadIsNumber(s: string, d: Digits) returns (a: string, sign: string, b: string, t: string)
    requires NumberAhead(s, d)
    ensures s == a + (sign + (b + t)) && IsNumber(a, sign, b, t, d)
  {
    AheadMeans(s, d);
    var u;
    a, u := BlanksInFront(s);
    sign, b, t := SignInFront(u);
  }

  /** The text with every tilde at which the pattern matches escaped, from a place on. */
  function Substituted(s: string, i: nat, d: Digits): string
    requires i <= |s|
    decreases |s| - i
  {
    if i == |s| then ""
    else (if TargetAt(s, i, d) then "\\~" else [s[i]]) + Substituted(s, i + 1, d)
  }

  lemma EscapesHere(s: string, i: nat, d: Digits)
    requires i < |s|
    ensures Escape(if i == 0 then NOTHING else s[i - 1], s[i..], d)
      == (if TargetAt(s, i, d) then "\\~" else [s[i]]) + Escape(s[i], s[i + 1..], d)
  {
    var prev := if i == 0 then NOTHING else s[i - 1];
    var t := s[i..];
    assert t[0] == s[i] && t[1..] == s[i + 1..];
    assert Target(prev, t, d) <==> TargetAt(s, i, d);
  }

  lemma {:induction false} EscapesFrom(s: string, i: nat, d: Digits)
    requires i <= |s|
    ensures Escape(if i == 0 then NOTHING else s[i - 1], s[i..], d) == Substituted(s, i, d)
    decreases |s| - i
  {
    if i < |s| {
      EscapesFrom(s, i + 1, d);
      EscapesHere(s, i, d);
    }
  }

  /** The substitution escapes a tilde exactly where the pattern matches, and copies everything else. */
  lemma SubIsSubstituted(s: string, d: Digits)
    ensures Sub(s, d) == Substituted(s, 0, d)
  {
    assert s[0..] == s;
    EscapesFrom(s, 0, d);
  }

  // ----- code spans -----

  /** `k` backticks stand at place `i`. */
  predicate TicksAt(s: string, k: nat, i: nat) { i + k <= |s| && forall j :: i <= j < i + k ==> s[j] == '`' }

  lemma TicksAtIs(s: string, k: nat, i: nat)
    requires i <= |s|
    ensures TicksAt(s, k, i) <==> RunLength(s[i..]) >= k
  {
    RunIsTicks(s[i..], k);
    if i + k <= |s| {
      var t := s[i..][..k];
      assert forall j :: 0 <= j < k ==> t[j] == s[i + j];
      if t == Ticks(k) {
        forall j | i <= j < i + k ensures s[j] == '`' {
          assert t[j - i] == s[j];
        }
      }
    }
  }

  /** The cut is at the first place from `i` on where `k` backticks stand. */
  lemma {:induction false} CutIsFirst(s: string, k: nat, i: nat)
    requires k > 0 && i <= |s|
    ensures match CutAtRun(s[i..], k)
      case None => forall j :: i <= j ==> !TicksAt(s, k, j)
      case Some(c) => TicksAt(s, k, i + |c.before|) && forall j :: i <= j < i + |c.before| ==> !TicksAt(s, k, j)
    decreases |s| - i
  {
    TicksAtIs(s, k, i);
    if RunLength(s[i..]) < k && i < |s| {
      assert s[i..][1..] == s[i + 1..];
      CutIsFirst(s, k, i + 1);
      CutBehind(s[i..], k);
    }
  }

  /** From place `p` on, `n` characters begin and end with `k` backticks, which stand nowhere between. */
  predicate Delimited(s: string, p: nat, n: nat, k: nat) {
    && k >= 1 && n >= 2 * k && p + n <= |s|
    && TicksAt(s, k, p) && TicksAt(s, k, p + n - k)
    && forall i :: p + k <= i < p + n - k ==> !TicksAt(s, k, i)
  }

  /** `k` backticks at place `p` are closed nowhere. */
  ghost predicate Unclosed(s: string, p: nat, k: nat) { forall i :: p + k <= i ==> !TicksAt(s, k, i) }

  lemma CutCloses(s: string, p: nat, k: nat)
    requires p + k <= |s| && k > 0 && TicksAt(s, k, p)
    ensures match CutAtRun(s[p + k..], k)
      case None => Unclosed(s, p, k)
      case Some(c) => Delimited(s, p, |c.before| + 2 * k, k)
  {
    CutIsFirst(s, k, p + k);
  }

  lemma {:induction false} SpanWithIs(s: string, p: nat, k: nat) returns (m: nat)
    requires p <= |s| && TicksAt(s, k, p) && k <= RunLength(s[p..])
    ensures match SpanWith(s[p..], k)
      case None => forall i :: 1 <= i <= k ==> Unclosed(s, p, i)
      case Some(c) => 1 <= m <= k && Delimited(s, p, |c.before|, m) && forall i :: m < i <= k ==> Unclosed(s, p, i)
    decreases k
  {
    m := k;
    if k > 0 {
      assert s[p..][k..] == s[p + k..];
      CutCloses(s, p, k);
      if CutAtRun(s[p + k..], k).None? {
        m := SpanWithIs(s, p, k - 1);
      }
    }
  }

  /**
    The first code span begins at the first backtick, with as many backticks as are closed later, and ends where
    they are first closed; without two backticks there is none.
   */
  ghost predicate FirstSpan(s: string, p: nat, r: Option<Found>) {
    match r
    case None => forall i, j :: p <= i < j < |s| ==> s[i] != '`' || s[j] != '`'
    case Some(f) =>
      var q := p + |f.before|;
      && q + |f.span| <= |s| && f.before == s[p..q] && f.span == s[q..q + |f.span|] && f.after == s[q + |f.span|..]
      && (forall i :: p <= i < q ==> s[i] != '`')
      && exists k :: Delimited(s, q, |f.span|, k) && forall m :: m > k && TicksAt(s, m, q) ==> Unclosed(s, q, m)
  }

  lemma NoTickBehind(s: string, p: nat)
    requires p < |s| && Unclosed(s, p, 1)
    ensures forall i :: p < i < |s| ==> s[i] != '`'
  {
    forall i | p < i < |s| ensures s[i] != '`' {
      assert !TicksAt(s, 1, i);
    }
  }

  lemma SpanHere(s: string, p: nat, c: Cut, k: nat)
    requires p <= |s| && s[p..] == c.before + c.after && Delimited(s, p, |c.before|, k)
    requires forall i :: k < i <= RunLength(s[p..]) ==> Unclosed(s, p, i)
    ensures FirstSpan(s, p, Some(Found("", c.before, c.after)))
  {
    var n := |c.before|;
    assert s[p..][..n] == s[p..p + n] && s[p..][n..] == s[p + n..];
    forall m | m > k && TicksAt(s, m, p) ensures Unclosed(s, p, m) {
      TicksAtIs(s, m, p);
    }
  }

  lemma {:induction false} FindSpanFrom(s: string, p: nat)
    requires p <= |s|
    ensures FirstSpan(s, p, FindSpan(s[p..]))
    decreases |s| - p
  {
    if p < |s| {
      var n := RunLength(s[p..]);
      TicksAtIs(s, n, p);
      var m := SpanWithIs(s, p, n);
      var c := SpanWith(s[p..], n);
      if c.Some? {
        SpanHere(s, p, c.value, m);
      } else {
        assert s[p..][0] == s[p] && s[p..][1..] == s[p + 1..];
        FindBehind(s[p..]);
        FindSpanFrom(s, p + 1);
        if n > 0 {
          NoTickBehind(s, p);
        }
        LaterSpan(s, p, FindSpan(s[p + 1..]));
      }
    }
  }

  lemma LaterSpan(s: string, p: nat, r: Option<Found>)
    requires p < |s| && FirstSpan(s, p + 1, r)
    requires s[p] == '`' ==> forall i :: p < i < |s| ==> s[i] != '`'
    ensures FirstSpan(s, p, match r { case None => None case Some(f) => Some(f.(before := [s[p]] + f.before)) })
  {
    if r.Some? {
      var q := p + 1 + |r.value.before|;
      var k :| Delimited(s, q, |r.value.span|, k) && forall m :: m > k && TicksAt(s, m, q) ==> Unclosed(s, q, m);
      assert s[q] == '`';
      assert s[p..q] == [s[p]] + s[p + 1..q];
    }
  }

  /** `` (`+).*?\1 `` finds the first span. */
  lemma SearchFindsFirst(s: string)
    ensures FirstSpan(s, 0, FindSpan(s))
  {
    assert s[0..] == s;
    FindSpanFrom(s, 0);
  }

  lemma DelimitedOnce(s: string, q: nat, n: nat, k: nat, o: nat, m: nat)
    requires Delimited(s, q, n, k) && Delimited(s, q, o, m)
    requires k < m ==> Unclosed(s, q, m)
    requires m < k ==> Unclosed(s, q, k)
    ensures n == o
  {
    assert TicksAt(s, k, q + n - k) && TicksAt(s, m, q + o - m);
  }

  lemma BeginsAtTick(s: string, p: nat, f: Found)
    requires FirstSpan(s, p, Some(f))
    ensures var q := p + |f.before|; q + 1 < q + |f.span| <= |s| && s[q] == s[q + |f.span| - 1] == '`'
  {
    var q := p + |f.before|;
    var k :| Delimited(s, q, |f.span|, k) && forall m :: m > k && TicksAt(s, m, q) ==> Unclosed(s, q, m);
  }

  /** These rules determine the span. */
  lemma FirstSpanIsUnique(s: string, r: Option<Found>, t: Option<Found>)
    requires FirstSpan(s, 0, r) && FirstSpan(s, 0, t)
    ensures r == t
  {
    if r.Some? {
      BeginsAtTick(s, 0, r.value);
    }
    if t.Some? {
      BeginsAtTick(s, 0, t.value);
    }
    if r.Some? && t.Some? {
      var q := |r.value.before|;
      assert |t.value.before| == q;
      var k :| Delimited(s, q, |r.value.span|, k) && forall m :: m > k && TicksAt(s, m, q) ==> Unclosed(s, q, m);
      var i :| Delimited(s, q, |t.value.span|, i) && forall m :: m > i && TicksAt(s, m, q) ==> Unclosed(s, q, m);
      DelimitedOnce(s, q, |r.value.span|, k, |t.value.span|, i);
    }
  }

  /** Before the first span the tildes of numbers are escaped, the span is copied, and behind it all begins anew. */
  lemma EscapeAroundRules(s: string, r: Option<Found>, d: Digits)
    requires FirstSpan(s, 0, r)
    ensures EscapeAround(s, d) == match r {
      case None => Substituted(s, 0, d)
      case Some(f) => Substituted(f.before, 0, d) + f.span + EscapeAround(f.after, d)
    }
  {
    SearchFindsFirst(s);
    FirstSpanIsUnique(s, r, FindSpan(s));
    match r
    case None => SubIsSubstituted(s, d);
    case Some(f) => SubIsSubstituted(f.before, d);
  }
}

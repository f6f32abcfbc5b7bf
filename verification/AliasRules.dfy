/** Which texts are aliases of a target, by the characters of its name, and what a full name alone resolves to. */
module AliasRules {
  import opened Seqs
  import opened Text
  import opened MentionOrder
  import opened Mentions

  // ----- normalizing -----

  lemma Blankless(t: string)
    requires ' ' !in t
    ensures Filter(t, NotBlank()) == t
  {
    FilterKeepsAll(t, NotBlank());
  }

  /** Normalizing removes the blanks of the folded text, wherever they stand, and nothing else. */
  lemma NormalizeRules(s: string, fold: string -> string, a: string, b: string)
    requires fold(s) == a + ([' '] + b)
    ensures Normalize(s, fold) == Filter(a, NotBlank()) + Filter(b, NotBlank())
    ensures ' ' !in a && ' ' !in b ==> Normalize(s, fold) == a + b
  {
    FilterAppend(a, [' '] + b, NotBlank());
    FilterAppend([' '], b, NotBlank());
    assert Filter([' '], NotBlank()) == [] && [] + Filter(b, NotBlank()) == Filter(b, NotBlank());
    if ' ' !in a && ' ' !in b {
      Blankless(a);
      Blankless(b);
    }
  }

  // ----- the part behind white space -----

  /** Behind place `j` comes a character and later a line break. */
  predicate BreaksLater(s: string, j: nat) {
    exists m, l :: j < m < l < |s| && !IsSpace(s[m]) && s[l] == '\n'
  }

  /** The name is cut at its first white space behind which it stays on one line. */
  predicate CutAtSpace(s: string, front: string, gap: string, tail: string) {
    && s == front + (gap + tail) && IsGap(gap) && IsText(tail) && '\n' !in tail
    && forall j :: 0 <= j < |front| && IsSpace(s[j]) ==> BreaksLater(s, j)
  }

  lemma DropsOne(s: string)
    requires s != ""
    ensures |s| - |DropSpaces(s)| == if IsSpace(s[0]) then 1 + |s[1..]| - |DropSpaces(s[1..])| else 0
  {
  }

  lemma {:induction false} SpacesEndBefore(s: string, m: nat)
    requires m < |s| && !IsSpace(s[m])
    ensures |s| - |DropSpaces(s)| <= m
  {
    DropsOne(s);
    if m > 0 {
      SpacesEndBefore(s[1..], m - 1);
    }
  }

  lemma TailPlaces(s: string, t: string, n: nat)
    requires n <= |s| && t == s[n..]
    ensures forall i :: n <= i < |s| ==> t[i - n] == s[i]
    ensures forall i :: 0 <= i < |t| ==> s[n + i] == t[i]
  {
  }

  lemma BreakIsKept(s: string)
    requires BreaksLater(s, 0)
    ensures '\n' in DropSpaces(s)
  {
    var m, l :| 0 < m < l < |s| && !IsSpace(s[m]) && s[l] == '\n';
    SpacesEndBefore(s, m);
    var n := |s| - |DropSpaces(s)|;
    TailPlaces(s, DropSpaces(s), n);
    assert DropSpaces(s)[l - n] == '\n';
  }

  lemma BreaksFrom(s: string, t: string, n: nat)
    requires 0 < n < |s| && t == s[n..] && !IsSpace(t[0]) && '\n' in t
    ensures BreaksLater(s, 0)
  {
    TailPlaces(s, t, n);
    var i :| 0 <= i < |t| && t[i] == '\n';
    assert i != 0;
  }

  lemma BreakIsLater(s: string)
    requires s != "" && IsSpace(s[0]) && '\n' in DropSpaces(s)
    ensures BreaksLater(s, 0)
  {
    DropsOne(s);
    BreaksFrom(s, DropSpaces(s), |s| - |DropSpaces(s)|);
  }

  lemma BreaksInTail(s: string, j: nat)
    requires j + 1 < |s|
    ensures BreaksLater(s, j + 1) <==> BreaksLater(s[1..], j)
  {
    var t := s[1..];
    if BreaksLater(t, j) {
      var m, l :| j < m < l < |t| && !IsSpace(t[m]) && t[l] == '\n';
      assert s[m + 1] == t[m] && s[l + 1] == t[l];
    }
    if BreaksLater(s, j + 1) {
      var m, l :| j + 1 < m < l < |s| && !IsSpace(s[m]) && s[l] == '\n';
      assert t[m - 1] == s[m] && t[l - 1] == s[l];
    }
  }

  lemma CutOfTail(s: string, front: string, gap: string, tail: string)
    requires CutAtSpace(s, front, gap, tail) && front != ""
    ensures CutAtSpace(s[1..], front[1..], gap, tail) && s[0] == front[0]
  {
    assert s[1..] == front[1..] + (gap + tail);
    forall j | 0 <= j < |front| - 1 && IsSpace(s[1..][j]) ensures BreaksLater(s[1..], j) {
      assert IsSpace(s[j + 1]);
      BreaksInTail(s, j);
    }
  }

  lemma {:induction false} TailOfCut(s: string, front: string, gap: string, tail: string)
    requires CutAtSpace(s, front, gap, tail)
    ensures TailAfterSpace(s) == Some(tail)
    decreases |front|
  {
    if front == "" {
      assert s == gap + tail && s[0] == gap[0];
      DropsSpaces(gap, tail);
    } else {
      CutOfTail(s, front, gap, tail);
      TailOfCut(s[1..], front[1..], gap, tail);
      if IsSpace(s[0]) {
        BreakIsKept(s);
      }
    }
  }

  lemma ConsOfCut(s: string, front: string, gap: string, tail: string)
    requires s != "" && CutAtSpace(s[1..], front, gap, tail) && (IsSpace(s[0]) ==> BreaksLater(s, 0))
    ensures CutAtSpace(s, [s[0]] + front, gap, tail)
  {
    FrontChar(s, front, gap + tail);
    forall j | 0 <= j < |front| + 1 && IsSpace(s[j]) ensures BreaksLater(s, j) {
      if j > 0 {
        assert s[1..][j - 1] == s[j];
        BreaksInTail(s, j - 1);
      }
    }
  }

  lemma CutAtFront(s: string, tail: string) returns (gap: string)
    requires s != "" && IsSpace(s[0]) && DropSpaces(s) == tail && tail != "" && '\n' !in tail
    ensures CutAtSpace(s, "", gap, tail)
  {
    var t;
    gap, t := SpacesInFront(s);
    assert s == "" + (gap + t);
    assert gap == "" ==> s == t;
  }

  lemma {:induction false} CutOfName(s: string) returns (front: string, gap: string)
    requires TailAfterSpace(s).Some? && (s != "" ==> !IsSpace(s[|s| - 1]))
    ensures CutAtSpace(s, front, gap, TailAfterSpace(s).value)
  {
    var tail := TailAfterSpace(s).value;
    if IsSpace(s[0]) && DropSpaces(s) != "" && '\n' !in DropSpaces(s) {
      front := "";
      gap := CutAtFront(s, tail);
    } else {
      front, gap := CutOfName(s[1..]);
      if IsSpace(s[0]) {
        SpacesEndBefore(s, |s| - 1);
        BreakIsLater(s);
      }
      ConsOfCut(s, front, gap, tail);
      front := [s[0]] + front;
    }
  }

  // ----- the aliases -----

  predicate IsSafe(alias: string) {
    |alias| >= 2 && alias !in {"company", "종목", "기업", "회사", "개별주", "개별종목", "industry", "산업", "업종",
      "섹터", "economy", "경제", "매크로"}
  }

  /** A character of the ASCII letters and digits, and behind it one that is not ASCII. */
  predicate AtBoundary(whole: string, i: int) {
    && 1 <= i < |whole| && whole[i] as int >= 128
    && ('0' <= whole[i - 1] <= '9' || 'A' <= whole[i - 1] <= 'Z' || 'a' <= whole[i - 1] <= 'z')
  }

  /** The normalized part of the name behind the cut. */
  ghost predicate BehindSpace(name: string, fold: string -> string, alias: string) {
    exists front, gap, tail :: CutAtSpace(name, front, gap, tail) && alias == Normalize(tail, fold)
  }

  lemma TailIsBehindSpace(name: string, fold: string -> string, alias: string)
    requires Trimmed(name)
    ensures BehindSpace(name, fold, alias) <==>
      TailAfterSpace(name).Some? && alias == Normalize(TailAfterSpace(name).value, fold)
  {
    if TailAfterSpace(name).Some? {
      var front, gap := CutOfName(name);
    }
    if BehindSpace(name, fold, alias) {
      var front, gap, tail :| CutAtSpace(name, front, gap, tail) && alias == Normalize(tail, fold);
      TailOfCut(name, front, gap, tail);
    }
  }

  /** A part of the normalized name behind a boundary. */
  ghost predicate BehindBoundary(whole: string, alias: string) {
    exists i :: AtBoundary(whole, i) && alias == whole[i..]
  }

  lemma SafetyIs(alias: string)
    ensures IsSafe(alias) <==> SafeDerived(alias)
  {
  }

  lemma BoundaryIs(whole: string, i: int)
    ensures AtBoundary(whole, i) <==> 1 <= i < |whole| && IsAsciiAlnum(whole[i - 1]) && !IsAscii(whole[i])
  {
  }

  lemma LocalRule(whole: string, alias: string)
    ensures alias in LocalAliases(whole) <==> SafeDerived(alias) && BehindBoundary(whole, alias)
  {
    if alias in LocalAliases(whole) {
      var i :| 1 <= i < |whole| && IsAsciiAlnum(whole[i - 1]) && !IsAscii(whole[i]) && alias == whole[i..];
      BoundaryIs(whole, i);
    }
    if BehindBoundary(whole, alias) {
      var i :| AtBoundary(whole, i) && alias == whole[i..];
      BoundaryIs(whole, i);
    }
  }

  lemma TailRule(target: string, fold: string -> string, alias: string)
    ensures alias in TailAlias(target, fold) <==> SafeDerived(alias) && BehindSpace(Strip(target), fold, alias)
  {
    StripIsTrimmed(target);
    TailIsBehindSpace(Strip(target), fold, alias);
  }

  lemma ThreeSources(target: string, fold: string -> string, alias: string)
    ensures var whole := Normalize(Strip(target), fold);
      alias in Aliases(target, fold) <==>
        (alias == whole && whole != "") || alias in TailAlias(target, fold) || alias in LocalAliases(whole)
  {
  }

  /**
    The aliases of a target are its whole normalized name, if that is not empty, and of at least two characters
    and no generic word, the normalized part behind white space and the parts of the normalized name behind an
    ASCII letter or digit that begin outside ASCII.
   */
  lemma AliasRule(target: string, fold: string -> string, alias: string)
    ensures var whole := Normalize(Strip(target), fold);
      alias in Aliases(target, fold) <==>
        || (alias == whole && whole != "")
        || (IsSafe(alias) && BehindSpace(Strip(target), fold, alias))
        || (IsSafe(alias) && BehindBoundary(whole, alias))
  {
    ThreeSources(target, fold, alias);
    SafetyIs(alias);
    TailRule(target, fold, alias);
    LocalRule(Normalize(Strip(target), fold), alias);
  }

  // ----- a question that is a full name -----

  lemma WholeQuestion(k: Corpus, q: string, c: string)
    requires q != "" && Owns(k, c, q)
    ensures NamedTargets(q, k) == [c]
  {
    var all, m := AllMentions(k, q), Mention(0, |q|, c);
    assert q[m.start..End(m)] == q;
    MentionsAreProper(k, q);
    assert IsAt(all, m, 0, |q|);
    forall x | IsAt(all, x, 0, |q|) ensures x == m {
    }
    assert LongestAt(all, 0, |q|) == Some(m);
    assert Walk(all, |q|, 0) == [m] + Walk(all, |q|, |q|);
    assert Walk(all, |q|, |q|) == [];
    assert [m][..0] == [];
    assert FirstOwners([m]) == [c];
  }

  lemma SoleFullName(names: set<string>, c: string, q: string, fold: string -> string)
    requires c in names && q in Aliases(c, fold) && Normalize(c, fold) == q
    requires forall n :: n in names && n != c ==> Normalize(n, fold) != q
    ensures Owns(CorpusOf(names, fold), c, q)
  {
    var k := CorpusOf(names, fold);
    assert IsFullName(k, c, q) && Claims(k, c, q);
  }

  /** A question that is the full name of exactly one candidate names that candidate alone. */
  lemma FullNameNamesItsTarget(query: string, candidates: seq<string>, c: string, fold: string -> string)
    requires c in candidates && c != ""
    requires Normalize(query, fold) == Normalize(c, fold) == Normalize(Strip(c), fold) != ""
    requires forall n :: n in candidates && n != c ==> Normalize(n, fold) != Normalize(query, fold)
    ensures NamedTargets(Normalize(query, fold), CorpusOf(NamesIn(candidates), fold)) == [c]
  {
    ThreeSources(c, fold, Normalize(query, fold));
    SoleFullName(NamesIn(candidates), c, Normalize(query, fold), fold);
    WholeQuestion(CorpusOf(NamesIn(candidates), fold), Normalize(query, fold), c);
  }

  lemma ClaimsIn(names: set<string>, n: string, x: string, fold: string -> string)
    ensures Claims(CorpusOf(names, fold), n, x) <==> n in names && x in Aliases(n, fold)
    ensures IsFullName(CorpusOf(names, fold), n, x) <==> n in names && Normalize(n, fold) == x
  {
  }

  /**
    The whole name of a target, taken from the stripped name, stands for it exactly if no other target claims it,
    or if it is the full name of the unstripped one too and of no other claimant.
   */
  lemma WholeNameStands(names: set<string>, c: string, q: string, fold: string -> string)
    requires c in names && q == Normalize(Strip(c), fold) != ""
    ensures Owns(CorpusOf(names, fold), c, q) <==>
      || (forall n :: n in names && n != c ==> q !in Aliases(n, fold))
      || (Normalize(c, fold) == q && forall n :: n in names && n != c && q in Aliases(n, fold) ==>
        Normalize(n, fold) != q)
  {
    var k := CorpusOf(names, fold);
    ThreeSources(c, fold, q);
    forall n
      ensures Claims(k, n, q) <==> n in names && q in Aliases(n, fold)
      ensures IsFullName(k, n, q) <==> n in names && Normalize(n, fold) == q
    {
      ClaimsIn(names, n, q, fold);
    }
  }
}

/** The lines of a study text by their characters: what each kind of line looks like. */
module StudyShapes {
  import opened Seqs
  import opened Text
  import opened TildeEscape
  import opened StudyBlocks
  import opened StudyLines

  // ----- shapes -----

  predicate AllOf(s: string, c: char) { forall i :: 0 <= i < |s| ==> s[i] == c }

  predicate AllDigits(s: string, d: Digits) { forall i :: 0 <= i < |s| ==> d(s[i]) }

  /** One to four hashes, white space and text. */
  predicate HeadingShape(s: string, hashes: string, gap: string, text: string) {
    s == hashes + (gap + text) && 1 <= |hashes| <= 4 && AllOf(hashes, '#') && IsGap(gap) && IsText(text)
  }

  predicate ImageShape(s: string, alt: string, src: string) {
    s == "![" + (alt + ("](" + (src + ")"))) && ']' !in alt && ')' !in src && src != ""
  }

  /** A dash or an asterisk, white space and text. */
  predicate BulletShape(s: string, mark: char, gap: string, text: string) {
    s == [mark] + (gap + text) && (mark == '-' || mark == '*') && IsGap(gap) && IsText(text)
  }

  /** Digits, a dot, white space and text. */
  predicate NumberShape(s: string, digits: string, gap: string, text: string, d: Digits) {
    s == digits + ("." + (gap + text)) && digits != "" && AllDigits(digits, d) && IsGap(gap) && IsText(text)
  }

  predicate RuleShape(s: string) {
    |s| >= 3 && forall i :: 0 <= i < |s| ==> s[i] == '-' || s[i] == '*' || s[i] == '_'
  }

  /** Between two bars only white space, colons, dashes and bars, at least one of them. */
  predicate SeparatorShape(s: string, middle: string) {
    && s == "|" + (middle + "|") && middle != ""
    && forall i :: 0 <= i < |middle| ==> IsSpace(middle[i]) || middle[i] in {':', '-', '|'}
  }

  predicate Starts(s: string, c: char) { s != "" && s[0] == c }

  /** An entry of a list of this kind. */
  ghost predicate EntryShape(s: string, k: ListKind, text: string, d: Digits) {
    match k
    case Bulleted => exists mark, gap :: BulletShape(s, mark, gap, text)
    case Numbered => exists digits, gap :: NumberShape(s, digits, gap, text, d)
  }

  /** The first line, stripped, looks like a line of this kind. */
  ghost predicate Shape(ls: seq<string>, k: LineKind, d: Digits)
    requires ls != []
  {
    var s := Strip(ls[0]);
    match k
    case Fence => |s| >= 3 && s[0] == s[1] == s[2] == '`'
    case Blank => s == ""
    case Rule => RuleShape(s)
    case Heading(level, text) => exists hashes, gap :: HeadingShape(s, hashes, gap, text) && |hashes| == level
    case Image(alt, src) => ImageShape(s, alt, src)
    case Quote => Starts(s, '>')
    case TableHead => Starts(s, '|') && |ls| > 1 && exists middle :: SeparatorShape(Strip(ls[1]), middle)
    case Item(list, text) => EntryShape(s, list, text, d)
    case Plain => false
  }

  /** Lines that look like no other kind are paragraph text. */
  ghost predicate Means(ls: seq<string>, k: LineKind, d: Digits)
    requires ls != []
  {
    if k == Plain then forall other :: !Shape(ls, other, d) else Shape(ls, k, d)
  }

  // ----- gaps and runs -----

  lemma BehindGap(gap: string, text: string)
    requires IsGap(gap) && IsText(text)
    ensures AfterSpace(gap + text) == Some(text)
  {
    assert (gap + text)[0] == gap[0];
    DropsSpaces(gap, text);
  }

  lemma GapInFront(s: string) returns (gap: string, text: string)
    requires AfterSpace(s).Some? && !IsSpace(s[|s| - 1])
    ensures s == gap + text && IsGap(gap) && IsText(text) && AfterSpace(s) == Some(text)
  {
    gap, text := SpacesInFront(s);
    assert text == "" ==> s == gap;
    assert gap == "" ==> s == text;
  }

  lemma {:induction false} CountsRun(run: string, c: char, t: string)
    requires AllOf(run, c) && !Starts(t, c)
    ensures CountChar(run + t, c) == |run|
  {
    if run == "" {
      assert run + t == t;
    } else {
      assert (run + t)[0] == run[0] && (run + t)[1..] == run[1..] + t;
      CountsRun(run[1..], c, t);
    }
  }

  lemma {:induction false} RunInFront(s: string, c: char)
    ensures AllOf(s[..CountChar(s, c)], c)
  {
    if s != "" && s[0] == c {
      RunInFront(s[1..], c);
      assert s[..CountChar(s, c)] == [s[0]] + s[1..][..CountChar(s[1..], c)];
    }
  }

  lemma {:induction false} CountsDigits(digits: string, t: string, d: Digits)
    requires AllDigits(digits, d) && (t == "" || !d(t[0]))
    ensures CountDigits(digits + t, d) == |digits|
  {
    if digits == "" {
      assert digits + t == t;
    } else {
      assert (digits + t)[0] == digits[0] && (digits + t)[1..] == digits[1..] + t;
      CountsDigits(digits[1..], t, d);
    }
  }

  lemma {:induction false} DigitsInFront(s: string, d: Digits)
    ensures AllDigits(s[..CountDigits(s, d)], d)
  {
    if s != "" && d(s[0]) {
      DigitsInFront(s[1..], d);
      assert s[..CountDigits(s, d)] == [s[0]] + s[1..][..CountDigits(s[1..], d)];
    }
  }

  lemma {:induction false} IndexFirst(a: string, c: char, t: string)
    requires c !in a
    ensures IndexOf(a + ([c] + t), c) == |a|
  {
    if a == "" {
      assert a + ([c] + t) == [c] + t;
    } else {
      assert (a + ([c] + t))[0] == a[0] && (a + ([c] + t))[1..] == a[1..] + ([c] + t);
      IndexFirst(a[1..], c, t);
    }
  }

  lemma {:induction false} IndexIsFirst(s: string, c: char)
    ensures c !in s[..IndexOf(s, c)] && (IndexOf(s, c) < |s| ==> s[IndexOf(s, c)] == c)
  {
    if s != "" && s[0] != c {
      IndexIsFirst(s[1..], c);
      assert s[..IndexOf(s, c)] == [s[0]] + s[1..][..IndexOf(s[1..], c)];
    }
  }

  // ----- headings -----

  lemma HeadingReads(s: string, hashes: string, gap: string, text: string)
    requires HeadingShape(s, hashes, gap, text)
    ensures HeadingOf(s) == Some(Heading(|hashes|, text)) && Starts(s, '#')
  {
    assert (gap + text)[0] == gap[0];
    CountsRun(hashes, '#', gap + text);
    assert s[|hashes|..] == gap + text;
    BehindGap(gap, text);
    assert s[0] == hashes[0];
  }

  lemma HeadingMeans(s: string, n: nat)
    requires HeadingOf(s).Some? && n == CountChar(s, '#')
    ensures 1 <= n <= 4 && AfterSpace(s[n..]).Some? && HeadingOf(s) == Some(Heading(n, AfterSpace(s[n..]).value))
  {
  }

  lemma LastIsKept(s: string, n: nat)
    requires n <= |s| && s[n..] != ""
    ensures s[n..][|s[n..]| - 1] == s[|s| - 1] && s == s[..n] + s[n..]
  {
  }

  lemma HeadingOfShape(s: string) returns (hashes: string, gap: string, text: string)
    requires HeadingOf(s).Some? && Trimmed(s)
    ensures HeadingShape(s, hashes, gap, text) && HeadingOf(s) == Some(Heading(|hashes|, text))
  {
    var n := CountChar(s, '#');
    HeadingMeans(s, n);
    RunInFront(s, '#');
    hashes := s[..n];
    LastIsKept(s, n);
    gap, text := GapInFront(s[n..]);
  }

  // ----- images -----

  lemma ImageParts(s: string, alt: string, src: string)
    requires ImageShape(s, alt, src)
    ensures |s| == |alt| + |src| + 5 && s[..2] == "![" && s[2..2 + |alt|] == alt && s[2..] == alt + ("](" + (src + ")"))
    ensures s[2 + |alt|] == ']' && s[3 + |alt|] == '(' && s[4 + |alt|..|s| - 1] == src && s[|s| - 1] == ')'
  {
  }

  lemma ImageReads(s: string, alt: string, src: string)
    requires ImageShape(s, alt, src)
    ensures ImageOf(s) == Some(Image(alt, src)) && Starts(s, '!')
  {
    ImageParts(s, alt, src);
    var t := "(" + (src + ")");
    assert alt + ("](" + (src + ")")) == alt + ([']'] + t);
    IndexFirst(alt, ']', t);
  }

  lemma FiveParts(s: string, k: nat) returns (alt: string, src: string)
    requires 2 <= k && k + 3 < |s| && s[..2] == "![" && s[k] == ']' && s[k + 1] == '(' && s[|s| - 1] == ')'
    ensures alt == s[2..k] && src == s[k + 2..|s| - 1]
    ensures s == "![" + (alt + ("](" + (src + ")")))
  {
    alt, src := s[2..k], s[k + 2..|s| - 1];
    var head, tail := s[..k], s[k..];
    assert s == head + tail && head == s[..2] + alt;
    assert tail == tail[..2] + tail[2..] && tail[..2] == "](";
    assert tail[2..] == src + ")";
    FiveTexts("![", alt, "](", src + ")");
  }

  lemma FiveTexts(a: string, b: string, c: string, e: string)
    ensures (a + b) + (c + e) == a + (b + (c + e))
  {
  }

  lemma ImageOfShape(s: string) returns (alt: string, src: string)
    requires ImageOf(s).Some?
    ensures ImageShape(s, alt, src) && ImageOf(s) == Some(Image(alt, src))
  {
    var n := IndexOf(s[2..], ']');
    IndexIsFirst(s[2..], ']');
    assert s[2..][..n] == s[2..2 + n];
    alt, src := FiveParts(s, 2 + n);
  }

  // ----- list entries -----

  lemma BulletReads(s: string, mark: char, gap: string, text: string, d: Digits)
    requires BulletShape(s, mark, gap, text)
    ensures ItemOf(s, d) == Some(Item(Bulleted, text)) && !IsRule(s) && (Starts(s, '-') || Starts(s, '*'))
  {
    assert s[0] == mark && s[1..] == gap + text && s[1] == gap[0];
    assert s[1] in s && !IsRuleChar(s[1]);
    BehindGap(gap, text);
  }

  lemma NumberReads(s: string, digits: string, gap: string, text: string, d: Digits)
    requires NumberShape(s, digits, gap, text, d)
    ensures ItemOf(s, d) == Some(Item(Numbered, text)) && s != "" && d(s[0])
  {
    var t := "." + (gap + text);
    assert t[0] == '.' && s[0] == digits[0];
    CountsDigits(digits, t, d);
    assert s[|digits| + 1..] == gap + text && s[|digits|] == '.';
    BehindGap(gap, text);
  }

  lemma BulletOfShape(s: string, d: Digits) returns (mark: char, gap: string, text: string)
    requires Trimmed(s) && ItemOf(s, d).Some? && ItemOf(s, d).value.list == Bulleted
    ensures BulletShape(s, mark, gap, text) && ItemOf(s, d) == Some(Item(Bulleted, text))
  {
    mark := s[0];
    LastIsKept(s, 1);
    gap, text := GapInFront(s[1..]);
  }

  lemma AtDot(s: string, n: nat)
    requires n < |s| && s[n] == '.'
    ensures s == s[..n] + ("." + s[n + 1..])
  {
  }

  lemma NumberMeans(s: string, n: nat, d: Digits)
    requires ItemOf(s, d).Some? && ItemOf(s, d).value.list == Numbered && n == CountDigits(s, d)
    ensures 0 < n && n + 1 < |s| && s[n] == '.' && AfterSpace(s[n + 1..]).Some?
    ensures ItemOf(s, d) == Some(Item(Numbered, AfterSpace(s[n + 1..]).value))
  {
  }

  lemma NumberOfShape(s: string, d: Digits) returns (digits: string, gap: string, text: string)
    requires Trimmed(s) && ItemOf(s, d).Some? && ItemOf(s, d).value.list == Numbered
    ensures NumberShape(s, digits, gap, text, d) && ItemOf(s, d) == Some(Item(Numbered, text))
  {
    var n := CountDigits(s, d);
    NumberMeans(s, n, d);
    DigitsInFront(s, d);
    digits := s[..n];
    LastIsKept(s, n + 1);
    gap, text := GapInFront(s[n + 1..]);
    AtDot(s, n);
  }

  // ----- rules and tables -----

  lemma RuleIs(s: string)
    ensures IsRule(s) <==> RuleShape(s)
  {
    assert forall i :: 0 <= i < |s| ==> s[i] in s;
  }

  lemma SeparatorReads(s: string, middle: string)
    requires SeparatorShape(s, middle)
    ensures IsTableSeparator(s)
  {
    forall c | c in s ensures IsSeparatorChar(c) {
      assert c == '|' || c in middle;
    }
  }

  lemma SeparatorOfShape(s: string) returns (middle: string)
    requires IsTableSeparator(s)
    ensures SeparatorShape(s, middle)
  {
    middle := s[1..|s| - 1];
    assert forall i :: 0 <= i < |middle| ==> middle[i] in s;
    assert s == s[..1] + (middle + s[|s| - 1..]);
  }

  // ----- the kinds of lines -----

  /** The tests of the loop by the first characters of the stripped line. */
  lemma FirstCharacters(line: string)
    ensures var s := Strip(line);
      && (IsFenceLine(line) <==> |s| >= 3 && s[0] == s[1] == s[2] == '`')
      && (IsQuoteLine(line) <==> Starts(s, '>'))
      && (IsBarLine(line) <==> Starts(s, '|'))
  {
  }

  lemma OtherStart(s: string)
    ensures HeadingOf(s).Some? ==> Starts(s, '#')
    ensures ImageOf(s).Some? ==> Starts(s, '!')
    ensures IsRule(s) ==> s != "" && s[0] in {'-', '*', '_'}
  {
    if IsRule(s) {
      assert s[0] in s;
    }
  }

  lemma ShapeIsKind(ls: seq<string>, k: LineKind, d: Digits)
    requires ls != [] && Shape(ls, k, d)
    ensures KindOf(ls, d) == k
  {
    var s := Strip(ls[0]);
    FirstCharacters(ls[0]);
    OtherStart(s);
    match k
    case Rule => RuleIs(s);
    case Heading(level, text) =>
      var hashes, gap :| HeadingShape(s, hashes, gap, text) && |hashes| == level;
      HeadingReads(s, hashes, gap, text);
    case Image(alt, src) => ImageReads(s, alt, src);
    case TableHead =>
      var middle :| SeparatorShape(Strip(ls[1]), middle);
      SeparatorReads(Strip(ls[1]), middle);
    case Item(Bulleted, text) =>
      var mark, gap :| BulletShape(s, mark, gap, text);
      BulletReads(s, mark, gap, text, d);
    case Item(Numbered, text) =>
      var digits, gap :| NumberShape(s, digits, gap, text, d);
      NumberReads(s, digits, gap, text, d);
    case _ =>
  }

  lemma KindHasShape(ls: seq<string>, d: Digits)
    requires ls != [] && KindOf(ls, d) != Plain
    ensures Shape(ls, KindOf(ls, d), d)
  {
    var s := Strip(ls[0]);
    FirstCharacters(ls[0]);
    StripIsTrimmed(ls[0]);
    match KindOf(ls, d)
    case Rule => RuleIs(s);
    case Heading(_, _) =>
      var hashes, gap, text := HeadingOfShape(s);
    case Image(_, _) =>
      var alt, src := ImageOfShape(s);
    case TableHead =>
      var middle := SeparatorOfShape(Strip(ls[1]));
    case Item(Bulleted, _) =>
      var mark, gap, text := BulletOfShape(s, d);
    case Item(Numbered, _) =>
      var digits, gap, text := NumberOfShape(s, d);
    case _ =>
  }

  /** The loop takes a line for what it looks like, and for paragraph text if it looks like nothing else. */
  lemma KindIsMeaning(ls: seq<string>, k: LineKind, d: Digits)
    requires ls != []
    ensures KindOf(ls, d) == k <==> Means(ls, k, d)
  {
    if KindOf(ls, d) != Plain {
      KindHasShape(ls, d);
    }
    if k != Plain {
      if Shape(ls, k, d) {
        ShapeIsKind(ls, k, d);
      }
    } else {
      forall other | Shape(ls, other, d) ensures KindOf(ls, d) == other {
        ShapeIsKind(ls, other, d);
      }
    }
  }
}

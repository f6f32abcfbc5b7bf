/** What a study text is translated to, run of lines by run of lines, by what the lines look like. */
module StudyRules {
  import opened Text
  import opened TildeEscape
  import opened StudyBlocks
  import opened StudyLines
  import opened StudyPages
  import opened StudyShapes
  import opened StudyRuns

  /** The whole page a text is translated to. */
  function PageOf(ls: seq<string>, d: Digits): seq<Token> {
    MarkdownIsCoherent(d);
    Page(ls, Markdown(d))
  }

  // ----- single lines -----

  /** Blank lines yield nothing; a rule, a heading and an image yield one piece each. */
  lemma SingleLines(ls: seq<string>, k: LineKind, d: Digits)
    requires ls != [] && Shape(ls, k, d)
    ensures match k
      case Blank => PageOf(ls, d) == PageOf(ls[1..], d)
      case Rule => PageOf(ls, d) == [Hr] + PageOf(ls[1..], d)
      case Heading(level, text) => PageOf(ls, d) == [H(level, text)] + PageOf(ls[1..], d)
      case Image(alt, src) => PageOf(ls, d) == [Img(src, alt)] + PageOf(ls[1..], d)
      case _ => true
  {
    MarkdownIsCoherent(d);
    ShapeIsKind(ls, k, d);
    OneLine(ls, Markdown(d));
  }

  // ----- lists -----

  ghost predicate AreEntries(run: seq<string>, rest: seq<string>, k: ListKind, texts: seq<string>, d: Digits) {
    |texts| == |run| && forall i :: 0 <= i < |run| ==> Shape(run[i..] + rest, Item(k, texts[i]), d)
  }

  lemma EntriesFollow(run: seq<string>, rest: seq<string>, k: ListKind, texts: seq<string>, d: Digits)
    requires AreEntries(run, rest, k, texts, d)
    ensures forall i :: 0 <= i < |run| ==> Markdown(d).kind(run[i..] + rest) == Item(k, texts[i])
  {
    forall i | 0 <= i < |run| ensures Markdown(d).kind(run[i..] + rest) == Item(k, texts[i]) {
      ShapeIsKind(run[i..] + rest, Item(k, texts[i]), d);
    }
  }

  /** Neighbouring entries of one kind make one list of that kind with their texts in order. */
  lemma ListPage(run: seq<string>, rest: seq<string>, k: ListKind, texts: seq<string>, d: Digits)
    returns (entries: seq<Token>)
    requires run != [] && AreEntries(run, rest, k, texts, d)
    requires rest == [] || forall text :: !Shape(rest, Item(k, text), d)
    ensures |entries| == |texts| && forall i :: 0 <= i < |texts| ==> entries[i] == Entry(texts[i])
    ensures PageOf(run + rest, d) == [Open(k)] + entries + [Close(k)] + PageOf(rest, d)
  {
    MarkdownIsCoherent(d);
    entries := Entries(texts);
    EntriesAre(texts);
    EntriesFollow(run, rest, k, texts, d);
    if rest != [] && InList(Markdown(d), k)(rest) {
      KindHasShape(rest, d);
    }
    ListBlock(run, rest, k, texts, Markdown(d));
  }

  // ----- paragraphs -----

  lemma PlainFollows(ls: seq<string>, d: Digits)
    requires ls != []
    ensures Markdown(d).kind(ls) == Plain <==> Means(ls, Plain, d)
  {
    KindIsMeaning(ls, Plain, d);
  }

  lemma ParagraphFollows(run: seq<string>, rest: seq<string>, d: Digits)
    requires run != [] && forall i :: 0 <= i < |run| ==> Means(run[i..] + rest, Plain, d)
    requires rest == [] || !Means(rest, Plain, d)
    ensures forall i :: 0 <= i < |run| ==> Markdown(d).kind(run[i..] + rest) == Plain
    ensures rest == [] || Markdown(d).kind(rest) != Plain
  {
    forall i | 0 <= i < |run| ensures Markdown(d).kind(run[i..] + rest) == Plain {
      PlainFollows(run[i..] + rest, d);
    }
    if rest != [] {
      PlainFollows(rest, d);
    }
  }

  lemma MapIs(run: seq<string>, f: string -> string, texts: seq<string>)
    requires |texts| == |run| && forall i :: 0 <= i < |run| ==> texts[i] == f(run[i])
    ensures Map(run, f) == texts
  {
  }

  /** Lines that look like nothing else make one paragraph of their stripped texts. */
  lemma ParagraphPage(run: seq<string>, rest: seq<string>, texts: seq<string>, d: Digits)
    requires run != [] && |texts| == |run| && forall i :: 0 <= i < |run| ==> texts[i] == Strip(run[i])
    requires forall i :: 0 <= i < |run| ==> Means(run[i..] + rest, Plain, d)
    requires rest == [] || !Means(rest, Plain, d)
    ensures PageOf(run + rest, d) == [Paragraph(texts)] + PageOf(rest, d)
  {
    MarkdownIsCoherent(d);
    MapIs(run, Strip, texts);
    ParagraphFollows(run, rest, d);
    ParagraphBlock(run, rest, Markdown(d));
  }

  // ----- quotations -----

  /** A line of a quotation: the text stands between white space behind the sign. */
  ghost predicate IsQuoted(line: string, text: string) {
    exists a, b :: Strip(line) == ">" + (a + (text + b)) && AllSpaces(a) && AllSpaces(b) && Trimmed(text)
  }

  lemma QuotedText(line: string, text: string)
    requires IsQuoted(line, text)
    ensures QuoteText(line) == text && Starts(Strip(line), '>')
  {
    var a, b :| Strip(line) == ">" + (a + (text + b)) && AllSpaces(a) && AllSpaces(b) && Trimmed(text);
    StripIs(a, text, b);
    assert Strip(line)[1..] == a + (text + b);
  }

  lemma QuoteHere(ls: seq<string>, line: string, d: Digits)
    requires ls != [] && ls[0] == line
    ensures Markdown(d).quote(ls) <==> Starts(Strip(line), '>')
    ensures Starts(Strip(line), '>') ==> Markdown(d).kind(ls) == Quote
  {
    FirstCharacters(line);
    if Starts(Strip(line), '>') {
      assert Shape(ls, Quote, d);
      ShapeIsKind(ls, Quote, d);
    }
  }

  lemma RunFirst(run: seq<string>, i: nat, rest: seq<string>)
    requires i < |run|
    ensures run[i..] + rest != [] && (run[i..] + rest)[0] == run[i]
  {
  }

  lemma QuotesHere(run: seq<string>, rest: seq<string>, d: Digits)
    requires run != [] && forall i :: 0 <= i < |run| ==> Starts(Strip(run[i]), '>')
    requires rest == [] || !Starts(Strip(rest[0]), '>')
    ensures Markdown(d).kind(run + rest) == Quote && (rest == [] || !Markdown(d).quote(rest))
    ensures forall i :: 0 <= i < |run| ==> Markdown(d).quote(run[i..] + rest)
  {
    QuoteHere(run + rest, run[0], d);
    if rest != [] {
      QuoteHere(rest, rest[0], d);
    }
    forall i | 0 <= i < |run| ensures Markdown(d).quote(run[i..] + rest) {
      RunFirst(run, i, rest);
      QuoteHere(run[i..] + rest, run[i], d);
    }
  }

  /** Neighbouring quoted lines make one quotation of their texts. */
  lemma QuotePage(run: seq<string>, rest: seq<string>, texts: seq<string>, d: Digits)
    requires run != [] && |texts| == |run| && forall i :: 0 <= i < |run| ==> IsQuoted(run[i], texts[i])
    requires rest == [] || !Starts(Strip(rest[0]), '>')
    ensures PageOf(run + rest, d) == [Blockquote(texts)] + PageOf(rest, d)
  {
    MarkdownIsCoherent(d);
    forall i | 0 <= i < |run| ensures Starts(Strip(run[i]), '>') && QuoteText(run[i]) == texts[i] {
      QuotedText(run[i], texts[i]);
    }
    MapIs(run, QuoteText, texts);
    QuotesHere(run, rest, d);
    QuoteBlock(run, rest, Markdown(d));
  }

  // ----- code -----

  ghost predicate IsFence(line: string, d: Digits) { Shape([line], Fence, d) }

  lemma FenceAlone(ls: seq<string>, d: Digits)
    requires ls != []
    ensures Shape(ls, Fence, d) <==> IsFence(ls[0], d)
  {
    assert [ls[0]][0] == ls[0];
  }

  lemma FenceFollows(ls: seq<string>, d: Digits)
    requires ls != []
    ensures Markdown(d).kind(ls) == Fence <==> IsFence(ls[0], d)
  {
    FenceAlone(ls, d);
    KindIsMeaning(ls, Fence, d);
  }

  lemma CodeFollows(body: seq<string>, tail: seq<string>, d: Digits)
    requires forall i :: 0 <= i < |body| ==> !IsFence(body[i], d)
    ensures forall i :: 0 <= i < |body| ==> Markdown(d).kind(body[i..] + tail) != Fence
  {
    forall i | 0 <= i < |body| ensures Markdown(d).kind(body[i..] + tail) != Fence {
      assert (body[i..] + tail)[0] == body[i];
      FenceFollows(body[i..] + tail, d);
    }
  }

  /** Between two fences all lines are code as they are, and behind the second the text begins anew. */
  lemma CodePage(opening: string, body: seq<string>, closing: string, rest: seq<string>, d: Digits)
    requires IsFence(opening, d) && IsFence(closing, d)
    requires forall i :: 0 <= i < |body| ==> !IsFence(body[i], d)
    ensures PageOf([opening] + (body + ([closing] + rest)), d) == [Pre(body)] + PageOf(rest, d)
  {
    MarkdownIsCoherent(d);
    var tail := [closing] + rest;
    CodeFollows(body, tail, d);
    FenceFollows(tail, d);
    FenceFollows([opening] + (body + tail), d);
    CodeBlockAt(opening, body, closing, rest, Markdown(d));
  }

  /** Code that nothing ends runs to the end of the text. */
  lemma OpenCodePage(opening: string, body: seq<string>, d: Digits)
    requires IsFence(opening, d) && forall i :: 0 <= i < |body| ==> !IsFence(body[i], d)
    ensures PageOf([opening] + body, d) == [Pre(body)]
  {
    MarkdownIsCoherent(d);
    CodeFollows(body, [], d);
    FenceFollows([opening] + body, d);
    OpenCodeBlock(opening, body, Markdown(d));
  }

  // ----- tables -----

  /** Texts with bars between them. */
  function JoinBars(cs: seq<string>): string {
    if cs == [] then "" else if |cs| == 1 then cs[0] else cs[0] + ("|" + JoinBars(cs[1..]))
  }

  predicate NoBars(cs: seq<string>) { forall i :: 0 <= i < |cs| ==> '|' !in cs[i] }

  predicate InsideBars(s: string) { s != "" ==> s[0] != '|' && s[|s| - 1] != '|' }

  /** A table line: any bars, the cells with bars between them, any bars. */
  predicate IsTableLine(line: string, front: string, cs: seq<string>, back: string) {
    && Strip(line) == front + (JoinBars(cs) + back) && cs != []
    && AllOf(front, '|') && AllOf(back, '|') && NoBars(cs) && InsideBars(JoinBars(cs))
  }

  lemma {:induction false} DropsBars(front: string, s: string)
    requires AllOf(front, '|') && !Starts(s, '|')
    ensures DropBars(front + s) == s
  {
    if front == "" {
      assert front + s == s;
    } else {
      assert (front + s)[0] == front[0] && (front + s)[1..] == front[1..] + s;
      DropsBars(front[1..], s);
    }
  }

  lemma {:induction false} DropsBarsEnd(s: string, back: string)
    requires AllOf(back, '|') && (s == "" || s[|s| - 1] != '|')
    ensures DropBarsEnd(s + back) == s
  {
    if back == "" {
      assert s + back == s;
    } else {
      var n := |back| - 1;
      assert (s + back)[|s| + n] == back[n] && (s + back)[..|s| + n] == s + back[..n];
      DropsBarsEnd(s, back[..n]);
    }
  }

  lemma BarsAreDropped(front: string, s: string, back: string)
    requires AllOf(front, '|') && AllOf(back, '|') && InsideBars(s)
    ensures DropBarsEnd(DropBars(front + (s + back))) == s
  {
    if s == "" {
      assert front + (s + back) == (front + back) + "";
      DropsBars(front + back, "");
    } else {
      assert (s + back)[0] == s[0];
      DropsBars(front, s + back);
      DropsBarsEnd(s, back);
    }
  }

  lemma SplitAtBar(c: string, t: string)
    requires '|' !in c
    ensures SplitBars(c + ("|" + t)) == [Strip(c)] + SplitBars(t)
  {
    IndexFirst(c, '|', t);
    var s := c + ("|" + t);
    assert s[..|c|] == c && s[|c| + 1..] == t;
  }

  lemma {:induction false} NoBarAhead(c: string)
    requires '|' !in c
    ensures IndexOf(c, '|') == |c|
  {
    if c != "" {
      assert c[0] in c;
      NoBarAhead(c[1..]);
    }
  }

  lemma {:induction false} SplitsJoined(cs: seq<string>)
    requires cs != [] && NoBars(cs)
    ensures SplitBars(JoinBars(cs)) == Map(cs, Strip)
  {
    if |cs| == 1 {
      NoBarAhead(cs[0]);
      assert cs[0][..|cs[0]|] == cs[0];
    } else {
      SplitAtBar(cs[0], JoinBars(cs[1..]));
      SplitsJoined(cs[1..]);
    }
  }

  /** The cells of a table line are its texts between the bars, stripped. */
  lemma CellsOfLine(line: string, front: string, cs: seq<string>, back: string)
    requires IsTableLine(line, front, cs, back)
    ensures |Cells(line)| == |cs| && forall i :: 0 <= i < |cs| ==> Cells(line)[i] == Strip(cs[i])
  {
    BarsAreDropped(front, JoinBars(cs), back);
    SplitsJoined(cs);
  }

  lemma BarHere(ls: seq<string>, line: string, d: Digits)
    requires ls != [] && ls[0] == line
    ensures Markdown(d).bar(ls) <==> Starts(Strip(line), '|')
  {
    FirstCharacters(line);
  }

  lemma BarsHere(rows: seq<string>, rest: seq<string>, d: Digits)
    requires forall i :: 0 <= i < |rows| ==> Starts(Strip(rows[i]), '|')
    requires rest == [] || !Starts(Strip(rest[0]), '|')
    ensures rest == [] || !Markdown(d).bar(rest)
    ensures forall i :: 0 <= i < |rows| ==> Markdown(d).bar(rows[i..] + rest)
  {
    if rest != [] {
      BarHere(rest, rest[0], d);
    }
    forall i | 0 <= i < |rows| ensures Markdown(d).bar(rows[i..] + rest) {
      RunFirst(rows, i, rest);
      BarHere(rows[i..] + rest, rows[i], d);
    }
  }

  lemma HeadHere(head: string, separator: string, tail: seq<string>, d: Digits)
    requires Shape([head, separator], TableHead, d)
    ensures Markdown(d).kind([head, separator] + tail) == TableHead
  {
    var ls := [head, separator] + tail;
    assert ls[0] == head && ls[1] == separator;
    assert Shape(ls, TableHead, d);
    ShapeIsKind(ls, TableHead, d);
  }

  /**
    A head, a separator and the lines with a bar behind them make one table: the cells of the head, then
    those of every further line. The separator and its cells are dropped.
   */
  lemma TablePage(head: string, separator: string, rows: seq<string>, rest: seq<string>, d: Digits)
    returns (inner: seq<Token>)
    requires Shape([head, separator], TableHead, d)
    requires forall i :: 0 <= i < |rows| ==> Starts(Strip(rows[i]), '|')
    requires rest == [] || !Starts(Strip(rest[0]), '|')
    ensures |inner| == |rows| && forall i :: 0 <= i < |rows| ==> inner[i] == TableRow(Cells(rows[i]))
    ensures PageOf([head, separator] + (rows + rest), d)
      == [TableStart(Cells(head))] + inner + [TableEnd] + PageOf(rest, d)
  {
    MarkdownIsCoherent(d);
    inner := Rows(rows, Markdown(d));
    RowsAre(rows, Markdown(d));
    HeadHere(head, separator, rows + rest, d);
    BarsHere(rows, rest, d);
    TableBlock(head, separator, rows, rest, Markdown(d));
  }
}

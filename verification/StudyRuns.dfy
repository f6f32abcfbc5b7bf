/** The page of a run of lines of one kind and what follows it, whatever tells the kinds apart. */
module StudyRuns {
  import opened StudyBlocks
  import opened StudyPages

  lemma {:induction false} RunLength(run: seq<string>, rest: seq<string>, p: seq<string> -> bool)
    requires forall i :: 0 <= i < |run| ==> p(run[i..] + rest)
    requires rest == [] || !p(rest)
    ensures CountWhile(run + rest, p) == |run|
  {
    if run == [] {
      assert run + rest == rest;
    } else {
      assert run[0..] == run && (run + rest)[1..] == run[1..] + rest;
      forall i | 0 <= i < |run| - 1 ensures p(run[1..][i..] + rest) {
        assert run[1..][i..] == run[i + 1..];
      }
      RunLength(run[1..], rest, p);
    }
  }

  lemma BehindRun(run: seq<string>, rest: seq<string>)
    ensures (run + rest)[..|run|] == run && (run + rest)[|run|..] == rest
  {
  }

  lemma PageBegins(ls: seq<string>, b: Block, rest: seq<string>, r: Reader)
    requires ls != [] && Coherent(r) && b == FirstBlock(ls, r) && ls[|SourceOf(b)|..] == rest
    ensures Page(ls, r) == TokensOf(b, r) + Page(rest, r)
  {
    PageFirst(ls, r);
  }

  lemma {:induction false} EntriesAre(texts: seq<string>)
    ensures |Entries(texts)| == |texts| && forall i :: 0 <= i < |texts| ==> Entries(texts)[i] == Entry(texts[i])
  {
    if texts != [] {
      EntriesAre(texts[1..]);
    }
  }

  lemma {:induction false} EntryTexts(
    run: seq<string>, rest: seq<string>, k: ListKind, texts: seq<string>, r: Reader)
    requires |texts| == |run| && forall i :: 0 <= i < |run| ==> r.kind(run[i..] + rest) == Item(k, texts[i])
    requires rest == [] || !InList(r, k)(rest)
    ensures ItemTexts(run + rest, r, k) == texts
  {
    if run == [] {
      assert run + rest == rest;
    } else {
      assert run[0..] == run && (run + rest)[1..] == run[1..] + rest;
      forall i | 0 <= i < |run| - 1 ensures r.kind(run[1..][i..] + rest) == Item(k, texts[1..][i]) {
        assert run[1..][i..] == run[i + 1..];
      }
      EntryTexts(run[1..], rest, k, texts[1..], r);
    }
  }

  lemma ListFirst(ls: seq<string>, n: nat, k: ListKind, texts: seq<string>, r: Reader)
    requires Coherent(r) && ls != [] && r.kind(ls).Item? && r.kind(ls).list == k
    requires n == CountWhile(ls, InList(r, k)) && texts == ItemTexts(ls, r, k)
    ensures Page(ls, r) == [Open(k)] + Entries(texts) + [Close(k)] + Page(ls[n..], r)
  {
    PageBegins(ls, Listing(k, ls[..n], texts), ls[n..], r);
  }

  lemma ParagraphFirst(ls: seq<string>, n: nat, r: Reader)
    requires Coherent(r) && ls != [] && r.kind(ls) == Plain && n == CountWhile(ls, InPara(r))
    ensures Page(ls, r) == [Paragraph(Map(ls[..n], r.strip))] + Page(ls[n..], r)
  {
    PageBegins(ls, Para(ls[..n]), ls[n..], r);
  }

  lemma QuoteFirst(ls: seq<string>, n: nat, r: Reader)
    requires Coherent(r) && ls != [] && r.kind(ls) == Quote && n == CountWhile(ls, r.quote)
    ensures Page(ls, r) == [Blockquote(Map(ls[..n], r.quoted))] + Page(ls[n..], r)
  {
    PageBegins(ls, Quotation(ls[..n]), ls[n..], r);
  }

  lemma ListBlock(run: seq<string>, rest: seq<string>, k: ListKind, texts: seq<string>, r: Reader)
    requires Coherent(r) && run != [] && |texts| == |run|
    requires forall i :: 0 <= i < |run| ==> r.kind(run[i..] + rest) == Item(k, texts[i])
    requires rest == [] || !InList(r, k)(rest)
    ensures Page(run + rest, r) == [Open(k)] + Entries(texts) + [Close(k)] + Page(rest, r)
  {
    RunLength(run, rest, InList(r, k));
    EntryTexts(run, rest, k, texts, r);
    BehindRun(run, rest);
    assert run[0..] == run;
    ListFirst(run + rest, |run|, k, texts, r);
  }

  lemma ParagraphBlock(run: seq<string>, rest: seq<string>, r: Reader)
    requires Coherent(r) && run != []
    requires forall i :: 0 <= i < |run| ==> r.kind(run[i..] + rest) == Plain
    requires rest == [] || r.kind(rest) != Plain
    ensures Page(run + rest, r) == [Paragraph(Map(run, r.strip))] + Page(rest, r)
  {
    RunLength(run, rest, InPara(r));
    BehindRun(run, rest);
    assert run[0..] == run;
    ParagraphFirst(run + rest, |run|, r);
  }

  lemma QuoteBlock(run: seq<string>, rest: seq<string>, r: Reader)
    requires Coherent(r) && run != [] && r.kind(run + rest) == Quote
    requires forall i :: 0 <= i < |run| ==> r.quote(run[i..] + rest)
    requires rest == [] || !r.quote(rest)
    ensures Page(run + rest, r) == [Blockquote(Map(run, r.quoted))] + Page(rest, r)
  {
    RunLength(run, rest, r.quote);
    BehindRun(run, rest);
    QuoteFirst(run + rest, |run|, r);
  }

  lemma {:induction false} RowsAre(rows: seq<string>, r: Reader)
    ensures |Rows(rows, r)| == |rows| && forall i :: 0 <= i < |rows| ==> Rows(rows, r)[i] == TableRow(r.cells(rows[i]))
  {
    if rows != [] {
      RowsAre(rows[1..], r);
    }
  }

  lemma TableBlock(head: string, separator: string, rows: seq<string>, rest: seq<string>, r: Reader)
    requires Coherent(r) && r.kind([head, separator] + (rows + rest)) == TableHead
    requires forall i :: 0 <= i < |rows| ==> r.bar(rows[i..] + rest)
    requires rest == [] || !r.bar(rest)
    ensures Page([head, separator] + (rows + rest), r)
      == [TableStart(r.cells(head))] + Rows(rows, r) + [TableEnd] + Page(rest, r)
  {
    var ls := [head, separator] + (rows + rest);
    RunLength(rows, rest, r.bar);
    BehindRun(rows, rest);
    assert ls[2..] == rows + rest;
    assert ls[|[head, separator] + rows|..] == rest;
    PageBegins(ls, Table(head, separator, rows), rest, r);
  }

  lemma CodeBlockAt(opening: string, body: seq<string>, closing: string, rest: seq<string>, r: Reader)
    requires Coherent(r) && r.kind([opening] + (body + ([closing] + rest))) == Fence
    requires forall i :: 0 <= i < |body| ==> r.kind(body[i..] + ([closing] + rest)) != Fence
    requires r.kind([closing] + rest) == Fence
    ensures Page([opening] + (body + ([closing] + rest)), r) == [Pre(body)] + Page(rest, r)
  {
    var ls := [opening] + (body + ([closing] + rest));
    RunLength(body, [closing] + rest, InCode(r));
    BehindRun(body, [closing] + rest);
    assert ls[1..] == body + ([closing] + rest) && ls[1 + |body|] == closing;
    assert ls[|[opening] + body + [closing]|..] == rest;
    PageBegins(ls, CodeBlock(opening, body, [closing]), rest, r);
  }

  lemma OpenCodeBlock(opening: string, body: seq<string>, r: Reader)
    requires Coherent(r) && r.kind([opening] + body) == Fence
    requires forall i :: 0 <= i < |body| ==> r.kind(body[i..] + []) != Fence
    ensures Page([opening] + body, r) == [Pre(body)]
  {
    var ls := [opening] + body;
    RunLength(body, [], InCode(r));
    assert ls[1..] == body && body + [] == body && body[..|body|] == body;
    assert ls[|[opening] + body + []|..] == [];
    PageBegins(ls, CodeBlock(opening, body, []), [], r);
    assert Page([], r) == [];
    assert [Pre(body)] + [] == [Pre(body)];
  }

  lemma OneLine(ls: seq<string>, r: Reader)
    requires Coherent(r) && ls != []
    ensures match r.kind(ls)
      case Blank => Page(ls, r) == Page(ls[1..], r)
      case Rule => Page(ls, r) == [Hr] + Page(ls[1..], r)
      case Heading(level, text) => Page(ls, r) == [H(level, text)] + Page(ls[1..], r)
      case Image(alt, src) => Page(ls, r) == [Img(src, alt)] + Page(ls[1..], r)
      case _ => true
  {
    var k := r.kind(ls);
    if k == Blank || k == Rule || k.Heading? || k.Image? {
      PageBegins(ls, FirstBlock(ls, r), ls[1..], r);
      assert [] + Page(ls[1..], r) == Page(ls[1..], r);
    }
  }
}

/** The blocks that runs of Markdown lines make, whatever tells the kinds of lines apart. */
module StudyBlocks {

  datatype ListKind = Bulleted | Numbered

  datatype LineKind =
    | Fence | Blank | Rule | Heading(level: nat, text: string) | Image(alt: string, src: string)
    | Quote | TableHead | Item(list: ListKind, text: string) | Plain

  /**
    Telling lines apart; each function sees a line with all that follow it. `kind` is what the
    loop takes a line for, `quote` and `bar` are the tests of the inner loops. `strip`, `quoted`
    and `cells` take the text out of a line of a paragraph, a quotation and a table.
   */
  datatype Reader = Reader(
    kind: seq<string> -> LineKind, quote: seq<string> -> bool, bar: seq<string> -> bool,
    strip: string -> string, quoted: string -> string, cells: string -> seq<string>)

  ghost predicate Coherent(r: Reader) {
    && (forall ls :: ls != [] && r.kind(ls) == Quote ==> r.quote(ls))
    && (forall ls :: ls != [] && r.kind(ls) == TableHead ==> |ls| > 1)
  }

  // ----- runs of lines -----

  function CountWhile(ls: seq<string>, p: seq<string> -> bool): (n: nat)
    ensures n <= |ls|
  {
    if ls != [] && p(ls) then 1 + CountWhile(ls[1..], p) else 0
  }

  function InCode(r: Reader): seq<string> -> bool { (ls: seq<string>) => r.kind(ls) != Fence }

  function InPara(r: Reader): seq<string> -> bool { (ls: seq<string>) => r.kind(ls) == Plain }

  function InList(r: Reader, k: ListKind): seq<string> -> bool {
    (ls: seq<string>) => r.kind(ls).Item? && r.kind(ls).list == k
  }

  // ----- blocks -----

  /** A run of source lines with what it means. */
  datatype Block =
    | BlankLine(line: string)
    | CodeBlock(opening: string, body: seq<string>, closing: seq<string>)
    | RuleLine(line: string)
    | HeadingLine(line: string, level: nat, text: string)
    | ImageLine(line: string, alt: string, src: string)
    | Quotation(lines: seq<string>)
    | Table(head: string, separator: string, rows: seq<string>)
    | Listing(list: ListKind, lines: seq<string>, texts: seq<string>)
    | Para(lines: seq<string>)

  function SourceOf(b: Block): seq<string> {
    match b
    case BlankLine(line) => [line]
    case CodeBlock(opening, body, closing) => [opening] + body + closing
    case RuleLine(line) => [line]
    case HeadingLine(line, _, _) => [line]
    case ImageLine(line, _, _) => [line]
    case Quotation(lines) => lines
    case Table(head, separator, rows) => [head, separator] + rows
    case Listing(_, lines, _) => lines
    case Para(lines) => lines
  }

  function CodeAt(ls: seq<string>, r: Reader): (b: Block)
    requires ls != []
    ensures SourceOf(b) <= ls
  {
    var n := CountWhile(ls[1..], InCode(r));
    CodeBlock(ls[0], ls[1..][..n], if 1 + n < |ls| then [ls[1 + n]] else [])
  }

  function TableAt(ls: seq<string>, r: Reader): (b: Block)
    requires |ls| > 1
    ensures SourceOf(b) <= ls
  {
    Table(ls[0], ls[1], ls[2..][..CountWhile(ls[2..], r.bar)])
  }

  /** The texts of the items at the front. */
  function ItemTexts(ls: seq<string>, r: Reader, k: ListKind): seq<string> {
    if ls != [] && InList(r, k)(ls) then [r.kind(ls).text] + ItemTexts(ls[1..], r, k) else []
  }

  /** The block at the front of a text that is not inside any other. */
  function FirstBlock(ls: seq<string>, r: Reader): (b: Block)
    requires ls != [] && Coherent(r)
    ensures SourceOf(b) <= ls && |SourceOf(b)| >= 1
  {
    match r.kind(ls)
    case Fence => CodeAt(ls, r)
    case Blank => BlankLine(ls[0])
    case Rule => RuleLine(ls[0])
    case Heading(level, text) => HeadingLine(ls[0], level, text)
    case Image(alt, src) => ImageLine(ls[0], alt, src)
    case Quote => Quotation(ls[..CountWhile(ls, r.quote)])
    case TableHead => TableAt(ls, r)
    case Item(k, _) => Listing(k, ls[..CountWhile(ls, InList(r, k))], ItemTexts(ls, r, k))
    case Plain => Para(ls[..CountWhile(ls, InPara(r))])
  }

  /** All blocks of a text. */
  function Parse(ls: seq<string>, r: Reader): seq<Block>
    requires Coherent(r)
    decreases |ls|
  {
    if ls == [] then [] else [FirstBlock(ls, r)] + Parse(ls[|SourceOf(FirstBlock(ls, r))|..], r)
  }

  function Concat(bs: seq<Block>): seq<string> { if bs == [] then [] else SourceOf(bs[0]) + Concat(bs[1..]) }

  /** Every line belongs to one block: the blocks one after the other are the text. */
  lemma {:induction false} BlocksCoverTheText(ls: seq<string>, r: Reader)
    requires Coherent(r)
    ensures Concat(Parse(ls, r)) == ls
    decreases |ls|
  {
    if ls != [] {
      var b := FirstBlock(ls, r);
      var n := |SourceOf(b)|;
      var rest := Parse(ls[n..], r);
      BlocksCoverTheText(ls[n..], r);
      assert Parse(ls, r) == [b] + rest;
      ConcatFirst(b, rest);
      assert SourceOf(b) + ls[n..] == ls;
    }
  }

  lemma ConcatFirst(b: Block, bs: seq<Block>)
    ensures Concat([b] + bs) == SourceOf(b) + Concat(bs)
  {
    assert ([b] + bs)[1..] == bs;
  }
}

/** What the lines of a Markdown text mean, one at a time. */
module StudyLines {
  import opened Seqs
  import opened Text
  import opened TildeEscape
  import opened StudyBlocks
  import opened StudyPages

  // ----- one line -----

  predicate IsRuleChar(c: char) { c == '-' || c == '*' || c == '_' }

  /** `[-*_]{3,}` */
  predicate IsRule(s: string) { |s| >= 3 && forall c :: c in s ==> IsRuleChar(c) }

  function CountChar(s: string, c: char): (n: nat)
    ensures n <= |s|
  {
    if s != "" && s[0] == c then 1 + CountChar(s[1..], c) else 0
  }

  /** The text behind at least one white space, as in `\s+(.*)$`. */
  function AfterSpace(s: string): Option<string> {
    if s != "" && IsSpace(s[0]) then Some(DropSpaces(s)) else None
  }

  /** `^(#{1,4})\s+(.*)$` */
  function HeadingOf(s: string): (r: Option<LineKind>)
    ensures r.Some? ==> r.value.Heading?
  {
    var level := CountChar(s, '#');
    var text := AfterSpace(s[level..]);
    if 1 <= level <= 4 && text.Some? then Some(Heading(level, text.value)) else None
  }

  function IndexOf(s: string, c: char): (n: nat)
    ensures n <= |s|
  {
    if s == "" || s[0] == c then 0 else 1 + IndexOf(s[1..], c)
  }

  /** `^!\[([^\]]*)\]\(([^)]+)\)$` */
  function ImageOf(s: string): (r: Option<LineKind>)
    ensures r.Some? ==> r.value.Image?
  {
    if !("![" <= s) then None
    else
      var close := 2 + IndexOf(s[2..], ']');
      if close + 3 < |s| && s[close + 1] == '(' && s[|s| - 1] == ')' && ')' !in s[close + 2..|s| - 1]
      then Some(Image(s[2..close], s[close + 2..|s| - 1])) else None
  }

  /** `^[-*]\s+(.*)$` and `^\d+\.\s+(.*)$` */
  function ItemOf(s: string, d: Digits): (r: Option<LineKind>)
    ensures r.Some? ==> r.value.Item?
  {
    var digits := CountDigits(s, d);
    if s != "" && (s[0] == '-' || s[0] == '*') && AfterSpace(s[1..]).Some? then
      Some(Item(Bulleted, AfterSpace(s[1..]).value))
    else if digits > 0 && digits < |s| && s[digits] == '.' && AfterSpace(s[digits + 1..]).Some?
    then Some(Item(Numbered, AfterSpace(s[digits + 1..]).value))
    else None
  }

  function CountDigits(s: string, d: Digits): (n: nat)
    ensures n <= |s|
  {
    if s != "" && d(s[0]) then 1 + CountDigits(s[1..], d) else 0
  }

  predicate IsSeparatorChar(c: char) { IsSpace(c) || c == ':' || c == '-' || c == '|' }

  /** `^\|[\s:\-|]+\|$` */
  predicate IsTableSeparator(s: string) {
    |s| >= 3 && s[0] == '|' && s[|s| - 1] == '|' && forall c :: c in s ==> IsSeparatorChar(c)
  }

  predicate IsFenceLine(line: string) { "```" <= Strip(line) }

  predicate IsQuoteLine(line: string) { ">" <= Strip(line) }

  predicate IsBarLine(line: string) { "|" <= Strip(line) }

  /** A table needs the line behind its head. */
  function TableItemOrPlain(ls: seq<string>, d: Digits): (r: LineKind)
    requires ls != []
    ensures r != Quote && (r == TableHead ==> |ls| > 1)
  {
    var item := ItemOf(Strip(ls[0]), d);
    if IsBarLine(ls[0]) && |ls| > 1 && IsTableSeparator(Strip(ls[1])) then TableHead
    else if item.Some? then item.value
    else Plain
  }

  /** What the loop takes the first line for, outside code. */
  function KindOf(ls: seq<string>, d: Digits): (r: LineKind)
    requires ls != []
    ensures r == Quote ==> IsQuoteLine(ls[0])
    ensures r == TableHead ==> |ls| > 1
  {
    var s := Strip(ls[0]);
    var heading, image := HeadingOf(s), ImageOf(s);
    if IsFenceLine(ls[0]) then Fence
    else if s == "" then Blank
    else if IsRule(s) then Rule
    else if heading.Some? then heading.value
    else if image.Some? then image.value
    else if IsQuoteLine(ls[0]) then Quote
    else TableItemOrPlain(ls, d)
  }

  /** `[c.strip() for c in line.strip().strip("|").split("|")]` */
  function Cells(line: string): seq<string> { SplitBars(DropBarsEnd(DropBars(Strip(line)))) }

  function DropBars(s: string): string { if s != "" && s[0] == '|' then DropBars(s[1..]) else s }

  function DropBarsEnd(s: string): string { if s != "" && s[|s| - 1] == '|' then DropBarsEnd(s[..|s| - 1]) else s }

  function SplitBars(s: string): seq<string> {
    var n := IndexOf(s, '|');
    [Strip(s[..n])] + if n < |s| then SplitBars(s[n + 1..]) else []
  }

  function QuoteText(line: string): string {
    var s := Strip(line);
    if s == "" then "" else Strip(s[1..])
  }

  function KindIn(d: Digits): seq<string> -> LineKind {
    (ls: seq<string>) => if ls == [] then Blank else KindOf(ls, d)
  }

  /** How the translator reads lines. */
  function Markdown(d: Digits): Reader {
    Reader(
      KindIn(d), (ls: seq<string>) => ls != [] && IsQuoteLine(ls[0]), (ls: seq<string>) => ls != [] && IsBarLine(ls[0]),
      Strip, QuoteText, Cells)
  }

  lemma MarkdownIsCoherent(d: Digits)
    ensures Coherent(Markdown(d))
  {
  }

  /** The translation of a study text given as its lines. */
  method TranslateStudyText(lines: seq<string>, d: Digits) returns (html: seq<Token>)
    ensures Coherent(Markdown(d)) && html == Page(lines, Markdown(d))
    ensures Reach(Top, html) == Some(Top)
  {
    MarkdownIsCoherent(d);
    html := MarkdownToHtml(lines, Markdown(d));
  }
}

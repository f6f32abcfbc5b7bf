/** Translating the blocks of a study text to HTML, as one loop over lines and as a tree of blocks. */
module StudyPages {
  import opened Seqs
  import opened StudyBlocks

  /** A piece of the output; paragraphs, entries and the like hold text not yet marked up. */
  datatype Token =
    | Open(list: ListKind) | Entry(text: string) | Close(list: ListKind)
    | Paragraph(lines: seq<string>) | Pre(lines: seq<string>) | Hr | H(level: nat, text: string)
    | Img(src: string, alt: string) | Blockquote(lines: seq<string>)
    | TableStart(header: seq<string>) | TableRow(cells: seq<string>) | TableEnd

  function Map<T, U>(s: seq<T>, f: T -> U): (r: seq<U>)
    ensures |r| == |s| && forall i :: 0 <= i < |s| ==> r[i] == f(s[i])
  {
    if s == [] then [] else [f(s[0])] + Map(s[1..], f)
  }

  function Entries(texts: seq<string>): seq<Token> {
    if texts == [] then [] else [Entry(texts[0])] + Entries(texts[1..])
  }

  function Rows(lines: seq<string>, r: Reader): seq<Token> {
    if lines == [] then [] else [TableRow(r.cells(lines[0]))] + Rows(lines[1..], r)
  }

  // ----- the reference: block by block -----

  function TokensOf(b: Block, r: Reader): seq<Token> {
    match b
    case BlankLine(_) => []
    case CodeBlock(_, body, _) => [Pre(body)]
    case RuleLine(_) => [Hr]
    case HeadingLine(_, level, text) => [H(level, text)]
    case ImageLine(_, alt, src) => [Img(src, alt)]
    case Quotation(lines) => [Blockquote(Map(lines, r.quoted))]
    case Table(head, _, rows) => [TableStart(r.cells(head))] + Rows(rows, r) + [TableEnd]
    case Listing(k, _, texts) => [Open(k)] + Entries(texts) + [Close(k)]
    case Para(lines) => [Paragraph(Map(lines, r.strip))]
  }

  function Flatten(bs: seq<Block>, r: Reader): seq<Token> {
    if bs == [] then [] else TokensOf(bs[0], r) + Flatten(bs[1..], r)
  }

  function Page(ls: seq<string>, r: Reader): seq<Token>
    requires Coherent(r)
  {
    Flatten(Parse(ls, r), r)
  }

  lemma PageFirst(ls: seq<string>, r: Reader)
    requires Coherent(r) && ls != []
    ensures var b := FirstBlock(ls, r); Page(ls, r) == TokensOf(b, r) + Page(ls[|SourceOf(b)|..], r)
  {
    var b := FirstBlock(ls, r);
    assert Parse(ls, r)[1..] == Parse(ls[|SourceOf(b)|..], r);
  }

  // ----- well nested output -----

  datatype Place = Top | InsideList(list: ListKind) | InsideTable

  /** Where the output stands after one more piece; `None` if the piece may not stand there. */
  function Step(place: Place, t: Token): Option<Place> {
    match t
    case Open(k) => if place == Top then Some(InsideList(k)) else None
    case Entry(_) => if place.InsideList? then Some(place) else None
    case Close(k) => if place == InsideList(k) then Some(Top) else None
    case TableStart(_) => if place == Top then Some(InsideTable) else None
    case TableRow(_) => if place == InsideTable then Some(place) else None
    case TableEnd => if place == InsideTable then Some(Top) else None
    case _ => if place == Top then Some(Top) else None
  }

  function Reach(place: Place, ts: seq<Token>): Option<Place>
    decreases |ts|
  {
    if ts == [] then Some(place)
    else
      match Step(place, ts[0])
      case None => None
      case Some(next) => Reach(next, ts[1..])
  }

  lemma {:induction false} ReachAppend(place: Place, a: seq<Token>, b: seq<Token>)
    requires Reach(place, a).Some?
    ensures Reach(place, a + b) == Reach(Reach(place, a).value, b)
    decreases |a|
  {
    if a == [] {
      assert a + b == b;
    } else {
      assert (a + b)[1..] == a[1..] + b;
      ReachAppend(Step(place, a[0]).value, a[1..], b);
    }
  }

  lemma {:induction false} EntriesStayInside(texts: seq<string>, k: ListKind)
    ensures Reach(InsideList(k), Entries(texts)) == Some(InsideList(k))
  {
    if texts != [] {
      EntriesStayInside(texts[1..], k);
      assert Entries(texts)[1..] == Entries(texts[1..]);
    }
  }

  lemma {:induction false} RowsStayInside(lines: seq<string>, r: Reader)
    ensures Reach(InsideTable, Rows(lines, r)) == Some(InsideTable)
  {
    if lines != [] {
      RowsStayInside(lines[1..], r);
      assert Rows(lines, r)[1..] == Rows(lines[1..], r);
    }
  }

  lemma Enclosed(open: Token, inner: seq<Token>, close: Token, inside: Place)
    requires Step(Top, open) == Some(inside) && Reach(inside, inner) == Some(inside) && Step(inside, close) == Some(Top)
    ensures Reach(Top, [open] + inner + [close]) == Some(Top)
  {
    ReachAppend(inside, inner, [close]);
    assert ([open] + inner + [close])[1..] == inner + [close];
    assert [close][1..] == [];
  }

  lemma BlockIsNested(b: Block, r: Reader)
    ensures Reach(Top, TokensOf(b, r)) == Some(Top)
  {
    match b
    case Listing(k, _, texts) =>
      EntriesStayInside(texts, k);
      Enclosed(Open(k), Entries(texts), Close(k), InsideList(k));
    case Table(head, _, rows) =>
      RowsStayInside(rows, r);
      Enclosed(TableStart(r.cells(head)), Rows(rows, r), TableEnd, InsideTable);
    case BlankLine(_) =>
    case _ =>
      var ts := TokensOf(b, r);
      assert |ts| == 1 && ts[1..] == [];
  }

  /** Every list and table is closed by its own end before any other block begins, and all are closed at the end. */
  lemma {:induction false} PagesAreNested(bs: seq<Block>, r: Reader)
    ensures Reach(Top, Flatten(bs, r)) == Some(Top)
  {
    if bs != [] {
      BlockIsNested(bs[0], r);
      PagesAreNested(bs[1..], r);
      ReachAppend(Top, TokensOf(bs[0], r), Flatten(bs[1..], r));
    }
  }

  // ----- the loop -----

  /** Its variables: the output, the open code block, the pending paragraph and the open list. */
  datatype State = State(html: seq<Token>, code: Option<seq<string>>, para: seq<string>, list: Option<ListKind>)

  const START := State([], None, [], None)

  /** An open list, a pending paragraph and an open code block exclude each other. */
  predicate Exclusive(st: State) {
    (st.code.Some? ==> st.para == [] && st.list.None?) && (st.para != [] ==> st.list.None?)
  }

  function FlushPara(st: State): State {
    if st.para != [] then st.(html := st.html + [Paragraph(st.para)], para := []) else st
  }

  function FlushList(st: State): State {
    match st.list
    case Some(k) => st.(html := st.html + [Close(k)], list := None)
    case None => st
  }

  function Flushed(st: State): State { FlushList(FlushPara(st)) }

  function Emit(st: State, ts: seq<Token>): State { st.(html := st.html + ts) }

  function OpenList(st: State, k: ListKind): State {
    if st.list == Some(k) then st else Emit(FlushList(st), [Open(k)]).(list := Some(k))
  }

  /** One turn of the outer loop. */
  function Feed(st: State, ls: seq<string>, r: Reader): State
    requires ls != [] && Coherent(r)
  {
    var kind := r.kind(ls);
    if kind == Fence then
      if st.code.None? then Flushed(st).(code := Some([])) else Emit(st, [Pre(st.code.value)]).(code := None)
    else if st.code.Some? then st.(code := Some(st.code.value + [ls[0]]))
    else if kind.Item? then Emit(OpenList(FlushPara(st), kind.list), [Entry(kind.text)])
    else if kind == Plain then
      var flushed := FlushList(st);
      flushed.(para := flushed.para + [r.strip(ls[0])])
    else Emit(Flushed(st), TokensOf(FirstBlock(ls, r), r))
  }

  /** How many lines a turn takes: the inner loops of quotations and tables take several. */
  function Taken(st: State, ls: seq<string>, r: Reader): (n: nat)
    requires ls != [] && Coherent(r)
    ensures 1 <= n <= |ls|
  {
    var kind := r.kind(ls);
    if st.code.None? && (kind == Quote || kind == TableHead) then |SourceOf(FirstBlock(ls, r))| else 1
  }

  function Ended(st: State): seq<Token> {
    Flushed(st).html + if st.code.Some? then [Pre(st.code.value)] else []
  }

  // ----- the loop makes the page -----

  function CodePending(body: seq<string>, ls: seq<string>, r: Reader): seq<Token>
    requires Coherent(r)
  {
    var m := CountWhile(ls, InCode(r));
    [Pre(body + ls[..m])] + Page(if m < |ls| then ls[m + 1..] else [], r)
  }

  function ParaPending(para: seq<string>, ls: seq<string>, r: Reader): seq<Token>
    requires Coherent(r)
  {
    var m := CountWhile(ls, InPara(r));
    [Paragraph(para + Map(ls[..m], r.strip))] + Page(ls[m..], r)
  }

  function ListPending(k: ListKind, ls: seq<string>, r: Reader): seq<Token>
    requires Coherent(r)
  {
    Entries(ItemTexts(ls, r, k)) + ([Close(k)] + Page(ls[CountWhile(ls, InList(r, k))..], r))
  }

  /** What the loop has still to emit: the rest of the open block, and the page of the lines behind it. */
  function Pending(st: State, ls: seq<string>, r: Reader): seq<Token>
    requires Coherent(r)
  {
    if st.code.Some? then CodePending(st.code.value, ls, r)
    else if st.para != [] then ParaPending(st.para, ls, r)
    else if st.list.Some? then ListPending(st.list.value, ls, r)
    else Page(ls, r)
  }

  lemma CodeGoesOn(body: seq<string>, ls: seq<string>, r: Reader)
    requires Coherent(r) && ls != []
    ensures r.kind(ls) != Fence ==> CodePending(body, ls, r) == CodePending(body + [ls[0]], ls[1..], r)
    ensures r.kind(ls) == Fence ==> CodePending(body, ls, r) == [Pre(body)] + Page(ls[1..], r)
  {
    var m := CountWhile(ls, InCode(r));
    if r.kind(ls) == Fence {
      assert m == 0 && body + ls[..m] == body;
    } else {
      assert ls[..m] == [ls[0]] + ls[1..][..m - 1];
      assert body + ls[..m] == (body + [ls[0]]) + ls[1..][..m - 1];
      assert m < |ls| ==> ls[m + 1..] == ls[1..][m..];
    }
  }

  lemma ParaGoesOn(para: seq<string>, ls: seq<string>, r: Reader)
    requires Coherent(r) && ls != []
    ensures r.kind(ls) == Plain ==> ParaPending(para, ls, r) == ParaPending(para + [r.strip(ls[0])], ls[1..], r)
    ensures r.kind(ls) != Plain ==> ParaPending(para, ls, r) == [Paragraph(para)] + Page(ls, r)
  {
    var m := CountWhile(ls, InPara(r));
    if r.kind(ls) == Plain {
      assert ls[..m][0] == ls[0] && ls[..m][1..] == ls[1..][..m - 1];
      assert para + Map(ls[..m], r.strip) == (para + [r.strip(ls[0])]) + Map(ls[1..][..m - 1], r.strip);
      assert ls[m..] == ls[1..][m - 1..];
    } else {
      assert m == 0 && para + Map(ls[..m], r.strip) == para && ls[m..] == ls;
    }
  }

  lemma EntriesFirst(text: string, texts: seq<string>, rest: seq<Token>)
    ensures Entries([text] + texts) + rest == [Entry(text)] + (Entries(texts) + rest)
  {
    assert ([text] + texts)[1..] == texts;
  }

  lemma ItemsFirst(k: ListKind, ls: seq<string>, r: Reader)
    requires ls != [] && r.kind(ls).Item? && r.kind(ls).list == k
    ensures ItemTexts(ls, r, k) == [r.kind(ls).text] + ItemTexts(ls[1..], r, k)
    ensures var m := CountWhile(ls, InList(r, k));
      m == 1 + CountWhile(ls[1..], InList(r, k)) && ls[m..] == ls[1..][m - 1..]
  {
  }

  lemma ListGoesOn(k: ListKind, ls: seq<string>, r: Reader)
    requires Coherent(r) && ls != [] && r.kind(ls).Item? && r.kind(ls).list == k
    ensures ListPending(k, ls, r) == [Entry(r.kind(ls).text)] + ListPending(k, ls[1..], r)
  {
    ItemsFirst(k, ls, r);
    EntriesFirst(r.kind(ls).text, ItemTexts(ls[1..], r, k),
      [Close(k)] + Page(ls[1..][CountWhile(ls[1..], InList(r, k))..], r));
  }

  lemma ListEnds(k: ListKind, ls: seq<string>, r: Reader)
    requires Coherent(r) && ls != [] && !(r.kind(ls).Item? && r.kind(ls).list == k)
    ensures ListPending(k, ls, r) == [Close(k)] + Page(ls, r)
  {
    assert CountWhile(ls, InList(r, k)) == 0 && ls[0..] == ls && ItemTexts(ls, r, k) == [];
  }

  lemma EndMeans(st: State, r: Reader)
    requires Coherent(r) && Exclusive(st)
    ensures Ended(st) == st.html + Pending(st, [], r)
  {
    assert Page([], r) == [];
    if st.code.Some? {
      assert st.code.value + [] == st.code.value;
    } else if st.para != [] {
      assert st.para + Map([], r.strip) == st.para;
    }
  }

  predicate Clean(st: State) { st.code.None? && st.para == [] && st.list.None? }

  /** The first line continues the open block. */
  predicate Continues(st: State, kind: LineKind) {
    || st.code.Some?
    || (st.para != [] && kind == Plain)
    || (st.list.Some? && kind.Item? && kind.list == st.list.value)
  }

  ghost predicate Keeps(st: State, ls: seq<string>, next: State, rest: seq<string>, r: Reader)
    requires Coherent(r)
  {
    st.html + Pending(st, ls, r) == next.html + Pending(next, rest, r)
  }

  lemma Later(html: seq<Token>, a: seq<Token>, b: seq<Token>)
    ensures html + (a + b) == (html + a) + b
  {
  }

  lemma ContinuedCode(st: State, ls: seq<string>, r: Reader)
    requires Coherent(r) && Exclusive(st) && ls != [] && st.code.Some?
    ensures Keeps(st, ls, Feed(st, ls, r), ls[1..], r)
  {
    CodeGoesOn(st.code.value, ls, r);
    Later(st.html, [Pre(st.code.value)], Page(ls[1..], r));
  }

  lemma ContinuedPara(st: State, ls: seq<string>, r: Reader)
    requires Coherent(r) && Exclusive(st) && ls != [] && st.para != [] && r.kind(ls) == Plain
    ensures Keeps(st, ls, Feed(st, ls, r), ls[1..], r)
  {
    ParaGoesOn(st.para, ls, r);
  }

  lemma ContinuedList(st: State, ls: seq<string>, r: Reader)
    requires Coherent(r) && Exclusive(st) && ls != [] && st.list.Some? && r.kind(ls).Item?
    requires r.kind(ls).list == st.list.value
    ensures Keeps(st, ls, Feed(st, ls, r), ls[1..], r)
  {
    var k, text := st.list.value, r.kind(ls).text;
    assert Feed(st, ls, r) == Emit(st, [Entry(text)]);
    ListGoesOn(k, ls, r);
    Later(st.html, [Entry(text)], ListPending(k, ls[1..], r));
  }

  lemma ParaFlushed(st: State, ls: seq<string>, r: Reader)
    requires Coherent(r) && Exclusive(st) && ls != [] && st.para != [] && r.kind(ls) != Plain
    ensures st.html + Pending(st, ls, r) == Flushed(st).html + Page(ls, r)
  {
    ParaGoesOn(st.para, ls, r);
    Later(st.html, [Paragraph(st.para)], Page(ls, r));
  }

  lemma ListFlushed(st: State, ls: seq<string>, r: Reader)
    requires Coherent(r) && Exclusive(st) && ls != [] && st.list.Some?
    requires !(r.kind(ls).Item? && r.kind(ls).list == st.list.value)
    ensures st.html + Pending(st, ls, r) == Flushed(st).html + Page(ls, r)
  {
    ListEnds(st.list.value, ls, r);
    Later(st.html, [Close(st.list.value)], Page(ls, r));
  }

  /** A turn that does not continue the open block closes it first. */
  lemma FeedFlushes(st: State, ls: seq<string>, r: Reader)
    requires Coherent(r) && Exclusive(st) && ls != [] && !Continues(st, r.kind(ls))
    ensures Clean(Flushed(st)) && Feed(st, ls, r) == Feed(Flushed(st), ls, r)
    ensures Taken(st, ls, r) == Taken(Flushed(st), ls, r)
  {
  }

  lemma CodeOpens(ls: seq<string>, r: Reader)
    requires Coherent(r) && ls != [] && r.kind(ls) == Fence
    ensures Page(ls, r) == CodePending([], ls[1..], r)
  {
    PageFirst(ls, r);
    var n := CountWhile(ls[1..], InCode(r));
    var b := CodeAt(ls, r);
    assert [] + ls[1..][..n] == ls[1..][..n];
    if n < |ls[1..]| {
      assert |SourceOf(b)| == n + 2 && ls[n + 2..] == ls[1..][n + 1..];
    } else {
      assert |SourceOf(b)| == n + 1 && ls[n + 1..] == [];
    }
  }

  lemma Enclose(a: Token, b: seq<Token>, c: Token, rest: seq<Token>)
    ensures ([a] + b + [c]) + rest == [a] + (b + ([c] + rest))
  {
  }

  lemma ListOpens(ls: seq<string>, r: Reader)
    requires Coherent(r) && ls != [] && r.kind(ls).Item?
    ensures Page(ls, r) == [Open(r.kind(ls).list)] + ListPending(r.kind(ls).list, ls, r)
  {
    PageFirst(ls, r);
    var k := r.kind(ls).list;
    var m := CountWhile(ls, InList(r, k));
    assert FirstBlock(ls, r) == Listing(k, ls[..m], ItemTexts(ls, r, k));
    Enclose(Open(k), Entries(ItemTexts(ls, r, k)), Close(k), Page(ls[m..], r));
  }

  lemma NextList(st: State, ls: seq<string>, r: Reader)
    requires Coherent(r) && Clean(st) && ls != [] && r.kind(ls).Item?
    ensures st.html + Page(ls, r) == Feed(st, ls, r).html + Pending(Feed(st, ls, r), ls[1..], r)
  {
    var k, text := r.kind(ls).list, r.kind(ls).text;
    ListOpens(ls, r);
    ListGoesOn(k, ls, r);
    assert Feed(st, ls, r) == State(st.html + [Open(k)] + [Entry(text)], None, [], Some(k));
    Later(st.html, [Open(k)], ListPending(k, ls, r));
    Later(st.html + [Open(k)], [Entry(text)], ListPending(k, ls[1..], r));
  }

  lemma ParaOpens(ls: seq<string>, r: Reader)
    requires Coherent(r) && ls != [] && r.kind(ls) == Plain
    ensures Page(ls, r) == ParaPending([], ls, r)
  {
    PageFirst(ls, r);
    var m := CountWhile(ls, InPara(r));
    assert FirstBlock(ls, r) == Para(ls[..m]);
    assert [] + Map(ls[..m], r.strip) == Map(ls[..m], r.strip);
  }

  lemma FeedOpensPara(st: State, ls: seq<string>, r: Reader)
    requires Coherent(r) && Clean(st) && ls != [] && r.kind(ls) == Plain
    ensures Feed(st, ls, r) == State(st.html, None, [r.strip(ls[0])], None)
  {
  }

  lemma NextPara(st: State, ls: seq<string>, r: Reader)
    requires Coherent(r) && Clean(st) && ls != [] && r.kind(ls) == Plain
    ensures st.html + Page(ls, r) == Feed(st, ls, r).html + Pending(Feed(st, ls, r), ls[1..], r)
  {
    FeedOpensPara(st, ls, r);
    ParaOpens(ls, r);
    ParaGoesOn([], ls, r);
    assert [] + [r.strip(ls[0])] == [r.strip(ls[0])];
  }

  predicate Whole(kind: LineKind) { kind != Fence && !kind.Item? && kind != Plain }

  lemma NextWhole(st: State, ls: seq<string>, r: Reader)
    requires Coherent(r) && Clean(st) && ls != [] && Whole(r.kind(ls))
    ensures st.html + Page(ls, r) == Feed(st, ls, r).html + Pending(Feed(st, ls, r), ls[Taken(st, ls, r)..], r)
  {
    var b := FirstBlock(ls, r);
    PageFirst(ls, r);
    assert Taken(st, ls, r) == |SourceOf(b)|;
    Later(st.html, TokensOf(b, r), Page(ls[|SourceOf(b)|..], r));
  }

  lemma OpenBlockContinues(st: State, ls: seq<string>, r: Reader)
    requires Coherent(r) && Exclusive(st) && ls != [] && Continues(st, r.kind(ls))
    ensures Taken(st, ls, r) == 1 && Keeps(st, ls, Feed(st, ls, r), ls[1..], r)
  {
    if st.code.Some? {
      ContinuedCode(st, ls, r);
    } else if st.para != [] {
      ContinuedPara(st, ls, r);
    } else {
      ContinuedList(st, ls, r);
    }
  }

  lemma OpenBlockEnds(st: State, ls: seq<string>, r: Reader)
    requires Coherent(r) && Exclusive(st) && ls != [] && !Continues(st, r.kind(ls))
    ensures st.html + Pending(st, ls, r) == Flushed(st).html + Page(ls, r)
  {
    if st.para != [] {
      ParaFlushed(st, ls, r);
    } else if st.list.Some? {
      ListFlushed(st, ls, r);
    }
  }

  /** From a clean state a turn starts the next block or emits it whole. */
  lemma NextBlock(st: State, ls: seq<string>, r: Reader)
    requires Coherent(r) && Clean(st) && ls != []
    ensures st.html + Page(ls, r) == Feed(st, ls, r).html + Pending(Feed(st, ls, r), ls[Taken(st, ls, r)..], r)
  {
    var kind := r.kind(ls);
    if Whole(kind) {
      NextWhole(st, ls, r);
    } else if kind == Fence {
      CodeOpens(ls, r);
    } else if kind.Item? {
      NextList(st, ls, r);
    } else {
      NextPara(st, ls, r);
    }
  }

  lemma StaysExclusive(st: State, ls: seq<string>, r: Reader)
    requires Coherent(r) && Exclusive(st) && ls != []
    ensures Exclusive(Feed(st, ls, r))
  {
  }

  lemma FeedKeeps(st: State, ls: seq<string>, r: Reader)
    requires Coherent(r) && Exclusive(st) && ls != []
    ensures Keeps(st, ls, Feed(st, ls, r), ls[Taken(st, ls, r)..], r)
  {
    if Continues(st, r.kind(ls)) {
      OpenBlockContinues(st, ls, r);
    } else {
      OpenBlockEnds(st, ls, r);
      FeedFlushes(st, ls, r);
      NextBlock(Flushed(st), ls, r);
    }
  }

  /** The invariant of the outer loop before line `i`. */
  ghost predicate OnTrack(st: State, lines: seq<string>, i: nat, r: Reader)
    requires Coherent(r)
  {
    i <= |lines| && Exclusive(st) && st.html + Pending(st, lines[i..], r) == Page(lines, r)
  }

  lemma GoesOn(st: State, lines: seq<string>, i: nat, next: State, n: nat, r: Reader)
    requires Coherent(r) && OnTrack(st, lines, i, r) && i + n <= |lines|
    requires Exclusive(next) && Keeps(st, lines[i..], next, lines[i..][n..], r)
    ensures OnTrack(next, lines, i + n, r)
  {
    assert lines[i..][n..] == lines[i + n..];
  }

  lemma TurnStaysOnTrack(st: State, lines: seq<string>, i: nat, r: Reader)
    requires Coherent(r) && i < |lines| && OnTrack(st, lines, i, r)
    ensures OnTrack(Feed(st, lines[i..], r), lines, i + Taken(st, lines[i..], r), r)
  {
    StaysExclusive(st, lines[i..], r);
    FeedKeeps(st, lines[i..], r);
    GoesOn(st, lines, i, Feed(st, lines[i..], r), Taken(st, lines[i..], r), r);
  }

  lemma StartsOnTrack(lines: seq<string>, r: Reader)
    requires Coherent(r)
    ensures OnTrack(START, lines, 0, r)
  {
    assert lines[0..] == lines;
  }

  lemma EndsOnTrack(st: State, lines: seq<string>, r: Reader)
    requires Coherent(r) && OnTrack(st, lines, |lines|, r)
    ensures Ended(st) == Page(lines, r)
  {
    assert lines[|lines|..] == [];
    EndMeans(st, r);
  }

  // ----- the code -----

  /** The lines of the quotation at the front, as the inner loop collects them. */
  method CollectQuotation(lines: seq<string>, from: nat, r: Reader) returns (quoted: seq<string>, i: nat)
    requires from <= |lines|
    ensures i == from + CountWhile(lines[from..], r.quote) && quoted == Map(lines[from..][..i - from], r.quoted)
  {
    quoted, i := [], from;
    assert lines[from..][..0] == [];
    while i < |lines| && r.quote(lines[i..])
      invariant from <= i <= |lines|
      invariant i + CountWhile(lines[i..], r.quote) == from + CountWhile(lines[from..], r.quote)
      invariant |quoted| == i - from && forall k :: 0 <= k < |quoted| ==> quoted[k] == r.quoted(lines[from + k])
    {
      assert lines[i..][1..] == lines[i + 1..];
      quoted := quoted + [r.quoted(lines[i])];
      i := i + 1;
    }
    assert quoted == Map(lines[from..][..i - from], r.quoted);
  }

  method CollectRows(lines: seq<string>, from: nat, r: Reader) returns (rows: seq<string>, i: nat)
    requires from <= |lines|
    ensures i == from + CountWhile(lines[from..], r.bar) && rows == lines[from..][..i - from]
  {
    rows, i := [], from;
    while i < |lines| && r.bar(lines[i..])
      invariant from <= i <= |lines|
      invariant i + CountWhile(lines[i..], r.bar) == from + CountWhile(lines[from..], r.bar)
      invariant rows == lines[from..i]
    {
      assert lines[i..][1..] == lines[i + 1..];
      rows := rows + [lines[i]];
      i := i + 1;
    }
    assert lines[from..][..i - from] == lines[from..i];
  }

  method EmitTable(lines: seq<string>, from: nat, r: Reader) returns (ts: seq<Token>, i: nat)
    requires Coherent(r) && from < |lines| && r.kind(lines[from..]) == TableHead
    ensures ts == TokensOf(FirstBlock(lines[from..], r), r) && i == from + |SourceOf(FirstBlock(lines[from..], r))|
  {
    var ls := lines[from..];
    var rows;
    rows, i := CollectRows(lines, from + 2, r);
    assert lines[from + 2..] == ls[2..];
    ts := [TableStart(r.cells(lines[from]))] + Rows(rows, r) + [TableEnd];
  }

  /** Quotations, tables and the blocks of one line. */
  method EmitWhole(st: State, lines: seq<string>, from: nat, r: Reader) returns (ts: seq<Token>, i: nat)
    requires Coherent(r) && from < |lines| && st.code.None? && Whole(r.kind(lines[from..]))
    ensures ts == TokensOf(FirstBlock(lines[from..], r), r) && i == from + Taken(st, lines[from..], r)
  {
    ts, i := [], from + 1;
    match r.kind(lines[from..])
    case Blank =>
    case Rule => ts := [Hr];
    case Heading(level, text) => ts := [H(level, text)];
    case Image(alt, src) => ts := [Img(src, alt)];
    case Quote =>
      var quoted;
      quoted, i := CollectQuotation(lines, from, r);
      ts := [Blockquote(quoted)];
    case TableHead => ts, i := EmitTable(lines, from, r);
  }

  method Turn(st: State, lines: seq<string>, from: nat, r: Reader) returns (next: State, i: nat)
    requires Coherent(r) && from < |lines|
    ensures next == Feed(st, lines[from..], r) && i == from + Taken(st, lines[from..], r)
  {
    var kind := r.kind(lines[from..]);
    next, i := st, from + 1;
    if kind == Fence {
      if st.code.None? {
        next := FlushList(FlushPara(st));
        next := next.(code := Some([]));
      } else {
        next := Emit(st, [Pre(st.code.value)]).(code := None);
      }
    } else if st.code.Some? {
      next := st.(code := Some(st.code.value + [lines[from]]));
    } else if kind.Item? {
      next := FlushPara(st);
      if next.list != Some(kind.list) {
        next := FlushList(next);
        next := Emit(next, [Open(kind.list)]).(list := Some(kind.list));
      }
      next := Emit(next, [Entry(kind.text)]);
    } else if kind == Plain {
      next := FlushList(st);
      next := next.(para := next.para + [r.strip(lines[from])]);
    } else {
      var ts;
      ts, i := EmitWhole(st, lines, from, r);
      next := Emit(FlushList(FlushPara(st)), ts);
    }
  }

  method EndPage(st: State) returns (html: seq<Token>)
    ensures html == Ended(st)
  {
    html := FlushList(FlushPara(st)).html;
    if st.code.Some? {
      html := html + [Pre(st.code.value)];
    }
  }

  /** `markdown_to_html`: the loop makes the page of the blocks, well nested. */
  method MarkdownToHtml(lines: seq<string>, r: Reader) returns (html: seq<Token>)
    requires Coherent(r)
    ensures html == Page(lines, r)
    ensures Reach(Top, html) == Some(Top)
  {
    var st := START;
    var i := 0;
    StartsOnTrack(lines, r);
    while i < |lines|
      invariant OnTrack(st, lines, i, r)
      decreases |lines| - i
    {
      TurnStaysOnTrack(st, lines, i, r);
      st, i := Turn(st, lines, i, r);
    }
    EndsOnTrack(st, lines, r);
    html := EndPage(st);
    PagesAreNested(Parse(lines, r), r);
  }

  // ----- blocks are maximal -----

  /** Neither paragraphs nor lists of one kind stand side by side. */
  predicate MayNeighbour(a: Block, b: Block) {
    match (a, b)
    case (Para(_), Para(_)) => false
    case (Listing(j, _, _), Listing(k, _, _)) => j != k
    case _ => true
  }

  predicate Separated(bs: seq<Block>) { forall i :: 0 <= i < |bs| - 1 ==> MayNeighbour(bs[i], bs[i + 1]) }

  lemma {:induction false} RunEnds(ls: seq<string>, p: seq<string> -> bool)
    ensures var m := CountWhile(ls, p); m < |ls| ==> !p(ls[m..])
  {
    if ls != [] && p(ls) {
      RunEnds(ls[1..], p);
      var m := CountWhile(ls, p);
      assert ls[m..] == ls[1..][m - 1..];
    } else {
      assert ls[0..] == ls;
    }
  }

  lemma NextDiffers(ls: seq<string>, r: Reader)
    requires Coherent(r) && ls != []
    ensures var b := FirstBlock(ls, r); var rest := ls[|SourceOf(b)|..];
      rest != [] ==> MayNeighbour(b, FirstBlock(rest, r))
  {
    var kind := r.kind(ls);
    if kind == Plain {
      RunEnds(ls, InPara(r));
    } else if kind.Item? {
      RunEnds(ls, InList(r, kind.list));
    }
  }

  /** Adjacent lines of a paragraph or of a list are never split into two. */
  lemma {:induction false} BlocksAreMaximal(ls: seq<string>, r: Reader)
    requires Coherent(r)
    ensures Separated(Parse(ls, r))
    decreases |ls|
  {
    if ls != [] {
      var b := FirstBlock(ls, r);
      var rest := ls[|SourceOf(b)|..];
      BlocksAreMaximal(rest, r);
      NextDiffers(ls, r);
      assert Parse(ls, r) == [b] + Parse(rest, r);
    }
  }
}

/** The text form of issue reports: printing one, and reading its header and description back. */
module ReportText {
  import opened Seqs
  import opened Text
  import opened ReportLines

  /** A JSON value; what it looks like printed is the codec's affair. */
  datatype Json = Json(canonical: string)

  datatype Message = Message(id: string, role: string, createdAt: string, metadata: Json, content: string)

  /** `context` holds the keys and rendered values of the context without its messages. */
  datatype Report = Report(
    id: string, createdAt: string, version: string, thread: string, category: string, description: string,
    context: seq<(string, string)>, messages: seq<Message>)

  /** A note below the conversation: one line that ends with no space. */
  type Note = s: string | SingleLine(s) && s != "" && !IsSpace(s[|s| - 1]) witness "-"

  /**
    `json.dumps` with indentation, `json.loads`, the empty object, what is an object, and the three notes
    of the guide that are the same for every report.
   */
  datatype Codec = Codec(
    dumps: Json -> string, loads: string -> Option<Json>, empty: Json, isObject: Json -> bool,
    contact: Note, copying: Note, privacy: Note)

  // ----- the printer -----

  function Decimal(n: nat): string {
    if n < 10 then [('0' as int + n) as char] else Decimal(n / 10) + [('0' as int + n % 10) as char]
  }

  const TITLE := "Finance LLM 문제 신고"
  const RULE := "===================="
  const REPORT_ID := "Report ID: "
  const CREATED_AT := "Created At (UTC): "
  const APP_VERSION := "App Version: "
  const THREAD_ID := "Thread ID: "
  const CATEGORY := "Category: "

  const LABELS: seq<string> := [REPORT_ID, CREATED_AT, APP_VERSION, THREAD_ID, CATEGORY]

  const SECTION := "Description"
  const DESCRIPTION := "Description:"
  const CONTEXT := "Context:"
  const NO_CONTEXT := "Context: -"
  const CONVERSATION := "Conversation Messages:"

  function Labelled(labels: seq<string>, values: seq<string>): (ls: seq<string>)
    requires |labels| == |values|
    ensures |ls| == |labels| && forall i :: 0 <= i < |ls| ==> ls[i] == labels[i] + values[i]
  {
    if labels == [] then [] else [labels[0] + values[0]] + Labelled(labels[1..], values[1..])
  }

  function Values(r: Report): (values: seq<string>)
    ensures |values| == |LABELS|
  {
    [r.id, r.createdAt, r.version, r.thread, r.category]
  }

  function HeaderLines(r: Report): seq<string> { [TITLE, RULE] + Labelled(LABELS, Values(r)) + ["", DESCRIPTION] }

  function ContextValues(context: seq<(string, string)>): seq<string> {
    if context == [] then [] else ["- " + context[0].0 + ": " + context[0].1] + ContextValues(context[1..])
  }

  /** `_format_mapping("Context", ...)` */
  function ContextLines(context: seq<(string, string)>): seq<string> {
    if context == [] then [NO_CONTEXT] else [CONTEXT] + ContextValues(context)
  }

  function MetadataText(v: Json, j: Codec): string { if v == j.empty then "{}" else j.dumps(v) }

  const MARKER := "--- Message "
  const MESSAGE_ID := "ID: "
  const MESSAGE_ROLE := "Role: "
  const MESSAGE_TIME := "Created At: "
  const METADATA := "Metadata:"
  const CONTENT := "Content:"

  function MarkerLine(index: nat): string { MARKER + (Decimal(index) + " ---") }

  function MessageLines(m: Message, index: nat, j: Codec): seq<string> {
    [ "",
      MarkerLine(index),
      MESSAGE_ID + m.id,
      MESSAGE_ROLE + m.role,
      MESSAGE_TIME + m.createdAt,
      METADATA,
      MetadataText(m.metadata, j),
      CONTENT,
      m.content ]
  }

  function AllMessageLines(ms: seq<Message>, index: nat, j: Codec): seq<string> {
    if ms == [] then [] else MessageLines(ms[0], index, j) + AllMessageLines(ms[1..], index + 1, j)
  }

  const GUIDE := "사용 안내:"

  function Bulleted(ls: seq<string>): (r: seq<string>)
    ensures |r| == |ls| && forall i :: 0 <= i < |r| ==> r[i] == "- " + ls[i]
  {
    if ls == [] then [] else ["- " + ls[0]] + Bulleted(ls[1..])
  }

  function Subject(r: Report): string {
    "제목: [Finance LLM Issue][v" + r.version + "][Report ID: " + r.id + "] " + r.category
  }

  function GuideNotes(r: Report, j: Codec): seq<string> { [j.contact, Subject(r), j.copying, j.privacy] }

  function FooterLines(r: Report, j: Codec): seq<string> { ["", GUIDE] + Bulleted(GuideNotes(r, j)) }

  const NO_MESSAGES := "- 첨부된 대화 없음"

  function ConversationLines(r: Report, j: Codec): seq<string> {
    ["", CONVERSATION] + ((if r.messages == [] then [NO_MESSAGES] else AllMessageLines(r.messages, 1, j))
      + FooterLines(r, j))
  }

  function PrintedLines(r: Report, j: Codec): seq<string> {
    HeaderLines(r) + ([r.description] + ([""] + (ContextLines(r.context) + ConversationLines(r, j))))
  }

  /** `_format_issue_report_text` */
  function Print(r: Report, j: Codec): string { DropSpacesEnd(JoinNewlines(PrintedLines(r, j))) + "\n" }

  lemma {:induction false} JoinEnds(ls: seq<string>)
    requires ls != [] && ls[|ls| - 1] != ""
    ensures JoinNewlines(ls) != ""
    ensures JoinNewlines(ls)[|JoinNewlines(ls)| - 1] == ls[|ls| - 1][|ls[|ls| - 1]| - 1]
  {
    if |ls| > 1 {
      JoinEnds(ls[1..]);
    }
  }

  /** The final strip removes nothing: every printed line ends with a newline. */
  lemma PrintIsTerminated(r: Report, j: Codec)
    ensures Print(r, j) == Terminated(PrintedLines(r, j))
  {
    var ls := PrintedLines(r, j);
    assert ls[|ls| - 1] == FooterLines(r, j)[5] == "- " + j.privacy;
    JoinEnds(ls);
    JoinIsTerminated(ls);
  }

  // ----- reading the header -----

  /** The value behind the first line with the prefix. */
  function FirstWith(ls: seq<string>, prefix: string): string {
    if ls == [] then ""
    else if prefix <= ls[0] then Strip(ls[0][|prefix|..])
    else FirstWith(ls[1..], prefix)
  }

  /** `_line_value` */
  method LineValue(text: string, prefix: string) returns (value: string)
    ensures value == FirstWith(SplitLines(text), prefix)
  {
    var ls := SplitLines(text);
    for i := 0 to |ls|
      invariant FirstWith(ls[i..], prefix) == FirstWith(ls, prefix)
    {
      assert ls[i..][1..] == ls[i + 1..];
      if prefix <= ls[i] {
        return Strip(ls[i][|prefix|..]);
      }
    }
    value := "";
  }

  function Or(value: string, fallback: string): string { if value == "" then fallback else value }

  const UNKNOWN := "unknown"
  const OTHER := "기타"

  /** The header values of `_parse_issue_report_text_payload` */
  datatype Header = Header(id: string, createdAt: string, version: string, thread: string, category: string)

  function HeaderIn(ls: seq<string>): Header {
    Header(FirstWith(ls, REPORT_ID), FirstWith(ls, CREATED_AT), Or(FirstWith(ls, APP_VERSION), UNKNOWN),
      FirstWith(ls, THREAD_ID), Or(FirstWith(ls, CATEGORY), OTHER))
  }

  function HeaderOf(r: Report): Header { Header(r.id, r.createdAt, r.version, r.thread, r.category) }

  method ParseHeader(text: string) returns (header: Header)
    ensures header == HeaderIn(SplitLines(text))
  {
    var id := LineValue(text, REPORT_ID);
    var thread := LineValue(text, THREAD_ID);
    var category := LineValue(text, CATEGORY);
    var version := LineValue(text, APP_VERSION);
    var createdAt := LineValue(text, CREATED_AT);
    header := Header(id, createdAt, Or(version, UNKNOWN), thread, Or(category, OTHER));
  }

  predicate Plain(s: string) { SingleLine(s) && Trimmed(s) }

  /** Values the printer does not break: one trimmed line each, version and category not empty. */
  predicate HeaderOk(r: Report) {
    && Plain(r.id) && Plain(r.createdAt) && Plain(r.version) && Plain(r.thread) && Plain(r.category)
    && r.version != "" && r.category != ""
  }

  predicate AllSingle(ls: seq<string>) { forall i :: 0 <= i < |ls| ==> SingleLine(ls[i]) }

  lemma {:induction false} SingleRows(ls: seq<string>)
    requires AllSingle(ls)
    ensures Rows(ls) == ls
  {
    if ls != [] {
      SingleRows(ls[1..]);
      SingleRow(ls[0]);
    }
  }

  lemma SingleRow(s: string)
    requires SingleLine(s)
    ensures SplitLines(s + "\n") == [s]
  {
    CleanRows(s);
    SplitSingle(s);
  }

  lemma {:induction false} SplitSingle(s: string)
    requires SingleLine(s)
    ensures SplitNewlines(s) == [s]
  {
    if s != "" {
      SplitSingle(s[1..]);
      assert s[0] in s && s[0] != '\n';
      assert [s[0]] + s[1..] == s;
    }
  }

  /** The text behind the header lines. */
  function Below(r: Report, j: Codec): string {
    r.description + "\n" + Terminated([""] + (ContextLines(r.context) + ConversationLines(r, j)))
  }

  lemma TitleIsSingle()
    ensures SingleLine(TITLE)
  {
  }

  lemma RuleIsSingle()
    ensures SingleLine(RULE)
  {
  }

  lemma ReportIdIsSingle()
    ensures SingleLine(REPORT_ID)
  {
  }

  lemma CreatedAtIsSingle()
    ensures SingleLine(CREATED_AT)
  {
  }

  lemma AppVersionIsSingle()
    ensures SingleLine(APP_VERSION)
  {
  }

  lemma ThreadIdIsSingle()
    ensures SingleLine(THREAD_ID)
  {
  }

  lemma CategoryIsSingle()
    ensures SingleLine(CATEGORY)
  {
  }

  lemma ListIsSingle(a: string, b: string, c: string, d: string, e: string)
    requires SingleLine(a) && SingleLine(b) && SingleLine(c) && SingleLine(d) && SingleLine(e)
    ensures AllSingle([a, b, c, d, e])
  {
  }

  lemma LabelsAreSingle()
    ensures AllSingle(LABELS)
  {
    ReportIdIsSingle();
    CreatedAtIsSingle();
    AppVersionIsSingle();
    ThreadIdIsSingle();
    CategoryIsSingle();
    ListIsSingle(REPORT_ID, CREATED_AT, APP_VERSION, THREAD_ID, CATEGORY);
  }

  lemma LabelledIsSingle(labels: seq<string>, values: seq<string>)
    requires |labels| == |values| && AllSingle(labels) && AllSingle(values)
    ensures AllSingle(Labelled(labels, values))
  {
  }

  lemma HeaderLinesAreSingle(r: Report)
    requires AllSingle(Values(r))
    ensures AllSingle(HeaderLines(r))
  {
    TitleIsSingle();
    RuleIsSingle();
    LabelsAreSingle();
    LabelledIsSingle(LABELS, Values(r));
    assert SingleLine(DESCRIPTION) && SingleLine("");
    AllSingleAppend([TITLE, RULE], Labelled(LABELS, Values(r)), ["", DESCRIPTION]);
  }

  lemma AllSingleAppend(a: seq<string>, b: seq<string>, c: seq<string>)
    requires AllSingle(a) && AllSingle(b) && AllSingle(c)
    ensures AllSingle(a + b + c)
  {
  }

  lemma PrintIsHeaderAndBelow(r: Report, j: Codec)
    ensures Print(r, j) == Terminated(HeaderLines(r)) + Below(r, j)
  {
    var tail := [""] + (ContextLines(r.context) + ConversationLines(r, j));
    PrintIsTerminated(r, j);
    TerminatedAppend(HeaderLines(r), [r.description] + tail);
    assert ([r.description] + tail)[1..] == tail;
  }

  lemma HeaderReads(r: Report, j: Codec)
    requires AllSingle(Values(r))
    ensures SplitLines(Print(r, j)) == HeaderLines(r) + SplitLines(Below(r, j))
  {
    PrintIsHeaderAndBelow(r, j);
    HeaderLinesAreSingle(r);
    SingleRows(HeaderLines(r));
    RowsRead(HeaderLines(r), Below(r, j));
  }

  lemma {:induction false} FirstAt(ls: seq<string>, n: nat, prefix: string, value: string, tail: seq<string>)
    requires n < |ls| && ls[n] == prefix + value
    requires forall i :: 0 <= i < n ==> !(prefix <= ls[i])
    ensures FirstWith(ls + tail, prefix) == Strip(value)
    decreases n
  {
    assert (ls + tail)[1..] == ls[1..] + tail;
    if n > 0 {
      FirstAt(ls[1..], n - 1, prefix, value, tail);
    } else {
      assert ls[0][|prefix|..] == value;
    }
  }

  lemma Differs(prefix: string, s: string, i: nat)
    requires i < |prefix| && i < |s| && prefix[i] != s[i]
    ensures !(prefix <= s)
  {
  }

  lemma {:induction false} FirstWithIsPlain(ls: seq<string>, prefix: string)
    requires forall l :: l in ls ==> SingleLine(l)
    ensures Plain(FirstWith(ls, prefix))
  {
    if ls != [] {
      assert ls[0] in ls;
      if prefix <= ls[0] {
        StripTrims(ls[0][|prefix|..]);
      } else {
        FirstWithIsPlain(ls[1..], prefix);
      }
    }
  }

  lemma LabelsDiffer(k: nat, i: nat, value: string)
    requires i < k < 5
    ensures !(LABELS[k] <= LABELS[i] + value)
  {
    Differs(LABELS[k], LABELS[i] + value, if i == 1 && k == 4 then 1 else 0);
  }

  lemma TitleDiffers(k: nat)
    requires k < 5
    ensures !(LABELS[k] <= TITLE) && !(LABELS[k] <= RULE)
  {
    Differs(LABELS[k], TITLE, 0);
    Differs(LABELS[k], RULE, 0);
  }

  lemma HeaderField(r: Report, j: Codec, k: nat)
    requires AllSingle(Values(r)) && k < 5
    ensures FirstWith(SplitLines(Print(r, j)), LABELS[k]) == Strip(Values(r)[k])
  {
    var ls := HeaderLines(r);
    forall i | 0 <= i < 2 + k ensures !(LABELS[k] <= ls[i]) {
      TitleDiffers(k);
      if i >= 2 {
        assert ls[i] == LABELS[i - 2] + Values(r)[i - 2];
        LabelsDiffer(k, i - 2, Values(r)[i - 2]);
      }
    }
    assert ls[2 + k] == LABELS[k] + Values(r)[k];
    HeaderReads(r, j);
    FirstAt(ls, 2 + k, LABELS[k], Values(r)[k], SplitLines(Below(r, j)));
  }

  lemma OrIsPlain(value: string, fallback: string)
    requires Plain(value) && Plain(fallback) && fallback != ""
    ensures Plain(Or(value, fallback)) && Or(value, fallback) != ""
  {
  }

  lemma HeadersArePlain(ls: seq<string>)
    requires forall l :: l in ls ==> SingleLine(l)
    ensures var h := HeaderIn(ls);
      && Plain(h.id) && Plain(h.createdAt) && Plain(h.version) && Plain(h.thread) && Plain(h.category)
      && h.version != "" && h.category != ""
  {
    UnknownIsPlain();
    OtherIsPlain();
    FirstWithIsPlain(ls, REPORT_ID);
    FirstWithIsPlain(ls, CREATED_AT);
    FirstWithIsPlain(ls, APP_VERSION);
    FirstWithIsPlain(ls, THREAD_ID);
    FirstWithIsPlain(ls, CATEGORY);
    OrIsPlain(FirstWith(ls, APP_VERSION), UNKNOWN);
    OrIsPlain(FirstWith(ls, CATEGORY), OTHER);
  }

  lemma UnknownIsPlain()
    ensures Plain(UNKNOWN) && UNKNOWN != ""
  {
  }

  lemma OtherIsPlain()
    ensures Plain(OTHER) && OTHER != ""
  {
  }

  lemma ValuesAreSingle(r: Report)
    ensures AllSingle(Values(r)) <==>
      SingleLine(r.id) && SingleLine(r.createdAt) && SingleLine(r.version) && SingleLine(r.thread) &&
      SingleLine(r.category)
  {
    var vs := Values(r);
    assert vs[0] == r.id && vs[1] == r.createdAt && vs[2] == r.version && vs[3] == r.thread && vs[4] == r.category;
  }

  /** Each label is followed by the value of its field. */
  lemma FieldsRead(r: Report, j: Codec)
    requires AllSingle(Values(r))
    ensures HeaderIn(SplitLines(Print(r, j)))
      == Header(Strip(r.id), Strip(r.createdAt), Or(Strip(r.version), UNKNOWN), Strip(r.thread),
        Or(Strip(r.category), OTHER))
  {
    HeaderField(r, j, 0);
    HeaderField(r, j, 1);
    HeaderField(r, j, 2);
    HeaderField(r, j, 3);
    HeaderField(r, j, 4);
  }

  lemma HeaderIsSingle(r: Report)
    requires HeaderOk(r)
    ensures AllSingle(Values(r))
  {
    ValuesAreSingle(r);
  }

  /** The header is read back exactly if each value is one trimmed line and version and category are not empty. */
  lemma HeaderRoundTrip(r: Report, j: Codec)
    ensures HeaderIn(SplitLines(Print(r, j))) == HeaderOf(r) <==> HeaderOk(r)
  {
    HeadersArePlain(SplitLines(Print(r, j)));
    if HeaderOk(r) {
      HeaderIsSingle(r);
      FieldsRead(r, j);
      StripTrims(r.id);
      StripTrims(r.createdAt);
      StripTrims(r.version);
      StripTrims(r.thread);
      StripTrims(r.category);
    }
  }

  // ----- reading the description -----

  /** The lines that end a section. */
  const STOPS: set<string> := {CONTEXT, CONVERSATION, GUIDE}

  predicate IsStop(l: string) { l != "" && l[|l| - 1] == ':' && Strip(l) in STOPS }

  function StopsSection(): string -> bool { IsStop }

  function UntilStop(ls: seq<string>): seq<string> { Before(ls, StopsSection()) }

  /** The lines behind the first line equal to the marker. */
  function Behind(ls: seq<string>, marker: string): Option<seq<string>> {
    if ls == [] then None else if ls[0] == marker then Some(ls[1..]) else Behind(ls[1..], marker)
  }

  function SectionIn(ls: seq<string>, section: string): string {
    match Behind(ls, section + ":")
    case None => ""
    case Some(rest) => Strip(JoinNewlines(UntilStop(rest)))
  }

  method FindMarker(ls: seq<string>, marker: string) returns (start: nat)
    ensures start <= |ls|
    ensures Behind(ls, marker) == if start < |ls| then Some(ls[start + 1..]) else None
  {
    start := 0;
    while start < |ls| && ls[start] != marker
      invariant start <= |ls| && Behind(ls[start..], marker) == Behind(ls, marker)
    {
      assert ls[start..][1..] == ls[start + 1..];
      start := start + 1;
    }
    if start < |ls| {
      assert ls[start..][1..] == ls[start + 1..];
    }
  }

  /** `_section_text` */
  method SectionText(text: string, section: string) returns (value: string)
    ensures value == SectionIn(SplitLines(text), section)
  {
    var ls := SplitLines(text);
    var start := FindMarker(ls, section + ":");
    if start == |ls| {
      return "";
    }
    var collected := CollectBefore(ls[start + 1..], StopsSection());
    value := Strip(JoinNewlines(collected));
  }

  /** A description the section reader does not alter. */
  predicate DescriptionOk(s: string) {
    Clean(s) && Trimmed(s) && forall l :: l in SplitNewlines(s) ==> !StopsSection()(l)
  }

  lemma {:induction false} BehindAt(ls: seq<string>, n: nat, marker: string, tail: seq<string>)
    requires n < |ls| && ls[n] == marker && forall i :: 0 <= i < n ==> ls[i] != marker
    ensures Behind(ls + tail, marker) == Some(ls[n + 1..] + tail)
    decreases n
  {
    assert (ls + tail)[1..] == ls[1..] + tail;
    if n > 0 {
      BehindAt(ls[1..], n - 1, marker, tail);
      assert ls[1..][n..] == ls[n + 1..];
    }
  }

  lemma NotTheMarker(r: Report, i: nat)
    requires i < 8
    ensures HeaderLines(r)[i] != DESCRIPTION
  {
    if 2 <= i < 7 {
      assert HeaderLines(r)[i] == LABELS[i - 2] + Values(r)[i - 2];
      assert HeaderLines(r)[i][0] == LABELS[i - 2][0] != 'D';
    }
  }

  lemma BehindHeader(r: Report, tail: seq<string>)
    ensures Behind(HeaderLines(r) + tail, DESCRIPTION) == Some(tail)
  {
    var ls := HeaderLines(r);
    forall i | 0 <= i < 8 ensures ls[i] != DESCRIPTION {
      NotTheMarker(r, i);
    }
    BehindAt(ls, 8, DESCRIPTION, tail);
    assert ls[9..] + tail == tail;
  }

  lemma DescriptionIsBelow(r: Report, j: Codec)
    requires AllSingle(Values(r))
    ensures SectionIn(SplitLines(Print(r, j)), SECTION) == Strip(JoinNewlines(UntilStop(SplitLines(Below(r, j)))))
  {
    HeaderReads(r, j);
    BehindHeader(r, SplitLines(Below(r, j)));
    DescriptionMarker();
    SectionBehind(SplitLines(Print(r, j)), SECTION, DESCRIPTION, SplitLines(Below(r, j)));
  }

  lemma SectionBehind(ls: seq<string>, section: string, marker: string, rest: seq<string>)
    requires section + ":" == marker && Behind(ls, marker) == Some(rest)
    ensures SectionIn(ls, section) == Strip(JoinNewlines(UntilStop(rest)))
  {
  }

  lemma DescriptionMarker()
    ensures SECTION + ":" == DESCRIPTION
  {
  }

  lemma {:induction false} ShorterJoin(ls: seq<string>, m: nat)
    requires m < |ls| && ls[m] != ""
    ensures |JoinNewlines(ls[..m])| < |JoinNewlines(ls)|
  {
    if m > 0 {
      assert ls[..m][1..] == ls[1..][..m - 1];
      ShorterJoin(ls[1..], m - 1);
    }
  }

  lemma MarkersAreSingle()
    ensures SingleLine(CONTEXT) && SingleLine(NO_CONTEXT)
  {
  }

  lemma ConversationIsSingle()
    ensures SingleLine(CONVERSATION)
  {
  }

  predicate StartsContext(ls: seq<string>) { ls != [] && ls[0] == CONTEXT }

  predicate StartsWithoutContext(ls: seq<string>) {
    |ls| > 2 && ls[0] == NO_CONTEXT && ls[1] == "" && ls[2] == CONVERSATION
  }

  lemma FirstLineReads(l: string, ls: seq<string>)
    requires SingleLine(l)
    ensures SplitLines(Terminated([l] + ls)) == [l] + SplitLines(Terminated(ls))
  {
    assert ([l] + ls)[1..] == ls;
    SplitAfterLine(l, Terminated(ls));
  }

  lemma ContextReads(r: Report, j: Codec)
    ensures var rest := SplitLines(Terminated(ContextLines(r.context) + ConversationLines(r, j)));
      if r.context == [] then StartsWithoutContext(rest) else StartsContext(rest)
  {
    if r.context == [] {
      NoContext(ConversationLines(r, j));
    } else {
      MarkersAreSingle();
      var tail := ContextValues(r.context) + ConversationLines(r, j);
      assert ContextLines(r.context) + ConversationLines(r, j) == [CONTEXT] + tail;
      FirstLineReads(CONTEXT, tail);
    }
  }

  lemma TextReads(d: string, tail: seq<string>)
    requires Clean(d)
    ensures SplitLines(d + "\n" + Terminated([""] + tail)) == SplitNewlines(d) + ([""] + SplitLines(Terminated(tail)))
  {
    CleanReads(d, Terminated([""] + tail));
    FirstLineReads("", tail);
  }

  /** The lines below the header: the description, then an empty line and the context. */
  lemma BelowReads(r: Report, j: Codec) returns (rest: seq<string>)
    requires Clean(r.description)
    ensures SplitLines(Below(r, j)) == SplitNewlines(r.description) + ([""] + rest)
    ensures if r.context == [] then StartsWithoutContext(rest) else StartsContext(rest)
  {
    rest := SplitLines(Terminated(ContextLines(r.context) + ConversationLines(r, j)));
    TextReads(r.description, ContextLines(r.context) + ConversationLines(r, j));
    ContextReads(r, j);
  }

  lemma ThreeLinesRead(a: string, b: string, c: string, ls: seq<string>)
    requires SingleLine(a) && SingleLine(b) && SingleLine(c)
    ensures SplitLines(Terminated([a] + ([b] + ([c] + ls)))) == [a] + ([b] + ([c] + SplitLines(Terminated(ls))))
  {
    FirstLineReads(c, ls);
    FirstLineReads(b, [c] + ls);
    FirstLineReads(a, [b] + ([c] + ls));
  }

  lemma NoContextReads(a: string, c: string, ls: seq<string>)
    requires SingleLine(a) && SingleLine(c) && |ls| > 1 && ls[0] == "" && ls[1] == c
    ensures var rest := SplitLines(Terminated([a] + ls)); |rest| > 2 && rest[0] == a && rest[1] == "" && rest[2] == c
  {
    assert ls == [""] + ([c] + ls[2..]);
    ThreeLinesRead(a, "", c, ls[2..]);
  }

  lemma NoContext(ls: seq<string>)
    requires |ls| > 1 && ls[0] == "" && ls[1] == CONVERSATION
    ensures StartsWithoutContext(SplitLines(Terminated([NO_CONTEXT] + ls)))
  {
    MarkersAreSingle();
    ConversationIsSingle();
    NoContextReads(NO_CONTEXT, CONVERSATION, ls);
  }

  lemma DescriptionKept(r: Report, j: Codec)
    requires AllSingle(Values(r)) && DescriptionOk(r.description) && r.context != []
    ensures SectionIn(SplitLines(Print(r, j)), SECTION) == r.description
  {
    DescriptionIsBelow(r, j);
    var rest := BelowReads(r, j);
    var ls := SplitNewlines(r.description);
    BeforeAppend(ls, [""] + rest, StopsSection());
    ContextEndsSection(rest);
    JoinNewlinesAppend(ls, [""]);
    JoinSplit(r.description);
    assert r.description + "\n" + "" == r.description + "\n";
    StripSpace(r.description, '\n');
    StripTrims(r.description);
  }

  lemma StopLine(l: string)
    requires l in STOPS && Trimmed(l) && l != "" && l[|l| - 1] == ':'
    ensures StopsSection()(l)
  {
    StripTrims(l);
  }

  lemma ContextStops()
    ensures StopsSection()(CONTEXT)
  {
    assert CONTEXT[|CONTEXT| - 1] == ':' && CONTEXT[0] == 'C';
    StopLine(CONTEXT);
  }

  lemma ConversationStops()
    ensures StopsSection()(CONVERSATION)
  {
    assert CONVERSATION[|CONVERSATION| - 1] == ':' && CONVERSATION[0] == 'C';
    StopLine(CONVERSATION);
  }

  lemma NoContextDoesNotStop()
    ensures !StopsSection()(NO_CONTEXT) && !StopsSection()("")
  {
  }

  lemma ContextEndsSection(rest: seq<string>)
    requires StartsContext(rest)
    ensures UntilStop([""] + rest) == [""]
  {
    ContextStops();
    NoContextDoesNotStop();
    StopAt([""], rest, StopsSection());
  }

  lemma NoContextRunsOn(rest: seq<string>)
    requires StartsWithoutContext(rest)
    ensures UntilStop([""] + rest) == ["", NO_CONTEXT, ""]
  {
    NoContextDoesNotStop();
    ConversationStops();
    RunsPast("", NO_CONTEXT, "", rest, StopsSection());
  }

  /** Behind an empty context the section reader does not stop in time. */
  lemma DescriptionRunsOn(r: Report, j: Codec)
    requires AllSingle(Values(r)) && DescriptionOk(r.description) && r.context == []
    ensures SectionIn(SplitLines(Print(r, j)), SECTION) != r.description
  {
    var d := r.description;
    DescriptionIsBelow(r, j);
    var rest := BelowReads(r, j);
    var ls := SplitNewlines(d);
    BeforeAppend(ls, [""] + rest, StopsSection());
    NoContextRunsOn(rest);
    JoinNewlinesAppend(ls, ["", NO_CONTEXT, ""]);
    JoinSplit(d);
    RunOnText(d);
  }

  lemma JoinThree(s: string)
    ensures JoinNewlines(["", s, ""]) == "\n" + s + "\n"
  {
    JoinNewlinesAppend([""], [s, ""]);
    JoinNewlinesAppend([s], [""]);
    assert [""] + [s, ""] == ["", s, ""] && [s] + [""] == [s, ""];
    assert "" + "\n" + (s + "\n" + "") == "\n" + s + "\n";
  }

  lemma Longer(d: string, s: string)
    requires Trimmed(d) && s != "" && !IsSpace(s[|s| - 1])
    ensures Strip((d + s) + "\n") != d
  {
    var y := d + s;
    StripSpace(y, '\n');
    assert y[|y| - 1] == s[|s| - 1];
    StripNotEmpty(y);
    StripTrims(y);
  }

  lemma RunOnText(d: string)
    requires Trimmed(d)
    ensures Strip(d + "\n" + JoinNewlines(["", NO_CONTEXT, ""])) != d
  {
    JoinThree(NO_CONTEXT);
    var s := "\n" + ("\n" + NO_CONTEXT);
    assert d + "\n" + ("\n" + NO_CONTEXT + "\n") == (d + s) + "\n";
    assert s[|s| - 1] == '-';
    Longer(d, s);
  }

  lemma CutText(d: string, rest: seq<string>, k: nat, stop: string -> bool)
    requires k < |SplitNewlines(d)| && stop(SplitNewlines(d)[k])
    requires forall l :: stop(l) ==> l != ""
    ensures Strip(JoinNewlines(Before(SplitNewlines(d) + rest, stop))) != d
  {
    var m := StopWithin(SplitNewlines(d), rest, k, stop);
    CutIsShorter(d, m);
  }

  lemma DescriptionCut(r: Report, j: Codec, k: nat)
    requires AllSingle(Values(r)) && Clean(r.description)
    requires k < |SplitNewlines(r.description)| && StopsSection()(SplitNewlines(r.description)[k])
    ensures SectionIn(SplitLines(Print(r, j)), SECTION) != r.description
  {
    DescriptionIsBelow(r, j);
    var rest := BelowReads(r, j);
    StopsAreNotEmpty();
    CutText(r.description, [""] + rest, k, StopsSection());
  }

  lemma CutIsShorter(d: string, m: nat)
    requires m < |SplitNewlines(d)| && SplitNewlines(d)[m] != ""
    ensures Strip(JoinNewlines(SplitNewlines(d)[..m])) != d
  {
    ShorterJoin(SplitNewlines(d), m);
    JoinSplit(d);
    StripTrims(JoinNewlines(SplitNewlines(d)[..m]));
  }

  lemma StopsAreNotEmpty()
    ensures forall l :: StopsSection()(l) ==> l != ""
  {
  }

  /**
    Behind a sound header, the description is read back exactly if it is clean, trimmed, holds no stop line,
    and a context follows.
   */
  lemma DescriptionRoundTrip(r: Report, j: Codec)
    requires AllSingle(Values(r))
    ensures SectionIn(SplitLines(Print(r, j)), SECTION) == r.description <==>
      DescriptionOk(r.description) && r.context != []
  {
    var d := r.description;
    if Clean(d) && Trimmed(d) {
      if DescriptionOk(d) {
        if r.context == [] {
          DescriptionRunsOn(r, j);
        } else {
          DescriptionKept(r, j);
        }
      } else {
        var l :| l in SplitNewlines(d) && StopsSection()(l);
        var k :| 0 <= k < |SplitNewlines(d)| && SplitNewlines(d)[k] == l;
        DescriptionCut(r, j, k);
      }
    } else {
      DescriptionIsBelow(r, j);
      ReadIsClean(SplitLines(Below(r, j)));
    }
  }

  lemma ReadIsClean(ls: seq<string>)
    requires forall l :: l in ls ==> SingleLine(l)
    ensures Clean(Strip(JoinNewlines(UntilStop(ls)))) && Trimmed(Strip(JoinNewlines(UntilStop(ls))))
  {
    var kept := UntilStop(ls);
    forall l | l in kept ensures SingleLine(l) {
      assert l in ls;
    }
    JoinedLinesAreClean(kept);
    StripTrims(JoinNewlines(kept));
  }
}

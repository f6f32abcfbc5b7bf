/** The conversation of a whole printed issue report. */
module ReportConversation {
  import opened Text
  import opened ReportLines
  import opened ReportText
  import opened ReportMessages
  import opened ReportRoundTrip
  import opened ReportFrames

  // ----- the report's own lines -----

  lemma MarkerNeedsDashes(l: string)
    requires |l| < 2 || l[0] != '-' || l[1] != '-'
    ensures KeyOf(l) != Marker
  {
  }

  lemma KeyOfOther(l: string)
    requires l == "" || l[0] !in {'-', 'I', 'R', 'C', 'M'} || (|l| > 1 && l[0] == '-' && l[1] != '-')
    ensures KeyOf(l) == Other
  {
  }

  lemma ReportLaws()
    ensures Laws(ReportScanner())
  {
    KeyOfOther("");
    GuideIsOther();
  }

  lemma GuideIsOther()
    ensures KeyOf(GUIDE) == Other && GUIDE != ""
  {
    assert GUIDE[0] == '사';
    KeyOfOther(GUIDE);
  }

  lemma ReportMarkers()
    ensures MarkersFit(ReportScanner())
  {
    forall i: nat ensures KeyOf(MarkerLine(i)) == Marker {
      assert MarkerLine(i)[..|MARKER|] == MARKER;
    }
  }

  lemma KeyOfId(v: string)
    ensures KeyOf(MESSAGE_ID + v) == Id(Strip(v))
  {
    var l := MESSAGE_ID + v;
    assert l[0] == 'I' && l[|MESSAGE_ID|..] == v && l[..|MESSAGE_ID|] == MESSAGE_ID;
    MarkerNeedsDashes(l);
  }

  lemma KeyOfRole(v: string)
    ensures KeyOf(MESSAGE_ROLE + v) == Role(Strip(v))
  {
    var l := MESSAGE_ROLE + v;
    assert l[0] == 'R' && l[|MESSAGE_ROLE|..] == v && l[..|MESSAGE_ROLE|] == MESSAGE_ROLE;
    MarkerNeedsDashes(l);
    Differs(MESSAGE_ID, l, 0);
  }

  lemma KeyOfTime(v: string)
    ensures KeyOf(MESSAGE_TIME + v) == Time(Strip(v))
  {
    var l := MESSAGE_TIME + v;
    assert l[0] == 'C' && l[|MESSAGE_TIME|..] == v && l[..|MESSAGE_TIME|] == MESSAGE_TIME;
    MarkerNeedsDashes(l);
    Differs(MESSAGE_ID, l, 0);
    Differs(MESSAGE_ROLE, l, 0);
  }

  lemma KeyOfMetadata()
    ensures KeyOf(METADATA) == Metadata
  {
    assert METADATA[0] == 'M';
    MarkerNeedsDashes(METADATA);
    Differs(MESSAGE_ID, METADATA, 0);
    Differs(MESSAGE_ROLE, METADATA, 0);
    Differs(MESSAGE_TIME, METADATA, 0);
  }

  lemma KeyOfContent()
    ensures KeyOf(CONTENT) == Content
  {
    assert CONTENT[0] == 'C' && CONTENT[1] == 'o';
    MarkerNeedsDashes(CONTENT);
    Differs(MESSAGE_ID, CONTENT, 0);
    Differs(MESSAGE_ROLE, CONTENT, 0);
    Differs(MESSAGE_TIME, CONTENT, 1);
  }

  lemma SoundKeysFit(m: Message)
    requires Sound(m)
    ensures KeysFit(m, ReportScanner())
  {
    KeyOfId(m.id);
    KeyOfRole(m.role);
    KeyOfTime(m.createdAt);
    KeyOfMetadata();
    KeyOfContent();
    StripTrims(m.id);
    StripTrims(m.role);
    StripTrims(m.createdAt);
  }

  predicate NoMarkers(ls: seq<string>) { forall l :: l in ls ==> KeyOf(l) != Marker }

  lemma HeaderHasNoMarkers(r: Report)
    ensures NoMarkers(HeaderLines(r))
  {
    var ls := HeaderLines(r);
    forall i | 0 <= i < 9 ensures KeyOf(ls[i]) != Marker {
      HeaderLineStarts(r, i);
      MarkerNeedsDashes(ls[i]);
    }
  }

  lemma HeaderLineStarts(r: Report, i: nat)
    requires i < 9
    ensures HeaderLines(r)[i] == "" || HeaderLines(r)[i][0] != '-'
  {
    if 2 <= i < 7 {
      assert HeaderLines(r)[i] == LABELS[i - 2] + Values(r)[i - 2];
      assert HeaderLines(r)[i][0] == LABELS[i - 2][0];
    }
  }

  lemma BulletIsOther(note: string)
    ensures KeyOf("- " + note) == Other
  {
    assert ("- " + note)[0] == '-' && ("- " + note)[1] == ' ';
    KeyOfOther("- " + note);
  }

  lemma FooterLineStarts(r: Report, i: nat, j: Codec)
    requires i < 6
    ensures KeyOf(FooterLines(r, j)[i]) == Other
  {
    if i == 0 {
      KeyOfOther("");
    } else if i == 1 {
      GuideIsOther();
    } else {
      assert FooterLines(r, j)[i] == Bulleted(GuideNotes(r, j))[i - 2];
      BulletIsOther(GuideNotes(r, j)[i - 2]);
    }
  }

  lemma FooterIsGuide(r: Report, j: Codec)
    ensures IsGuide(FooterLines(r, j), ReportScanner())
  {
    var ls := FooterLines(r, j);
    forall l | l in ls ensures KeyOf(l) == Other {
      var i :| 0 <= i < |ls| && ls[i] == l;
      FooterLineStarts(r, i, j);
    }
    assert ls[0] == "" && ls[1] == GUIDE;
  }

  // ----- the lines as they are read -----

  lemma {:induction false} DecimalIsSingle(n: nat)
    ensures SingleLine(Decimal(n))
  {
    if n >= 10 {
      DecimalIsSingle(n / 10);
    }
  }

  lemma AppendIsSingle(a: string, b: string)
    requires SingleLine(a) && SingleLine(b)
    ensures SingleLine(a + b)
  {
  }

  lemma MarkerIsSingle()
    ensures SingleLine(MARKER) && SingleLine(" ---")
  {
  }

  lemma MarkerLineIsSingle(index: nat)
    ensures SingleLine(MarkerLine(index))
  {
    DecimalIsSingle(index);
    MarkerIsSingle();
    AppendIsSingle(Decimal(index), " ---");
    AppendIsSingle(MARKER, Decimal(index) + " ---");
  }

  lemma FieldLabelsAreSingle()
    ensures SingleLine(MESSAGE_ID) && SingleLine(MESSAGE_ROLE)
  {
  }

  lemma TimeLabelIsSingle()
    ensures SingleLine(MESSAGE_TIME)
  {
  }

  lemma BlockLabelsAreSingle()
    ensures SingleLine(METADATA) && SingleLine(CONTENT)
  {
  }

  lemma FieldLinesAreSingle(m: Message)
    requires Sound(m)
    ensures SingleLine(MESSAGE_ID + m.id) && SingleLine(MESSAGE_ROLE + m.role) && SingleLine(MESSAGE_TIME + m.createdAt)
  {
    FieldLabelsAreSingle();
    TimeLabelIsSingle();
    AppendIsSingle(MESSAGE_ID, m.id);
    AppendIsSingle(MESSAGE_ROLE, m.role);
    AppendIsSingle(MESSAGE_TIME, m.createdAt);
  }

  lemma RowsCons(l: string, ls: seq<string>)
    ensures Rows([l] + ls) == SplitLines(l + "\n") + Rows(ls)
  {
    assert ([l] + ls)[1..] == ls;
  }

  lemma RowsFirst(l: string, ls: seq<string>)
    requires SingleLine(l)
    ensures Rows([l] + ls) == [l] + Rows(ls)
  {
    RowsCons(l, ls);
    SingleRow(l);
  }

  /** Two texts of several lines, each behind a line of its own. */
  lemma RowsOfBlocks(d: string, metadata: string, e: string, content: string)
    requires SingleLine(d) && SingleLine(e) && Clean(content)
    ensures Rows([d, metadata, e, content]) == [d] + (SplitLines(metadata + "\n") + ([e] + SplitNewlines(content)))
  {
    RowsCons(content, []);
    CleanRows(content);
    assert [content] + [] == [content] && SplitNewlines(content) + [] == SplitNewlines(content);
    RowsFirst(e, [content]);
    RowsCons(metadata, [e] + [content]);
    RowsFirst(d, [metadata] + ([e] + [content]));
    assert [d, metadata, e, content] == [d] + ([metadata] + ([e] + [content]));
  }

  lemma RowsOfFields(x: string, k: string, a: string, b: string, c: string, ls: seq<string>)
    requires SingleLine(x) && SingleLine(k) && SingleLine(a) && SingleLine(b) && SingleLine(c)
    ensures Rows([x, k, a, b, c] + ls) == [x, k] + ([a] + ([b] + ([c] + Rows(ls))))
  {
    RowsFirst(c, ls);
    RowsFirst(b, [c] + ls);
    RowsFirst(a, [b] + ([c] + ls));
    RowsFirst(k, [a] + ([b] + ([c] + ls)));
    RowsFirst(x, [k] + ([a] + ([b] + ([c] + ls))));
    assert [x, k, a, b, c] + ls == [x] + ([k] + ([a] + ([b] + ([c] + ls))));
  }

  lemma RowsOfMessage(m: Message, index: nat, j: Codec)
    requires Sound(m)
    ensures Rows(MessageLines(m, index, j)) == Block(m, index, j)
  {
    MarkerLineIsSingle(index);
    FieldLinesAreSingle(m);
    BlockLabelsAreSingle();
    var tail := [METADATA, MetadataText(m.metadata, j), CONTENT, m.content];
    RowsOfBlocks(METADATA, MetadataText(m.metadata, j), CONTENT, m.content);
    RowsOfFields("", MarkerLine(index), MESSAGE_ID + m.id, MESSAGE_ROLE + m.role, MESSAGE_TIME + m.createdAt, tail);
    SameLines(m, index, j, tail);
    SameBlock(m, index, j);
  }

  lemma SameLines(m: Message, index: nat, j: Codec, tail: seq<string>)
    requires tail == [METADATA, MetadataText(m.metadata, j), CONTENT, m.content]
    ensures MessageLines(m, index, j)
      == ["", MarkerLine(index), MESSAGE_ID + m.id, MESSAGE_ROLE + m.role, MESSAGE_TIME + m.createdAt] + tail
  {
  }

  lemma SameBlock(m: Message, index: nat, j: Codec)
    ensures Block(m, index, j)
      == ["", MarkerLine(index)] + ([MESSAGE_ID + m.id] + ([MESSAGE_ROLE + m.role] + ([MESSAGE_TIME + m.createdAt]
      + ([METADATA] + (MetadataRows(m, j) + ([CONTENT] + SplitNewlines(m.content)))))))
  {
  }

  lemma {:induction false} RowsOfTalk(ms: seq<Message>, index: nat, footer: seq<string>, j: Codec)
    requires AllSound(ms) && AllSingle(footer)
    ensures Rows(AllMessageLines(ms, index, j) + footer) == Talk(ms, index, footer, j)
    decreases |ms|
  {
    if ms == [] {
      assert AllMessageLines(ms, index, j) + footer == footer;
      SingleRows(footer);
    } else {
      assert ms[0] in ms;
      var rest := AllMessageLines(ms[1..], index + 1, j) + footer;
      RowsOfTalk(ms[1..], index + 1, footer, j);
      RowsOfMessage(ms[0], index, j);
      RowsAppend(MessageLines(ms[0], index, j), rest);
      assert AllMessageLines(ms, index, j) + footer == MessageLines(ms[0], index, j) + rest;
    }
  }

  // ----- the guide -----

  lemma {:induction false} BulletedIsSingle(ls: seq<string>)
    requires AllSingle(ls)
    ensures AllSingle(Bulleted(ls))
  {
    assert SingleLine("- ");
    forall i | 0 <= i < |ls| ensures SingleLine(Bulleted(ls)[i]) {
      AppendIsSingle("- ", ls[i]);
    }
  }

  lemma SubjectIsSingle(r: Report)
    requires AllSingle(Values(r))
    ensures SingleLine(Subject(r))
  {
    assert Values(r)[0] == r.id && Values(r)[2] == r.version && Values(r)[4] == r.category;
    SubjectHeadIsSingle();
    AppendIsSingle("제목: [Finance LLM Issue][v", r.version);
    var a := "제목: [Finance LLM Issue][v" + r.version;
    AppendIsSingle(a, "][Report ID: ");
    AppendIsSingle(a + "][Report ID: ", r.id);
    var b := a + "][Report ID: " + r.id;
    AppendIsSingle(b, "] ");
    AppendIsSingle(b + "] ", r.category);
  }

  lemma SubjectHeadIsSingle()
    ensures SingleLine("제목: [Finance LLM Issue][v") && SingleLine("][Report ID: ") && SingleLine("] ")
  {
  }

  lemma GuideIsSingle()
    ensures SingleLine(GUIDE) && SingleLine("")
  {
  }

  lemma FooterIsSingle(r: Report, j: Codec)
    requires AllSingle(Values(r))
    ensures AllSingle(FooterLines(r, j))
  {
    SubjectIsSingle(r);
    NotesAreSingle(GuideNotes(r, j));
    BulletedIsSingle(GuideNotes(r, j));
    GuideIsSingle();
    FrontIsSingle("", GUIDE, Bulleted(GuideNotes(r, j)));
  }

  lemma NotesAreSingle(ls: seq<string>)
    requires |ls| == 4 && SingleLine(ls[0]) && SingleLine(ls[1]) && SingleLine(ls[2]) && SingleLine(ls[3])
    ensures AllSingle(ls)
  {
  }

  lemma FrontIsSingle(a: string, b: string, ls: seq<string>)
    requires SingleLine(a) && SingleLine(b) && AllSingle(ls)
    ensures AllSingle([a, b] + ls)
  {
  }

  // ----- the lines above the conversation -----

  /** What is printed above the conversation. */
  function Above(r: Report): seq<string> {
    HeaderLines(r) + ([r.description] + ([""] + (ContextLines(r.context) + ["", CONVERSATION])))
  }

  function Conversation(r: Report, j: Codec): seq<string> {
    (if r.messages == [] then [NO_MESSAGES] else AllMessageLines(r.messages, 1, j)) + FooterLines(r, j)
  }

  lemma PrintedInTwo(r: Report, j: Codec)
    ensures PrintedLines(r, j) == Above(r) + Conversation(r, j)
  {
  }

  /** The lines above the first message as they are read; description and context may hold anything. */
  function Frame(r: Report): seq<string> { Rows(Above(r)) + [""] }

  /** The messages the parser finds above the conversation, in the description and the context. */
  function Found(r: Report, j: Codec): seq<Message> { Messages(Frame(r), ReportScanner(), j) }

  /** Above the conversation a JSON block begins and does not end. */
  predicate Open(r: Report, j: Codec) { LeavesJsonOpen(Frame(r), ReportScanner(), j) }

  lemma ReportReads(r: Report, j: Codec)
    ensures SplitLines(Print(r, j)) == Rows(Above(r)) + Rows(Conversation(r, j))
  {
    PrintIsTerminated(r, j);
    PrintedInTwo(r, j);
    RowsRead(PrintedLines(r, j), "");
    assert Terminated(PrintedLines(r, j)) + "" == Terminated(PrintedLines(r, j));
    assert SplitLines("") == [] && Rows(PrintedLines(r, j)) + [] == Rows(PrintedLines(r, j));
    RowsAppend(Above(r), Conversation(r, j));
  }

  /** A conversation with messages begins with an empty line and a marker. */
  lemma ConversationStarts(r: Report, j: Codec) returns (t: seq<string>)
    requires r.messages != []
    ensures Rows(Conversation(r, j)) == [""] + t && StartsMessage(t, ReportScanner())
    ensures Messages(t, ReportScanner(), j) == Messages(Rows(Conversation(r, j)), ReportScanner(), j)
  {
    var ls := Conversation(r, j);
    var rest := ls[2..];
    assert ls[0] == "" && ls[1] == MarkerLine(1);
    assert ls == [""] + ([MarkerLine(1)] + rest);
    assert SingleLine("");
    MarkerLineIsSingle(1);
    RowsFirst("", [MarkerLine(1)] + rest);
    RowsFirst(MarkerLine(1), rest);
    t := [MarkerLine(1)] + Rows(rest);
    ReportMarkers();
    MarkerNeedsDashes("");
    NoMarkersBefore([""], t, ReportScanner(), j);
  }

  lemma OneMoreAbove(a: seq<string>, t: seq<string>)
    ensures a + ([""] + t) == (a + [""]) + t
  {
  }

  /** What is read are the messages found above and, unless a JSON block swallows them, those of the conversation. */
  lemma SomeConversation(r: Report, j: Codec)
    requires r.messages != [] && JsonHasNoMarker(ReportScanner(), j)
    ensures Messages(SplitLines(Print(r, j)), ReportScanner(), j)
      == Found(r, j) + ReadBehind(Open(r, j), Rows(Conversation(r, j)), ReportScanner(), j)
  {
    ReportReads(r, j);
    ReportLaws();
    var t := ConversationStarts(r, j);
    OneMoreAbove(Rows(Above(r)), t);
    FrameReads(Frame(r), t, ReportScanner(), j);
  }

  lemma NoMessagesIsSingle()
    ensures SingleLine(NO_MESSAGES)
  {
  }

  lemma NoMessagesIsOther()
    ensures KeyOf(NO_MESSAGES) == Other
  {
    assert NO_MESSAGES[0] == '-' && NO_MESSAGES[1] == ' ';
    KeyOfOther(NO_MESSAGES);
  }

  lemma NoConversation(r: Report, j: Codec)
    requires r.messages == [] && AllSingle(Values(r))
    ensures Messages(SplitLines(Print(r, j)), ReportScanner(), j) == [] <==> Found(r, j) == []
  {
    ReportReads(r, j);
    FooterIsSingle(r, j);
    SingleRows(FooterLines(r, j));
    NoMessagesIsSingle();
    RowsFirst(NO_MESSAGES, FooterLines(r, j));
    FooterIsGuide(r, j);
    NoMessagesIsOther();
    NothingBehind(Rows(Above(r)), [NO_MESSAGES] + FooterLines(r, j), ReportScanner(), j);
    KeyOfOther("");
    NothingBehind(Rows(Above(r)), [""], ReportScanner(), j);
  }

  // ----- when the messages come back -----

  /** What the model knows of JSON. */
  ghost predicate IsJson(j: Codec) {
    && j.isObject(j.empty)
    && JsonHasNoMarker(ReportScanner(), j)
    && forall m: Message :: j.isObject(m.metadata) ==> MetadataPrints(m, j) || MetadataBreaks(m, j)
  }

  predicate AllObjects(ms: seq<Message>, j: Codec) { forall m :: m in ms ==> j.isObject(m.metadata) }

  lemma EmptyIsLegible(m: Message, j: Codec)
    requires m.metadata == j.empty
    ensures Legible(m, j)
  {
  }

  lemma ObjectsArePrintable(ms: seq<Message>, j: Codec)
    requires IsJson(j) && AllObjects(ms, j)
    ensures AllPrintable(ms, ReportScanner(), j)
  {
    forall m | m in ms ensures Printable(m, ReportScanner(), j) {
      assert MetadataPrints(m, j) || MetadataBreaks(m, j);
      if m.metadata == j.empty {
        EmptyIsLegible(m, j);
      }
      if Sound(m) {
        SoundKeysFit(m);
      }
    }
  }

  /** Nothing above the conversation is taken for a message, nor swallows one. */
  predicate Quiet(r: Report, j: Codec) { Found(r, j) == [] && (r.messages == [] || !Open(r, j)) }

  /** The text above the conversation is taken for messages, and happens to be what the conversation then lacks. */
  predicate Copied(r: Report, j: Codec) {
    && Found(r, j) != []
    && Found(r, j) <= r.messages
    && r.messages[|Found(r, j)|..] == ReadBehind(Open(r, j), Rows(Conversation(r, j)), ReportScanner(), j)
  }

  predicate TalkOk(r: Report, j: Codec) {
    if Quiet(r, j) then AllFit(r.messages, ReportScanner(), j) else Copied(r, j)
  }

  /** Printed on its own, a conversation comes back exactly if all its messages fit. */
  lemma TalkComesBack(r: Report, j: Codec)
    requires AllSingle(Values(r)) && IsJson(j) && AllObjects(r.messages, j) && r.messages != [] && AllSound(r.messages)
    ensures Messages(Rows(Conversation(r, j)), ReportScanner(), j) == r.messages <==>
      AllFit(r.messages, ReportScanner(), j)
  {
    FooterIsSingle(r, j);
    RowsOfTalk(r.messages, 1, FooterLines(r, j), j);
    ReportLaws();
    ReportMarkers();
    FooterIsGuide(r, j);
    ObjectsArePrintable(r.messages, j);
    TalkRoundTrip(r.messages, 1, FooterLines(r, j), ReportScanner(), j);
  }

  lemma ReadAreSound(ls: seq<string>, j: Codec)
    requires forall l :: l in ls ==> SingleLine(l)
    ensures AllSound(Messages(ls, ReportScanner(), j))
  {
    ReportKeysArePlain();
    MessagesAreSound(ls, ReportScanner(), j);
  }

  lemma CopiesAreSound(r: Report, j: Codec)
    requires Copied(r, j)
    ensures AllSound(r.messages)
  {
    assert SingleLine("");
    ReadAreSound(Frame(r), j);
    ReadAreSound(Rows(Conversation(r, j)), j);
    assert r.messages == Found(r, j) + r.messages[|Found(r, j)|..];
  }

  /** Messages that nothing can be read as do not come back, not even by accident. */
  lemma UnsoundMessages(r: Report, j: Codec)
    requires !AllSound(r.messages)
    ensures Messages(SplitLines(Print(r, j)), ReportScanner(), j) != r.messages && !TalkOk(r, j)
  {
    ReadAreSound(SplitLines(Print(r, j)), j);
    if Copied(r, j) {
      CopiesAreSound(r, j);
    }
  }

  /** Behind the messages found above, the conversation has to supply the rest. */
  lemma RestIsSupplied(ms: seq<Message>, found: seq<Message>, behind: seq<Message>)
    ensures found + behind == ms <==> found <= ms && ms[|found|..] == behind
  {
    if found <= ms {
      assert ms == found + ms[|found|..];
    }
    if found + behind == ms {
      assert ms[..|found|] == found && ms[|found|..] == behind;
    }
  }

  /**
    The messages of a printed report come back exactly if nothing above them is taken for a message
    or swallows one and every message fits: it has a role, its id, role and time are trimmed lines, its
    content is clean, trimmed and without a line that begins a message or the guide, and its metadata
    breaks only at newlines. Otherwise they come back only by accident, as copies of themselves above.
   */
  lemma ConversationRoundTrip(r: Report, j: Codec)
    requires AllSingle(Values(r)) && IsJson(j) && AllObjects(r.messages, j)
    ensures Messages(SplitLines(Print(r, j)), ReportScanner(), j) == r.messages <==> TalkOk(r, j)
  {
    if !AllSound(r.messages) {
      UnsoundMessages(r, j);
    } else if r.messages == [] {
      NoConversation(r, j);
    } else {
      SomeConversation(r, j);
      TalkComesBack(r, j);
      var behind := ReadBehind(Open(r, j), Rows(Conversation(r, j)), ReportScanner(), j);
      assert Found(r, j) == [] ==> Found(r, j) + behind == behind;
      RestIsSupplied(r.messages, Found(r, j), behind);
    }
  }

  /** If every message fits, no accident helps but a JSON block that swallows the whole conversation. */
  lemma FittingMessagesAreNotCopied(r: Report, j: Codec)
    requires AllSingle(Values(r)) && IsJson(j) && AllObjects(r.messages, j) && AllFit(r.messages, ReportScanner(), j)
    ensures Copied(r, j) <==> Open(r, j) && r.messages != [] && Found(r, j) == r.messages
  {
    if r.messages != [] {
      assert AllSound(r.messages);
      TalkComesBack(r, j);
      assert Open(r, j) && Found(r, j) == r.messages ==> r.messages[|r.messages|..] == [];
    }
  }
}

/** The whole of a printed issue report, parsed again. */
module ReportPayload {
  import opened ReportLines
  import opened ReportText
  import opened ReportMessages
  import opened ReportRoundTrip
  import opened ReportFrames
  import opened ReportConversation

  /** What the parser returns. */
  datatype Payload = Payload(header: Header, description: string, messages: seq<Message>)

  function PayloadIn(ls: seq<string>, j: Codec): Payload {
    Payload(HeaderIn(ls), SectionIn(ls, SECTION), Messages(ls, ReportScanner(), j))
  }

  /** `_parse_issue_report_text_payload` without the context mapping */
  method ParsePayload(text: string, j: Codec) returns (payload: Payload)
    ensures payload == PayloadIn(SplitLines(text), j)
  {
    var messages := ParseConversation(text, j);
    var header := ParseHeader(text);
    var description := SectionText(text, SECTION);
    payload := Payload(header, description, messages);
  }

  function PayloadOf(r: Report): Payload { Payload(HeaderOf(r), r.description, r.messages) }

  /** The printed report is read back: id, time, version, thread, category, description and all messages. */
  predicate ComesBack(r: Report, j: Codec) { PayloadIn(SplitLines(Print(r, j)), j) == PayloadOf(r) }

  predicate TextOk(r: Report) { HeaderOk(r) && DescriptionOk(r.description) && r.context != [] }

  /**
    A printed report comes back exactly if its header, its description and its conversation are in order and
    it has a context.
   */
  lemma ReportRoundTrips(r: Report, j: Codec)
    requires IsJson(j) && AllObjects(r.messages, j)
    ensures ComesBack(r, j) <==> TextOk(r) && TalkOk(r, j)
  {
    HeaderRoundTrip(r, j);
    if HeaderOk(r) {
      HeaderIsSingle(r);
      DescriptionRoundTrip(r, j);
      ConversationRoundTrip(r, j);
    }
  }

  /**
    A report all of whose messages fit comes back exactly if its text is in order and is not taken for
    messages, or else leaves a JSON block open and is taken for the whole conversation.
   */
  lemma FittingReportRoundTrips(r: Report, j: Codec)
    requires IsJson(j) && AllObjects(r.messages, j) && AllFit(r.messages, ReportScanner(), j)
    ensures ComesBack(r, j)
      <==> TextOk(r) && (Quiet(r, j) || (Open(r, j) && r.messages != [] && Found(r, j) == r.messages))
  {
    ReportRoundTrips(r, j);
    if HeaderOk(r) {
      HeaderIsSingle(r);
      FittingMessagesAreNotCopied(r, j);
      FittingTalk(r, j);
    }
  }

  lemma FittingTalk(r: Report, j: Codec)
    requires AllFit(r.messages, ReportScanner(), j)
    ensures TalkOk(r, j) <==> Quiet(r, j) || Copied(r, j)
  {
  }

  // ----- text without markers -----

  lemma RowsAbove(r: Report)
    requires AllSingle(Values(r))
    ensures Rows(Above(r))
      == HeaderLines(r) + (SplitLines(r.description + "\n")
        + ([""] + (Rows(ContextLines(r.context)) + ["", CONVERSATION])))
  {
    HeaderLinesAreSingle(r);
    SingleRows(HeaderLines(r));
    LastLinesOk();
    SingleRows(["", CONVERSATION]);
    var below := ContextLines(r.context) + ["", CONVERSATION];
    RowsAppend(ContextLines(r.context), ["", CONVERSATION]);
    RowsFirst("", below);
    RowsCons(r.description, [""] + below);
    RowsAppend(HeaderLines(r), [r.description] + ([""] + below));
  }

  lemma LastLinesOk()
    ensures AllSingle(["", CONVERSATION])
  {
    ConversationIsSingle();
  }

  lemma LastLinesAreOther()
    ensures KeyOf("") == Other && KeyOf(CONVERSATION) == Other
  {
    KeyOfOther("");
    ConversationIsOther();
  }

  lemma NotContent(l: string)
    requires |l| > 5 && l[0] == 'C' && l[1] == 'o' && (l[3] != 't' || l[5] != 'n')
    ensures KeyOf(l) == Other
  {
    MarkerNeedsDashes(l);
    NotId(l);
    NotRole(l);
    NotTime(l);
    NotABlock(l);
    KeyOfNothing(l);
  }

  lemma NotId(l: string)
    requires l != "" && l[0] == 'C'
    ensures !(MESSAGE_ID <= l)
  {
    Differs(MESSAGE_ID, l, 0);
  }

  lemma NotRole(l: string)
    requires l != "" && l[0] == 'C'
    ensures !(MESSAGE_ROLE <= l)
  {
    Differs(MESSAGE_ROLE, l, 0);
  }

  lemma NotTime(l: string)
    requires |l| > 1 && l[1] == 'o'
    ensures !(MESSAGE_TIME <= l)
  {
    Differs(MESSAGE_TIME, l, 1);
  }

  lemma NotABlock(l: string)
    requires |l| > 5 && l[0] == 'C' && (l[3] != 't' || l[5] != 'n')
    ensures l != METADATA && l != CONTENT
  {
    assert METADATA[0] == 'M' && CONTENT[3] == 't' && CONTENT[5] == 'n';
  }

  lemma KeyOfNothing(l: string)
    requires !(MESSAGE_ID <= l) && !(MESSAGE_ROLE <= l) && !(MESSAGE_TIME <= l) && l != METADATA && l != CONTENT
    requires KeyOf(l) != Marker
    ensures KeyOf(l) == Other
  {
  }

  lemma ConversationIsOther()
    ensures KeyOf(CONVERSATION) == Other
  {
    assert CONVERSATION[0] == 'C' && CONVERSATION[1] == 'o' && CONVERSATION[3] == 'v';
    NotContent(CONVERSATION);
  }

  /** No line of the description or the context begins a message. */
  predicate MarkerFree(r: Report) {
    NoMarkers(SplitLines(r.description + "\n")) && NoMarkers(Rows(ContextLines(r.context)))
  }

  lemma MarkerFreeIsQuiet(r: Report, j: Codec)
    requires AllSingle(Values(r)) && MarkerFree(r)
    ensures Quiet(r, j)
  {
    RowsAbove(r);
    HeaderHasNoMarkers(r);
    LastLinesAreOther();
    forall l | l in Frame(r) ensures KeyOf(l) != Marker {
      assert l in HeaderLines(r) || l in SplitLines(r.description + "\n") || l in Rows(ContextLines(r.context)) ||
        l in ["", CONVERSATION];
    }
    NoMarkersRead(Frame(r), ReportScanner(), j);
  }

  /** Without a marker line above the conversation, nothing comes back by accident. */
  lemma MarkerFreeRoundTrips(r: Report, j: Codec)
    requires IsJson(j) && AllObjects(r.messages, j) && MarkerFree(r)
    ensures ComesBack(r, j) <==> TextOk(r) && AllFit(r.messages, ReportScanner(), j)
  {
    ReportRoundTrips(r, j);
    if HeaderOk(r) {
      HeaderIsSingle(r);
      MarkerFreeIsQuiet(r, j);
      QuietTalk(r, j);
    }
  }

  lemma QuietTalk(r: Report, j: Codec)
    requires Quiet(r, j)
    ensures TalkOk(r, j) <==> AllFit(r.messages, ReportScanner(), j)
  {
  }

  // ----- which texts are safe for every conversation -----

  /** Whatever fitting conversation a report of this text has, it comes back. */
  ghost predicate SafeForAll(r: Report, j: Codec) {
    forall ms {:trigger AllFit(ms, ReportScanner(), j)} ::
      AllObjects(ms, j) && AllFit(ms, ReportScanner(), j) ==> ComesBack(r.(messages := ms), j)
  }

  lemma FrameKeepsMessagesOut(r: Report, ms: seq<Message>, j: Codec)
    ensures Found(r.(messages := ms), j) == Found(r, j) && Open(r.(messages := ms), j) == Open(r, j)
    ensures TextOk(r.(messages := ms)) == TextOk(r)
  {
    assert Values(r.(messages := ms)) == Values(r);
    assert Above(r.(messages := ms)) == Above(r);
  }

  function OneMessage(j: Codec): seq<Message> { [Message("", "user", "", j.empty, "")] }

  lemma OneMessageFits(j: Codec)
    ensures AllFit(OneMessage(j), ReportScanner(), j)
  {
    EmptyIsLegible(OneMessage(j)[0], j);
    assert SplitNewlines("") == [""];
  }

  /** That is so exactly if nothing in the text is taken for a message and no JSON block is left open. */
  lemma SafeTexts(r: Report, j: Codec)
    requires IsJson(j)
    ensures SafeForAll(r, j) <==> TextOk(r) && Found(r, j) == [] && !Open(r, j)
  {
    if SafeForAll(r, j) {
      NeededForNone(r, j);
      NeededForOne(r, j);
    } else {
      var ms :| AllObjects(ms, j) && AllFit(ms, ReportScanner(), j) && !ComesBack(r.(messages := ms), j);
      FrameKeepsMessagesOut(r, ms, j);
      ReportRoundTrips(r.(messages := ms), j);
    }
  }

  lemma NeededForNone(r: Report, j: Codec)
    requires IsJson(j) && SafeForAll(r, j)
    ensures TextOk(r) && Found(r, j) == []
  {
    assert AllFit([], ReportScanner(), j);
    FrameKeepsMessagesOut(r, [], j);
    ReportRoundTrips(r.(messages := []), j);
  }

  lemma NeededForOne(r: Report, j: Codec)
    requires IsJson(j) && SafeForAll(r, j) && Found(r, j) == []
    ensures !Open(r, j)
  {
    OneMessageFits(j);
    FrameKeepsMessagesOut(r, OneMessage(j), j);
    ReportRoundTrips(r.(messages := OneMessage(j)), j);
  }
}

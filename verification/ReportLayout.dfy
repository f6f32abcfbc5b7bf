/** The printed issue report line by line, and the lines its parser goes by, in the words they are made of. */
module ReportLayout {
  import opened Text
  import opened ReportLines
  import opened ReportText
  import opened ReportMessages
  import opened ReportRoundTrip
  import opened ReportConversation
  import opened ReportPayload

  // ----- the header as it is read -----

  lemma LineAt(r: Report, j: Codec, k: nat)
    requires AllSingle(Values(r)) && k < 9
    ensures k < |SplitLines(Print(r, j))| && SplitLines(Print(r, j))[k] == HeaderLines(r)[k]
  {
    HeaderReads(r, j);
  }

  lemma LabelledAt(r: Report, k: nat)
    requires k < 5
    ensures HeaderLines(r)[2 + k] == LABELS[k] + Values(r)[k]
  {
  }

  lemma FieldLine(r: Report, j: Codec, k: nat, name: string, value: string)
    requires AllSingle(Values(r)) && k < 5 && LABELS[k] == name && Values(r)[k] == value
    ensures 2 + k < |SplitLines(Print(r, j))| && SplitLines(Print(r, j))[2 + k] == name + value
  {
    LineAt(r, j, 2 + k);
    LabelledAt(r, k);
  }

  lemma ReportIdLine(r: Report, j: Codec)
    requires AllSingle(Values(r))
    ensures 2 < |SplitLines(Print(r, j))| && SplitLines(Print(r, j))[2] == "Report ID: " + r.id
  {
    FieldLine(r, j, 0, "Report ID: ", r.id);
  }

  lemma CreatedAtLine(r: Report, j: Codec)
    requires AllSingle(Values(r))
    ensures 3 < |SplitLines(Print(r, j))| && SplitLines(Print(r, j))[3] == "Created At (UTC): " + r.createdAt
  {
    FieldLine(r, j, 1, "Created At (UTC): ", r.createdAt);
  }

  lemma AppVersionLine(r: Report, j: Codec)
    requires AllSingle(Values(r))
    ensures 4 < |SplitLines(Print(r, j))| && SplitLines(Print(r, j))[4] == "App Version: " + r.version
  {
    FieldLine(r, j, 2, "App Version: ", r.version);
  }

  lemma ThreadIdLine(r: Report, j: Codec)
    requires AllSingle(Values(r))
    ensures 5 < |SplitLines(Print(r, j))| && SplitLines(Print(r, j))[5] == "Thread ID: " + r.thread
  {
    FieldLine(r, j, 3, "Thread ID: ", r.thread);
  }

  lemma CategoryLine(r: Report, j: Codec)
    requires AllSingle(Values(r))
    ensures 6 < |SplitLines(Print(r, j))| && SplitLines(Print(r, j))[6] == "Category: " + r.category
  {
    FieldLine(r, j, 4, "Category: ", r.category);
  }

  lemma FrameLines(r: Report, j: Codec)
    requires AllSingle(Values(r))
    ensures var ls := SplitLines(Print(r, j));
      8 < |ls| && ls[0] == TITLE && ls[1] == RULE && ls[7] == "" && ls[8] == DESCRIPTION
  {
    LineAt(r, j, 0);
    LineAt(r, j, 1);
    LineAt(r, j, 7);
    LineAt(r, j, 8);
  }

  /** A report whose five header fields are single lines prints each behind its own label. */
  lemma HeaderIsPrinted(r: Report, j: Codec)
    requires SingleLine(r.id) && SingleLine(r.createdAt) && SingleLine(r.version)
    requires SingleLine(r.thread) && SingleLine(r.category)
    ensures var ls := SplitLines(Print(r, j));
      && |ls| > 8
      && ls[0] == "Finance LLM 문제 신고"
      && ls[1] == "===================="
      && ls[2] == "Report ID: " + r.id
      && ls[3] == "Created At (UTC): " + r.createdAt
      && ls[4] == "App Version: " + r.version
      && ls[5] == "Thread ID: " + r.thread
      && ls[6] == "Category: " + r.category
      && ls[7] == ""
      && ls[8] == "Description:"
  {
    ValuesAreSingle(r);
    FrameLines(r, j);
    ReportIdLine(r, j);
    CreatedAtLine(r, j);
    AppVersionLine(r, j);
    ThreadIdLine(r, j);
    CategoryLine(r, j);
  }

  // ----- the whole text as it is printed -----

  lemma NineLines(
    ls: seq<string>, a: string, b: string, c: string, d: string, e: string, f: string, g: string, h: string, i: string)
    requires |ls| == 9 && ls[0] == a && ls[1] == b && ls[2] == c && ls[3] == d && ls[4] == e && ls[5] == f
    requires ls[6] == g && ls[7] == h && ls[8] == i
    ensures ls == [a, b, c, d, e, f, g, h, i]
  {
  }

  lemma LabelledLines(r: Report)
    ensures HeaderLines(r)[2] == REPORT_ID + r.id && HeaderLines(r)[3] == CREATED_AT + r.createdAt
    ensures HeaderLines(r)[4] == APP_VERSION + r.version && HeaderLines(r)[5] == THREAD_ID + r.thread
    ensures HeaderLines(r)[6] == CATEGORY + r.category
  {
    LabelledAt(r, 0);
    LabelledAt(r, 1);
    LabelledAt(r, 2);
    LabelledAt(r, 3);
    LabelledAt(r, 4);
  }

  /** The lines of the header. */
  lemma HeaderWords(r: Report)
    ensures HeaderLines(r) ==
      [ "Finance LLM 문제 신고",
        "====================",
        "Report ID: " + r.id,
        "Created At (UTC): " + r.createdAt,
        "App Version: " + r.version,
        "Thread ID: " + r.thread,
        "Category: " + r.category,
        "",
        "Description:" ]
  {
    LabelledLines(r);
    NineLines(HeaderLines(r), TITLE, RULE, REPORT_ID + r.id, CREATED_AT + r.createdAt, APP_VERSION + r.version,
      THREAD_ID + r.thread, CATEGORY + r.category, "", DESCRIPTION);
  }

  lemma {:induction false} ContextEntry(context: seq<(string, string)>, i: nat)
    requires i < |context|
    ensures |ContextValues(context)| == |context|
    ensures ContextValues(context)[i] == "- " + context[i].0 + ": " + context[i].1
  {
    if |context| > 1 {
      ContextEntry(context[1..], if i == 0 then 0 else i - 1);
    } else {
      assert ContextValues(context[1..]) == [];
    }
  }

  /** An empty context prints as one line; another as a title and one entry each. */
  lemma ContextWords(context: seq<(string, string)>)
    ensures context == [] ==> ContextLines(context) == ["Context: -"]
    ensures context != [] ==>
      && |ContextLines(context)| == 1 + |context| && ContextLines(context)[0] == "Context:"
      && forall i :: 0 <= i < |context| ==> ContextLines(context)[1 + i] == "- " + context[i].0 + ": " + context[i].1
  {
    if context != [] {
      ContextEntry(context, 0);
      forall i | 0 <= i < |context|
        ensures ContextLines(context)[1 + i] == "- " + context[i].0 + ": " + context[i].1
      {
        ContextEntry(context, i);
      }
    }
  }

  /** The lines of the message with this number stand from place `k` on. */
  predicate MessageAt(ls: seq<string>, k: nat, m: Message, number: nat, j: Codec) {
    && k + 9 <= |ls|
    && ls[k] == ""
    && ls[k + 1] == "--- Message " + (Decimal(number) + " ---")
    && ls[k + 2] == "ID: " + m.id
    && ls[k + 3] == "Role: " + m.role
    && ls[k + 4] == "Created At: " + m.createdAt
    && ls[k + 5] == "Metadata:"
    && ls[k + 6] == (if m.metadata == j.empty then "{}" else j.dumps(m.metadata))
    && ls[k + 7] == "Content:"
    && ls[k + 8] == m.content
  }

  lemma OneMessage(m: Message, number: nat, j: Codec)
    ensures |MessageLines(m, number, j)| == 9 && MessageAt(MessageLines(m, number, j), 0, m, number, j)
  {
  }

  lemma ShiftedMessage(a: seq<string>, b: seq<string>, k: nat, m: Message, number: nat, j: Codec)
    ensures MessageAt(b, k, m, number, j) ==> MessageAt(a + b, |a| + k, m, number, j)
    ensures MessageAt(a, k, m, number, j) ==> MessageAt(a + b, k, m, number, j)
  {
  }

  /** Nine lines for each message, numbered in order. */
  lemma {:induction false} TalkWords(ms: seq<Message>, index: nat, j: Codec)
    ensures |AllMessageLines(ms, index, j)| == 9 * |ms|
    ensures forall i :: 0 <= i < |ms| ==> MessageAt(AllMessageLines(ms, index, j), 9 * i, ms[i], index + i, j)
    decreases |ms|
  {
    if ms != [] {
      var a, b := MessageLines(ms[0], index, j), AllMessageLines(ms[1..], index + 1, j);
      OneMessage(ms[0], index, j);
      TalkWords(ms[1..], index + 1, j);
      forall i | 0 <= i < |ms| ensures MessageAt(a + b, 9 * i, ms[i], index + i, j) {
        if i == 0 {
          ShiftedMessage(a, b, 0, ms[0], index, j);
        } else {
          assert ms[1..][i - 1] == ms[i];
          ShiftedMessage(a, b, 9 * (i - 1), ms[i], index + i, j);
        }
      }
    }
  }

  lemma SubjectWords(r: Report)
    ensures Subject(r) == "제목: [Finance LLM Issue][v" + r.version + "][Report ID: " + r.id + "] " + r.category
  {
  }

  lemma FourNotes(a: string, b: string, c: string, d: string)
    ensures Bulleted([a, b, c, d]) == ["- " + a, "- " + b, "- " + c, "- " + d]
  {
  }

  /** The guide below the conversation. */
  lemma GuideWords(r: Report, j: Codec)
    ensures FooterLines(r, j) ==
      [ "",
        "사용 안내:",
        "- " + j.contact,
        "- " + ("제목: [Finance LLM Issue][v" + r.version + "][Report ID: " + r.id + "] " + r.category),
        "- " + j.copying,
        "- " + j.privacy ]
  {
    SubjectWords(r);
    FourNotes(j.contact, Subject(r), j.copying, j.privacy);
  }

  lemma Regrouped(
    head: seq<string>, text: string, context: seq<string>, title: string, talk: seq<string>, guide: seq<string>)
    ensures head + ([text] + ([""] + (context + (["", title] + (talk + guide)))))
      == head + [text, ""] + context + ["", title] + talk + guide
  {
  }

  /** The printed report: header, description, context, conversation and guide, each line ended by a newline. */
  lemma PrintedWords(r: Report, j: Codec)
    ensures Print(r, j) == Terminated(HeaderLines(r) + [r.description, ""] + ContextLines(r.context)
      + ["", "Conversation Messages:"]
      + (if r.messages == [] then ["- 첨부된 대화 없음"] else AllMessageLines(r.messages, 1, j))
      + FooterLines(r, j))
  {
    PrintIsTerminated(r, j);
    Regrouped(HeaderLines(r), r.description, ContextLines(r.context), CONVERSATION,
      if r.messages == [] then [NO_MESSAGES] else AllMessageLines(r.messages, 1, j), FooterLines(r, j));
  }

  // ----- the lines the parser goes by -----

  /** A section ends at one of its three titles, with blanks in front or not. */
  lemma StopWords(l: string)
    ensures StopsSection()(l) <==>
      l != "" && l[|l| - 1] == ':' && Strip(l) in {"Context:", "Conversation Messages:", "사용 안내:"}
  {
  }

  /** The lines of a message that say something, each by its own beginning. */
  lemma KeyWords(v: string)
    ensures KeyOf("--- Message " + v) == Marker
    ensures KeyOf("ID: " + v) == Id(Strip(v))
    ensures KeyOf("Role: " + v) == Role(Strip(v))
    ensures KeyOf("Created At: " + v) == Time(Strip(v))
    ensures KeyOf("Metadata:") == Metadata
    ensures KeyOf("Content:") == Content
  {
    assert (MARKER + v)[..|MARKER|] == MARKER;
    KeyOfId(v);
    KeyOfRole(v);
    KeyOfTime(v);
    KeyOfMetadata();
    KeyOfContent();
  }

  /** Every other line says nothing. */
  lemma OtherWords(l: string)
    requires !("--- Message " <= l) && !("ID: " <= l) && !("Role: " <= l) && !("Created At: " <= l)
    requires l != "Metadata:" && l != "Content:"
    ensures KeyOf(l) == Other
  {
  }

  /** The content of a message ends at the next one or at the guide. */
  lemma EndWords(l: string)
    ensures ReportScanner().stop(l) <==> "--- Message " <= l || l == "사용 안내:"
    ensures ReportScanner().key(l) == KeyOf(l)
  {
  }

  /** A version or a category that is missing is read as a word for it. */
  lemma MissingWords(ls: seq<string>)
    ensures (forall l :: l in ls ==> !("App Version: " <= l)) ==> HeaderIn(ls).version == "unknown"
    ensures (forall l :: l in ls ==> !("Category: " <= l)) ==> HeaderIn(ls).category == "기타"
  {
    if forall l :: l in ls ==> !(APP_VERSION <= l) {
      NothingWith(ls, APP_VERSION);
    }
    if forall l :: l in ls ==> !(CATEGORY <= l) {
      NothingWith(ls, CATEGORY);
    }
  }

  lemma {:induction false} NothingWith(ls: seq<string>, prefix: string)
    requires forall l :: l in ls ==> !(prefix <= l)
    ensures FirstWith(ls, prefix) == ""
  {
    if ls != [] {
      assert ls[0] in ls && forall l :: l in ls[1..] ==> l in ls;
      NothingWith(ls[1..], prefix);
    }
  }

  lemma RoleOnly(a: string, b: string, role: string, s: Scanner, j: Codec)
    requires s.key(a) == Marker && s.key(b) == Role(role)
    ensures Messages([a, b], s, j) == if role == "" then [] else [Message("", role, "", j.empty, "")]
  {
    var ls := [a, b];
    assert ls[1..] == [b] + [];
    ReadField(b, [], ReportMessages.Blank(j), s, j);
    MessagesNext([], ls, s, j);
  }

  lemma RoleKeys(a: string, b: string, v: string, w: string)
    requires a == "--- Message " + v && b == "Role: " + w
    ensures ReportScanner().key(a) == Marker && ReportScanner().key(b) == Role(Strip(w))
  {
    KeyWords(v);
    KeyWords(w);
  }

  /** A marker and a role line make a message whose other texts are empty; without a role there is none. */
  lemma RoleAlone(a: string, b: string, v: string, w: string, j: Codec)
    requires a == "--- Message " + v && b == "Role: " + w
    ensures Messages([a, b], ReportScanner(), j)
      == if Strip(w) == "" then [] else [Message("", Strip(w), "", j.empty, "")]
  {
    RoleKeys(a, b, v, w);
    RoleOnly(a, b, Strip(w), ReportScanner(), j);
  }

  // ----- what is compared -----

  /** Each part of the payload is read behind its own words. */
  lemma PayloadWords(ls: seq<string>, j: Codec)
    ensures var p := PayloadIn(ls, j);
      && p.header.id == FirstWith(ls, "Report ID: ")
      && p.header.createdAt == FirstWith(ls, "Created At (UTC): ")
      && p.header.version
        == (if FirstWith(ls, "App Version: ") == "" then "unknown" else FirstWith(ls, "App Version: "))
      && p.header.thread == FirstWith(ls, "Thread ID: ")
      && p.header.category == (if FirstWith(ls, "Category: ") == "" then "기타" else FirstWith(ls, "Category: "))
      && p.description == SectionIn(ls, "Description")
      && p.messages == Messages(ls, ReportScanner(), j)
  {
  }

  /** A report comes back exactly if every part that is read is the report's field of that name. */
  lemma ComesBackByName(r: Report, j: Codec)
    ensures var p := PayloadIn(SplitLines(Print(r, j)), j);
      ComesBack(r, j) <==>
        && p.header.id == r.id && p.header.createdAt == r.createdAt && p.header.version == r.version
        && p.header.thread == r.thread && p.header.category == r.category
        && p.description == r.description && p.messages == r.messages
  {
  }

  // ----- numbers -----

  function Value(s: string): int { if s == "" then 0 else 10 * Value(s[..|s| - 1]) + (s[|s| - 1] as int - '0' as int) }

  /** A message number is printed in decimal digits without a leading zero. */
  lemma {:induction false} DecimalWords(n: nat)
    ensures Decimal(n) != "" && Value(Decimal(n)) == n
    ensures forall i :: 0 <= i < |Decimal(n)| ==> '0' <= Decimal(n)[i] <= '9'
    ensures n > 0 ==> Decimal(n)[0] != '0'
  {
    if n >= 10 {
      DecimalWords(n / 10);
      var s := Decimal(n);
      assert s[..|s| - 1] == Decimal(n / 10);
    } else {
      assert Decimal(n)[..0] == "";
    }
  }
}

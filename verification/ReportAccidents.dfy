/** Descriptions that look like messages: how they break a report, and how a report can survive them. */
module ReportAccidents {
  import opened Text
  import opened ReportLines
  import opened ReportText
  import opened ReportMessages
  import opened ReportRoundTrip
  import opened ReportFrames
  import opened ReportConversation
  import opened ReportPayload

  // ----- descriptions given by their lines -----

  lemma JoinedRead(ls: seq<string>)
    requires AllSingle(ls) && ls != []
    ensures SplitLines(JoinNewlines(ls) + "\n") == ls && Clean(JoinNewlines(ls))
    ensures SplitNewlines(JoinNewlines(ls)) == ls
  {
    JoinIsTerminated(ls);
    RowsRead(ls, "");
    assert Terminated(ls) + "" == Terminated(ls) && SplitLines("") == [];
    SingleRows(ls);
    forall l | l in ls ensures SingleLine(l) {
      var i :| 0 <= i < |ls| && ls[i] == l;
    }
    JoinedLinesAreClean(ls);
    CleanRows(JoinNewlines(ls));
  }

  lemma JoinStarts(ls: seq<string>)
    requires ls != [] && ls[0] != ""
    ensures JoinNewlines(ls) != "" && JoinNewlines(ls)[0] == ls[0][0]
  {
  }

  predicate NoStops(ls: seq<string>) { forall l :: l in ls ==> !StopsSection()(l) }

  lemma LinesAreADescription(ls: seq<string>)
    requires AllSingle(ls) && ls != [] && NoStops(ls)
    requires ls[0] != "" && !IsSpace(ls[0][0]) && ls[|ls| - 1] != "" && !IsSpace(ls[|ls| - 1][|ls[|ls| - 1]| - 1])
    ensures DescriptionOk(JoinNewlines(ls))
  {
    JoinedRead(ls);
    JoinStarts(ls);
    JoinEnds(ls);
  }

  /** A line that starts like no section title ends no section. */
  lemma NotAStop(l: string)
    requires |l| > 1 && !IsSpace(l[0]) && l[0] != '사' && (l[0] != 'C' || l[1] != 'o')
    ensures !StopsSection()(l)
  {
    assert DropSpaces(l) == l && Strip(l) <= l;
    TitleLetters();
    Differs(CONTEXT, l, if l[0] == 'C' then 1 else 0);
    Differs(CONVERSATION, l, if l[0] == 'C' then 1 else 0);
    Differs(GUIDE, l, 0);
    Another(Strip(l), CONTEXT, l);
    Another(Strip(l), CONVERSATION, l);
    Another(Strip(l), GUIDE, l);
    NotATitle(Strip(l));
    NoTitleNoStop(l);
  }

  lemma Another(t: string, title: string, l: string)
    requires t <= l && !(title <= l)
    ensures t != title
  {
  }

  lemma NotATitle(t: string)
    requires t != CONTEXT && t != CONVERSATION && t != GUIDE
    ensures t !in STOPS
  {
  }

  lemma NoTitleNoStop(l: string)
    requires Strip(l) !in STOPS
    ensures !StopsSection()(l)
  {
  }

  lemma TitleLetters()
    ensures |CONTEXT| > 1 && CONTEXT[0] == 'C' && CONTEXT[1] == 'o'
    ensures |CONVERSATION| > 1 && CONVERSATION[0] == 'C' && CONVERSATION[1] == 'o'
    ensures |GUIDE| > 1 && GUIDE[0] == '사'
  {
  }

  lemma MarkerLineStarts()
    ensures |MarkerLine(1)| > 1 && MarkerLine(1)[0] == '-'
  {
  }

  lemma FieldLinesStart(m: Message)
    ensures |MESSAGE_ID + m.id| > 1 && (MESSAGE_ID + m.id)[0] == 'I'
    ensures |MESSAGE_ROLE + m.role| > 1 && (MESSAGE_ROLE + m.role)[0] == 'R'
  {
  }

  lemma OtherLinesStart(m: Message)
    ensures |MESSAGE_TIME + m.createdAt| > 1 && (MESSAGE_TIME + m.createdAt)[0] == 'C'
    ensures (MESSAGE_TIME + m.createdAt)[1] == 'r'
    ensures |METADATA| > 1 && METADATA[0] == 'M'
  {
  }

  /** No line of the context is a field, a block or a marker of a message. */
  predicate PlainContext(r: Report) { r.context != [] && NoFields(Rows(ContextLines(r.context)), ReportScanner()) }

  /** The lines between a description and a conversation. */
  function Between(r: Report): seq<string> { [""] + (Rows(ContextLines(r.context)) + ["", CONVERSATION, ""]) }

  lemma BetweenIsOther(r: Report)
    requires PlainContext(r)
    ensures NoFields(Between(r), ReportScanner())
  {
    LastLinesAreOther();
  }

  lemma EntryIsSingle(k: string, v: string)
    requires SingleLine(k) && SingleLine(v)
    ensures SingleLine("- " + (k + ": " + v))
  {
    assert SingleLine(": ") && SingleLine("- ");
    AppendIsSingle(k, ": ");
    AppendIsSingle(k + ": ", v);
    AppendIsSingle("- ", k + ": " + v);
  }

  lemma ContextIsOther()
    ensures KeyOf(CONTEXT) == Other
  {
    assert CONTEXT[0] == 'C' && CONTEXT[1] == 'o' && CONTEXT[5] == 'x';
    NotContent(CONTEXT);
  }

  predicate SingleEntries(context: seq<(string, string)>) {
    forall e :: e in context ==> SingleLine(e.0) && SingleLine(e.1)
  }

  lemma {:induction false} EntriesAreOther(context: seq<(string, string)>)
    requires SingleEntries(context)
    ensures AllSingle(ContextValues(context)) && NoFields(ContextValues(context), ReportScanner())
  {
    if context != [] {
      assert context[0] in context;
      EntriesAreOther(context[1..]);
      EntryIsOther(context[0].0, context[0].1);
    }
  }

  lemma EntryIsOther(key: string, value: string)
    requires SingleLine(key) && SingleLine(value)
    ensures SingleLine("- " + key + ": " + value) && KeyOf("- " + key + ": " + value) == Other
  {
    EntryIsSingle(key, value);
    BulletIsOther(key + ": " + value);
    assert "- " + key + ": " + value == "- " + (key + ": " + value);
  }

  /** A context of single-line keys and values is plain. */
  lemma SingleEntriesArePlain(r: Report)
    requires r.context != [] && SingleEntries(r.context)
    ensures PlainContext(r)
  {
    var values := ContextValues(r.context);
    EntriesAreOther(r.context);
    MarkersAreSingle();
    ContextIsOther();
    RowsFirst(CONTEXT, values);
    SingleRows(values);
  }

  lemma FrameOfLines(r: Report, ls: seq<string>)
    requires AllSingle(Values(r)) && AllSingle(ls) && ls != [] && r.description == JoinNewlines(ls)
    ensures Frame(r) == HeaderLines(r) + (ls + Between(r))
  {
    RowsAbove(r);
    JoinedRead(ls);
    var context := Rows(ContextLines(r.context));
    assert (HeaderLines(r) + (ls + ([""] + (context + ["", CONVERSATION])))) + [""]
        == HeaderLines(r) + (ls + ([""] + (context + ["", CONVERSATION, ""])));
  }

  // ----- a description that is read as a message -----

  /** A marker line with a role line behind it. */
  function FeignedMessage(): seq<string> { [MarkerLine(1)] + [MESSAGE_ROLE + "x"] }

  lemma FeignedLinesAreSingle()
    ensures AllSingle(FeignedMessage())
  {
    MarkerLineIsSingle(1);
    FieldLabelsAreSingle();
    AppendIsSingle(MESSAGE_ROLE, "x");
  }

  lemma FeignedMessageIsOk()
    ensures DescriptionOk(JoinNewlines(FeignedMessage()))
  {
    var m := Message("", "x", "", Json(""), "");
    FeignedLinesAreSingle();
    MarkerLineStarts();
    FieldLinesStart(m);
    NotAStop(MarkerLine(1));
    NotAStop(MESSAGE_ROLE + "x");
    RoleLineEnds();
    LinesAreADescription(FeignedMessage());
  }

  lemma RoleLineEnds()
    ensures (MESSAGE_ROLE + "x")[|MESSAGE_ROLE + "x"| - 1] == 'x'
  {
  }

  lemma MarkerLineKey()
    ensures KeyOf(MarkerLine(1)) == Marker
  {
    ReportMarkers();
    assert ReportScanner().key(MarkerLine(1)) == Marker;
  }

  lemma RoleKey(v: string)
    requires Trimmed(v)
    ensures KeyOf(MESSAGE_ROLE + v) == Role(v)
  {
    KeyOfRole(v);
    StripTrims(v);
  }

  lemma RoleReads(a: seq<string>, marker: string, role: string, b: seq<string>, s: Scanner, j: Codec)
    requires (forall l :: l in a ==> s.key(l) != Marker) && s.key(marker) == Marker && s.key(role).Role?
    ensures var ls := a + ([marker] + ([role] + b));
      && Messages(ls, s, j) == Onward(b, Blank(j).(role := s.key(role).value), s, j)
      && LeavesJsonOpen(ls, s, j) == EndsInJson(b, s, j)
  {
    NoMarkersBefore(a, [marker] + ([role] + b), s, j);
    OpenBehind(a, [marker] + ([role] + b), s, j);
    assert ([marker] + ([role] + b))[1..] == [role] + b && ([role] + b)[1..] == b;
    ReadField(role, b, Blank(j), s, j);
    EndsBehindField(role, b, s, j);
  }

  lemma {:induction false} FieldlessIsClosed(ls: seq<string>, s: Scanner, j: Codec)
    requires NoFields(ls, s)
    ensures !EndsInJson(ls, s, j)
  {
    if ls != [] {
      assert ls[0] in ls && TurnOf(ls, Blank(j), s, j).rest == ls[1..];
      FieldlessIsClosed(ls[1..], s, j);
    }
  }

  lemma FeignedIsRead(a: seq<string>, marker: string, role: string, b: seq<string>, s: Scanner, j: Codec)
    requires (forall l :: l in a ==> s.key(l) != Marker) && s.key(marker) == Marker
    requires s.key(role) == Role("x") && NoFields(b, s)
    ensures var ls := a + ([marker] + ([role] + b)); Messages(ls, s, j) != [] && !LeavesJsonOpen(ls, s, j)
  {
    RoleReads(a, marker, role, b, s, j);
    EndOnward(b, 0, Blank(j).(role := "x"), s, j);
    assert b[0..] == b;
    FieldlessIsClosed(b, s, j);
  }

  /** Lines without fields but for one role line without a role, which takes the role away. */
  lemma {:induction false} ErasedRole(a: seq<string>, role: string, b: seq<string>, m: Message, s: Scanner, j: Codec)
    requires NoFields(a, s) && s.key(role) == Role("") && NoFields(b, s)
    ensures Onward(a + ([role] + b), m, s, j) == []
  {
    if a == [] {
      assert a + ([role] + b) == [role] + b && b[0..] == b;
      ReadField(role, b, m, s, j);
      EndOnward(b, 0, m.(role := ""), s, j);
    } else {
      assert (a + ([role] + b)) == [a[0]] + (a[1..] + ([role] + b)) && a[0] in a;
      OtherOnward(a[0], a[1..] + ([role] + b), m, s, j);
      ErasedRole(a[1..], role, b, m, s, j);
    }
  }

  lemma ErasingContextReads(r: Report, key: string, value: string)
    requires SingleLine(key) && SingleLine(value) && r.context == [(key, value + "\n" + MESSAGE_ROLE)]
    ensures var entry := "- " + (key + ": " + value);
      && Between(r) == ([""] + ([CONTEXT] + [entry])) + ([MESSAGE_ROLE] + ["", CONVERSATION, ""])
      && NoFields([""] + ([CONTEXT] + [entry]), ReportScanner())
      && KeyOf(MESSAGE_ROLE) == Role("")
  {
    var entry := "- " + (key + ": " + value);
    EntryIsSingle(key, value);
    FieldLabelsAreSingle();
    MarkersAreSingle();
    assert ContextValues(r.context[1..]) == [];
    EntryText(key, value, MESSAGE_ROLE);
    assert ContextLines(r.context) == [CONTEXT] + [entry + "\n" + MESSAGE_ROLE];
    RowsFirst(CONTEXT, [entry + "\n" + MESSAGE_ROLE]);
    TwoRows(entry, MESSAGE_ROLE);
    ContextIsOther();
    BulletIsOther(key + ": " + value);
    KeyOfOther("");
    KeyOfRole("");
    assert MESSAGE_ROLE + "" == MESSAGE_ROLE;
  }

  lemma EntryText(key: string, value: string, more: string)
    ensures "- " + key + ": " + (value + "\n" + more) == "- " + (key + ": " + value) + "\n" + more
  {
  }

  lemma TwoRows(a: string, b: string)
    requires SingleLine(a) && SingleLine(b)
    ensures Rows([a + "\n" + b]) == [a] + [b]
  {
    RowsCons(a + "\n" + b, []);
    assert [a + "\n" + b] + [] == [a + "\n" + b];
    JoinedRead([a] + [b]);
    assert JoinNewlines([a] + [b]) == a + "\n" + b by {
      assert ([a] + [b])[1..] == [b];
    }
  }

  lemma TwoAndMore(a: string, b: string, t: seq<string>)
    ensures ([a] + [b]) + t == [a] + ([b] + t)
  {
  }

  lemma FeignedFrame(r: Report)
    requires HeaderOk(r) && r.description == JoinNewlines(FeignedMessage())
    ensures Frame(r) == HeaderLines(r) + ([MarkerLine(1)] + ([MESSAGE_ROLE + "x"] + Between(r)))
  {
    HeaderIsSingle(r);
    FeignedLinesAreSingle();
    FrameOfLines(r, FeignedMessage());
    TwoAndMore(MarkerLine(1), MESSAGE_ROLE + "x", Between(r));
  }

  /** Behind a plain context the description is read as a message, and nothing is swallowed. */
  lemma FeignedMessageIsFound(r: Report, j: Codec)
    requires HeaderOk(r) && PlainContext(r) && r.description == JoinNewlines(FeignedMessage())
    ensures Found(r, j) != [] && !Open(r, j)
  {
    FeignedFrame(r);
    BetweenIsOther(r);
    HeaderHasNoMarkers(r);
    MarkerLineKey();
    RoleKey("x");
    FeignedIsRead(HeaderLines(r), MarkerLine(1), MESSAGE_ROLE + "x", Between(r), ReportScanner(), j);
  }

  /** Behind a plain context, whatever fitting conversation the report has, it does not come back. */
  lemma FeignedMessageBreaksTheReport(r: Report, j: Codec)
    requires IsJson(j) && AllObjects(r.messages, j) && AllFit(r.messages, ReportScanner(), j)
    requires HeaderOk(r) && PlainContext(r) && r.description == JoinNewlines(FeignedMessage())
    ensures TextOk(r) && !ComesBack(r, j)
  {
    FeignedMessageIsOk();
    FeignedMessageIsFound(r, j);
    FittingReportRoundTrips(r, j);
  }

  lemma FeignedFound(r: Report, j: Codec)
    requires HeaderOk(r) && r.description == JoinNewlines(FeignedMessage())
    ensures Found(r, j) == Onward(Between(r), Blank(j).(role := "x"), ReportScanner(), j)
  {
    FeignedFrame(r);
    HeaderHasNoMarkers(r);
    MarkerLineKey();
    RoleKey("x");
    RoleReads(HeaderLines(r), MarkerLine(1), MESSAGE_ROLE + "x", Between(r), ReportScanner(), j);
  }

  lemma AloneRoundTrips(r: Report, j: Codec)
    requires IsJson(j) && r.messages == [] && TextOk(r)
    ensures ComesBack(r, j) <==> Found(r, j) == []
  {
    FittingReportRoundTrips(r, j);
  }

  /** Without messages it comes back exactly if the context takes the role away again. */
  lemma FeignedMessageAlone(r: Report, j: Codec)
    requires IsJson(j) && r.messages == [] && HeaderOk(r) && r.context != []
    requires r.description == JoinNewlines(FeignedMessage())
    ensures ComesBack(r, j) <==> Onward(Between(r), Blank(j).(role := "x"), ReportScanner(), j) == []
  {
    FeignedMessageIsOk();
    FeignedFound(r, j);
    AloneRoundTrips(r, j);
  }

  /** Such a context: a value of two lines, the second of which is a role line without a role. */
  lemma ErasedRoleComesBack(r: Report, key: string, value: string, j: Codec)
    requires IsJson(j) && r.messages == [] && HeaderOk(r) && r.description == JoinNewlines(FeignedMessage())
    requires SingleLine(key) && SingleLine(value) && r.context == [(key, value + "\n" + MESSAGE_ROLE)]
    ensures ComesBack(r, j)
  {
    ErasingContextReads(r, key, value);
    LastLinesAreOther();
    ErasedRole([""] + ([CONTEXT] + ["- " + (key + ": " + value)]), MESSAGE_ROLE, ["", CONVERSATION, ""],
      Blank(j).(role := "x"), ReportScanner(), j);
    FeignedMessageAlone(r, j);
  }

  // ----- a description that is read in place of the conversation -----

  function Six(a: string, b: string, c: string, d: string, e: string, x: string): seq<string> {
    [a] + ([b] + ([c] + ([d] + ([e] + [x]))))
  }

  lemma SixAndMore(a: string, b: string, c: string, d: string, e: string, x: string, t: seq<string>)
    ensures Six(a, b, c, d, e, x) + t == [a] + ([b] + ([c] + ([d] + ([e] + ([x] + t)))))
  {
  }

  lemma SixAreSingle(a: string, b: string, c: string, d: string, e: string, x: string)
    requires SingleLine(a) && SingleLine(b) && SingleLine(c) && SingleLine(d) && SingleLine(e) && SingleLine(x)
    ensures AllSingle(Six(a, b, c, d, e, x))
  {
  }

  lemma SixAreADescription(a: string, b: string, c: string, d: string, e: string, x: string)
    requires AllSingle(Six(a, b, c, d, e, x))
    requires !StopsSection()(a) && !StopsSection()(b) && !StopsSection()(c) && !StopsSection()(d) && !StopsSection()(e)
    requires !StopsSection()(x)
    requires a != "" && !IsSpace(a[0]) && x != "" && !IsSpace(x[|x| - 1])
    ensures DescriptionOk(JoinNewlines(Six(a, b, c, d, e, x)))
  {
    SixMembers(a, b, c, d, e, x, StopsSection());
    LinesAreADescription(Six(a, b, c, d, e, x));
  }

  lemma SixMembers(a: string, b: string, c: string, d: string, e: string, x: string, stop: string -> bool)
    requires !stop(a) && !stop(b) && !stop(c) && !stop(d) && !stop(e) && !stop(x)
    ensures var ls := Six(a, b, c, d, e, x); |ls| == 6 && ls[0] == a && ls[5] == x && forall l :: l in ls ==> !stop(l)
  {
  }

  /** The first lines of a message; where its metadata should begin stands no JSON. */
  function CopiedMessage(m: Message): seq<string> {
    Six(MarkerLine(1), MESSAGE_ID + m.id, MESSAGE_ROLE + m.role, MESSAGE_TIME + m.createdAt, METADATA, "x")
  }

  lemma CopiedLinesAreSingle(m: Message)
    requires Sound(m)
    ensures AllSingle(CopiedMessage(m))
  {
    MarkerLineIsSingle(1);
    FieldLinesAreSingle(m);
    BlockLabelsAreSingle();
    SixAreSingle(MarkerLine(1), MESSAGE_ID + m.id, MESSAGE_ROLE + m.role, MESSAGE_TIME + m.createdAt, METADATA, "x");
  }

  lemma CopiedMessageIsOk(m: Message)
    requires Sound(m)
    ensures DescriptionOk(JoinNewlines(CopiedMessage(m)))
  {
    CopiedLinesAreSingle(m);
    NoneIsAStop(m);
    SixAreADescription(MarkerLine(1), MESSAGE_ID + m.id, MESSAGE_ROLE + m.role, MESSAGE_TIME + m.createdAt,
      METADATA, "x");
  }

  lemma NoneIsAStop(m: Message)
    ensures !StopsSection()(MarkerLine(1)) && !StopsSection()(MESSAGE_ID + m.id)
    ensures !StopsSection()(MESSAGE_ROLE + m.role)
    ensures !StopsSection()(MESSAGE_TIME + m.createdAt) && !StopsSection()(METADATA) && !StopsSection()("x")
    ensures MarkerLine(1) != "" && !IsSpace(MarkerLine(1)[0])
  {
    MarkerLineStarts();
    FieldLinesStart(m);
    OtherLinesStart(m);
    NotAStop(MarkerLine(1));
    NotAStop(MESSAGE_ID + m.id);
    NotAStop(MESSAGE_ROLE + m.role);
    NotAStop(MESSAGE_TIME + m.createdAt);
    NotAStop(METADATA);
  }

  lemma {:induction false} OpenBehind(a: seq<string>, t: seq<string>, s: Scanner, j: Codec)
    requires forall l :: l in a ==> s.key(l) != Marker
    ensures LeavesJsonOpen(a + t, s, j) == LeavesJsonOpen(t, s, j)
  {
    if a == [] {
      assert a + t == t;
    } else {
      assert (a + t)[1..] == a[1..] + t && a[0] in a;
      OpenBehind(a[1..], t, s, j);
    }
  }

  lemma EndsBehindField(l: string, ls: seq<string>, s: Scanner, j: Codec)
    requires s.key(l).Id? || s.key(l).Role? || s.key(l).Time?
    ensures EndsInJson([l] + ls, s, j) == EndsInJson(ls, s, j)
  {
    assert ([l] + ls)[1..] == ls;
  }

  /** A message whose metadata block does not end is read, and swallows all that follows. */
  lemma OpenMessageReads(a: seq<string>, marker: string, m: Message, rest: seq<string>, s: Scanner, j: Codec)
    requires (forall l :: l in a ==> s.key(l) != Marker) && s.key(marker) == Marker && KeysFit(m, s) && m.role != ""
    requires ShortestJson(rest, 1, j) > |rest|
    ensures var ls := a + ([marker]
      + ([MESSAGE_ID + m.id] + ([MESSAGE_ROLE + m.role] + ([MESSAGE_TIME + m.createdAt] + ([METADATA] + rest)))));
      Messages(ls, s, j) == [m.(metadata := j.empty, content := "")] && LeavesJsonOpen(ls, s, j)
  {
    var e := [METADATA] + rest;
    var d := [MESSAGE_TIME + m.createdAt] + e;
    var c := [MESSAGE_ROLE + m.role] + d;
    var b := [MESSAGE_ID + m.id] + c;
    assert e[1..] == rest && JsonRunsOut(e, s, j);
    NoMarkersBefore(a, [marker] + b, s, j);
    OpenBehind(a, [marker] + b, s, j);
    assert ([marker] + b)[1..] == b;
    ReadField(MESSAGE_ID + m.id, c, Blank(j), s, j);
    var m1 := Blank(j).(id := m.id);
    ReadField(MESSAGE_ROLE + m.role, d, m1, s, j);
    var m2 := m1.(role := m.role);
    ReadField(MESSAGE_TIME + m.createdAt, e, m2, s, j);
    OpenJsonEnds(e, m2.(createdAt := m.createdAt), s, j);
    EndsBehindField(MESSAGE_ID + m.id, c, s, j);
    EndsBehindField(MESSAGE_ROLE + m.role, d, s, j);
    EndsBehindField(MESSAGE_TIME + m.createdAt, e, s, j);
  }

  lemma NeverParses(x: string, ls: seq<string>, j: Codec)
    requires forall rest: seq<string> :: j.loads(JoinNewlines([x] + rest)).None?
    ensures ShortestJson([x] + ls, 1, j) > |[x] + ls|
  {
    forall n | 1 <= n <= |[x] + ls| ensures j.loads(JoinNewlines(([x] + ls)[..n])).None? {
      assert ([x] + ls)[..n] == [x] + ls[..n - 1];
    }
  }

  lemma CopiedMessageIsFound(r: Report, m: Message, j: Codec)
    requires HeaderOk(r) && Sound(m) && m.role != "" && r.description == JoinNewlines(CopiedMessage(m))
    requires forall rest: seq<string> :: j.loads(JoinNewlines(["x"] + rest)).None?
    ensures Found(r, j) == [m.(metadata := j.empty, content := "")] && Open(r, j)
  {
    HeaderIsSingle(r);
    CopiedLinesAreSingle(m);
    FrameOfLines(r, CopiedMessage(m));
    HeaderHasNoMarkers(r);
    SoundKeysFit(m);
    MarkerLineKey();
    NeverParses("x", Between(r), j);
    SixAndMore(MarkerLine(1), MESSAGE_ID + m.id, MESSAGE_ROLE + m.role, MESSAGE_TIME + m.createdAt, METADATA, "x",
      Between(r));
    OpenMessageReads(HeaderLines(r), MarkerLine(1), m, ["x"] + Between(r), ReportScanner(), j);
  }

  /** A report can come back although its description is read as a message, as a copy of its conversation. */
  lemma CopiedReportComesBack(r: Report, m: Message, j: Codec)
    requires IsJson(j) && HeaderOk(r) && r.context != []
    requires Sound(m) && m.role != "" && m.content == "" && m.metadata == j.empty && r.messages == [m]
    requires r.description == JoinNewlines(CopiedMessage(m))
    requires forall rest: seq<string> :: j.loads(JoinNewlines(["x"] + rest)).None?
    ensures Found(r, j) != [] && ComesBack(r, j)
  {
    HeaderIsSingle(r);
    CopiedMessageIsOk(m);
    CopiedMessageIsFound(r, m, j);
    assert AllObjects(r.messages, j) && Copied(r, j);
    ReportRoundTrips(r, j);
  }
}

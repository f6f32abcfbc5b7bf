/** Printing the conversation of an issue report and parsing it: when the messages come back. */
module ReportRoundTrip {
  import opened Seqs
  import opened Text
  import opened ReportLines
  import opened ReportText
  import opened ReportMessages

  // ----- one message -----

  /** What the parser relies on to tell lines apart. */
  ghost predicate Laws(s: Scanner) {
    && (forall l :: s.key(l) == Marker ==> s.stop(l))
    && (forall l :: s.stop(l) ==> l != "" && (s.key(l) == Marker || s.key(l) == Other))
    && s.key("") == Other
  }

  predicate Fits(m: Message, s: Scanner) {
    Sound(m) && m.role != "" && forall l :: l in SplitNewlines(m.content) ==> !s.stop(l)
  }

  /** The printed metadata breaks only at newlines. */
  predicate Legible(m: Message, j: Codec) { Clean(MetadataText(m.metadata, j)) }

  /** The lines read from printed metadata. */
  function MetadataRows(m: Message, j: Codec): seq<string> { SplitLines(MetadataText(m.metadata, j) + "\n") }

  /** The metadata prints as JSON that parses to it, and no beginning of its lines parses. */
  predicate MetadataPrints(m: Message, j: Codec) {
    var ls := SplitNewlines(MetadataText(m.metadata, j));
    && Legible(m, j)
    && j.loads(MetadataText(m.metadata, j)) == Some(m.metadata)
    && j.isObject(m.metadata)
    && forall n :: 0 < n < |ls| ==> j.loads(JoinNewlines(ls[..n])).None?
  }

  /** JSON whose lines break elsewhere parses no more once it is broken at newlines, whatever follows. */
  ghost predicate MetadataBreaks(m: Message, j: Codec) {
    && !Legible(m, j)
    && forall rest, n :: 0 < n <= |MetadataRows(m, j) + rest| ==>
      j.loads(JoinNewlines((MetadataRows(m, j) + rest)[..n])).None?
  }

  /** JSON has no line that begins a message. */
  ghost predicate JsonHasNoMarker(s: Scanner, j: Codec) {
    forall ls: seq<string>, i :: 0 <= i < |ls| && s.key(ls[i]) == Marker ==> j.loads(JoinNewlines(ls)).None?
  }

  lemma MetadataReads(m: Message, rest: seq<string>, j: Codec)
    requires MetadataPrints(m, j)
    ensures var ls := MetadataRows(m, j);
      JsonLength(ls + rest, j) == |ls| && JsonValue(ls + rest, j) == m.metadata
  {
    var ls := MetadataRows(m, j);
    CleanRows(MetadataText(m.metadata, j));
    JoinSplit(MetadataText(m.metadata, j));
    assert (ls + rest)[..|ls|] == ls;
    assert forall n :: 0 < n < |ls| ==> (ls + rest)[..n] == ls[..n];
    var k := ShortestJson(ls + rest, 1, j);
    assert k <= |ls|;
    assert k == |ls|;
  }

  /** The lines of a message up to its content. */
  function HeadRows(m: Message, j: Codec): seq<string> {
    [MESSAGE_ID + m.id] + ([MESSAGE_ROLE + m.role] + ([MESSAGE_TIME + m.createdAt] + ([METADATA]
      + (MetadataRows(m, j) + [CONTENT]))))
  }

  ghost predicate KeysFit(m: Message, s: Scanner) {
    && s.key(MESSAGE_ID + m.id) == Id(m.id)
    && s.key(MESSAGE_ROLE + m.role) == Role(m.role)
    && s.key(MESSAGE_TIME + m.createdAt) == Time(m.createdAt)
    && s.key(METADATA) == Metadata
    && s.key(CONTENT) == Content
  }

  lemma ReadField(l: string, rest: seq<string>, m: Message, s: Scanner, j: Codec)
    requires s.key(l).Id? || s.key(l).Role? || s.key(l).Time?
    ensures ReadMessage([l] + rest, m, s, j) == ReadMessage(rest, match s.key(l) {
      case Id(v) => m.(id := v)
      case Role(v) => m.(role := v)
      case Time(v) => m.(createdAt := v)
      case _ => m
    }, s, j)
  {
    assert ([l] + rest)[1..] == rest;
  }

  lemma ReadMetadata(m: Message, l: string, rest: seq<string>, before: Message, s: Scanner, j: Codec)
    requires s.key(l) == Metadata && MetadataPrints(m, j)
    ensures ReadMessage([l] + (MetadataRows(m, j) + rest), before, s, j)
      == ReadMessage(rest, before.(metadata := m.metadata), s, j)
  {
    var ls := MetadataRows(m, j);
    MetadataReads(m, rest, j);
    assert ([l] + (ls + rest))[1..] == ls + rest && (ls + rest)[|ls|..] == rest;
  }

  lemma ReadContent(l: string, ls: seq<string>, n: nat, m: Message, s: Scanner, j: Codec)
    requires s.key(l) == Content && |Before(ls, s.stop)| == n
    ensures ReadMessage([l] + ls, m, s, j) == ReadMessage(ls[n..], m.(content := Strip(JoinNewlines(ls[..n]))), s, j)
  {
    var all, lines := [l] + ls, Before(ls, s.stop);
    assert all[1..] == ls && lines == ls[..n];
    assert Field(all, m, s, j) == Read(m.(content := Strip(JoinNewlines(lines))), ls[n..]);
  }

  /** The head of a message gives its fields. */
  lemma HeadReads(m: Message, ls: seq<string>, n: nat, s: Scanner, j: Codec)
    requires KeysFit(m, s) && MetadataPrints(m, j) && |Before(ls, s.stop)| == n
    ensures ReadMessage(HeadRows(m, j) + ls, Blank(j), s, j)
      == ReadMessage(ls[n..], m.(content := Strip(JoinNewlines(ls[..n]))), s, j)
  {
    var e := [CONTENT] + ls;
    var d := [METADATA] + (MetadataRows(m, j) + e);
    var c := [MESSAGE_TIME + m.createdAt] + d;
    var b := [MESSAGE_ROLE + m.role] + c;
    assert HeadRows(m, j) + ls == [MESSAGE_ID + m.id] + b;
    ReadField(MESSAGE_ID + m.id, b, Blank(j), s, j);
    var m1 := Blank(j).(id := m.id);
    ReadField(MESSAGE_ROLE + m.role, c, m1, s, j);
    var m2 := m1.(role := m.role);
    ReadField(MESSAGE_TIME + m.createdAt, d, m2, s, j);
    var m3 := m2.(createdAt := m.createdAt);
    ReadMetadata(m, METADATA, e, m3, s, j);
    ReadContent(CONTENT, ls, n, m3.(metadata := m.metadata), s, j);
  }

  // ----- what stands behind a message -----

  predicate NoFields(ls: seq<string>, s: Scanner) { forall l :: l in ls ==> s.key(l) == Other }

  /** An empty line, then the next marker or a guide without fields. */
  predicate IsTail(t: seq<string>, s: Scanner) {
    |t| > 1 && t[0] == "" && s.stop(t[1]) && (s.key(t[1]) == Marker || NoFields(t, s))
  }

  /** What reading on from within a message yields. */
  function Onward(ls: seq<string>, m: Message, s: Scanner, j: Codec): seq<Message> {
    var r := ReadMessage(ls, m, s, j);
    Kept(r.message) + Messages(r.rest, s, j)
  }

  lemma {:induction false} NoFieldsRead(ls: seq<string>, m: Message, s: Scanner, j: Codec)
    requires NoFields(ls, s)
    ensures ReadMessage(ls, m, s, j) == Read(m, []) && Messages(ls, s, j) == []
  {
    if ls != [] {
      assert ls[0] in ls;
      NoFieldsRead(ls[1..], m, s, j);
    }
  }

  /** At the tail a message ends, and reading goes on with what the tail holds. */
  lemma TailEnds(t: seq<string>, q: nat, m: Message, s: Scanner, j: Codec)
    requires Laws(s) && IsTail(t, s) && q <= 1
    ensures Onward(t[q..], m, s, j) == Kept(m) + Messages(t, s, j)
  {
    assert t[0..] == t && t[1..][0] == t[1];
    if s.key(t[1]) == Marker {
      assert ReadMessage(t[1..], m, s, j) == Read(m, t[1..]);
    } else {
      assert forall l :: l in t[q..] ==> l in t;
      NoFieldsRead(t[q..], m, s, j);
      NoFieldsRead(t, m, s, j);
    }
  }

  lemma {:induction false} NoMarkersBefore(a: seq<string>, b: seq<string>, s: Scanner, j: Codec)
    requires forall l :: l in a ==> s.key(l) != Marker
    ensures Messages(a + b, s, j) == Messages(b, s, j)
  {
    if a == [] {
      assert a + b == b;
    } else {
      assert (a + b)[1..] == a[1..] + b;
      NoMarkersBefore(a[1..], b, s, j);
    }
  }

  // ----- a fitting message comes back -----

  lemma ContentReads(content: string, t: seq<string>, s: Scanner)
    requires Laws(s) && IsTail(t, s) && Trimmed(content) && forall l :: l in SplitNewlines(content) ==> !s.stop(l)
    ensures var ls := SplitNewlines(content);
      Before(ls + t, s.stop) == ls + [""] && Strip(JoinNewlines(ls + [""])) == content
  {
    var ls := SplitNewlines(content);
    assert ls + t == (ls + [""]) + t[1..];
    StopAt(ls + [""], t[1..], s.stop);
    JoinNewlinesAppend(ls, [""]);
    JoinSplit(content);
    assert content + "\n" + "" == content + "\n";
    StripSpace(content, '\n');
    StripTrims(content);
  }

  lemma HeadOnward(m: Message, ls: seq<string>, n: nat, s: Scanner, j: Codec)
    requires KeysFit(m, s) && MetadataPrints(m, j) && |Before(ls, s.stop)| == n
    ensures Onward(HeadRows(m, j) + ls, Blank(j), s, j)
      == Onward(ls[n..], m.(content := Strip(JoinNewlines(ls[..n]))), s, j)
  {
    HeadReads(m, ls, n, s, j);
  }

  lemma PastTheContent(ls: seq<string>, t: seq<string>)
    requires |t| > 1 && t[0] == ""
    ensures (ls + t)[..|ls| + 1] == ls + [""] && (ls + t)[|ls| + 1..] == t[1..]
  {
  }

  lemma FittingContent(m: Message, ls: seq<string>, t: seq<string>, s: Scanner, j: Codec)
    requires Laws(s) && IsTail(t, s) && KeysFit(m, s) && MetadataPrints(m, j)
    requires Before(ls + t, s.stop) == ls + [""] && Strip(JoinNewlines(ls + [""])) == m.content
    ensures Onward(HeadRows(m, j) + (ls + t), Blank(j), s, j) == Kept(m) + Messages(t, s, j)
  {
    HeadOnward(m, ls + t, |ls| + 1, s, j);
    PastTheContent(ls, t);
    TailEnds(t, 1, m, s, j);
  }

  lemma FittingMessage(m: Message, t: seq<string>, s: Scanner, j: Codec)
    requires Laws(s) && IsTail(t, s) && KeysFit(m, s) && MetadataPrints(m, j) && Fits(m, s)
    ensures Onward(HeadRows(m, j) + (SplitNewlines(m.content) + t), Blank(j), s, j) == [m] + Messages(t, s, j)
  {
    ContentReads(m.content, t, s);
    FittingContent(m, SplitNewlines(m.content), t, s, j);
  }

  // ----- weight: content read never exceeds content printed -----

  function Weight(ms: seq<Message>): nat { if ms == [] then 0 else |ms[0].content| + Weight(ms[1..]) }

  lemma {:induction false} WeightAppend(a: seq<Message>, b: seq<Message>)
    ensures Weight(a + b) == Weight(a) + Weight(b)
  {
    if a == [] {
      assert a + b == b;
    } else {
      assert (a + b)[1..] == a[1..] + b;
      WeightAppend(a[1..], b);
    }
  }

  lemma KeptWeight(m: Message, ms: seq<Message>)
    ensures Weight(Kept(m) + ms) <= |m.content| + Weight(ms)
  {
    WeightAppend(Kept(m), ms);
    assert Weight([m]) == |m.content| + Weight([m][1..]) && [m][1..] == [];
  }

  /** Two parts of a list of lines weigh no more than the whole. */
  lemma {:induction false} PartsWeigh(ls: seq<string>, m: nat, n: nat)
    requires m <= n <= |ls|
    ensures |JoinNewlines(ls[..m])| + |JoinNewlines(ls[n..])| <= |JoinNewlines(ls)|
    ensures m < n && ls[m] != "" ==> |JoinNewlines(ls[..m])| + |JoinNewlines(ls[n..])| < |JoinNewlines(ls)|
  {
    if n > 0 {
      var rest := ls[1..];
      assert ls[n..] == rest[n - 1..];
      if m > 0 {
        assert ls[..m][1..] == rest[..m - 1] && ls[..m][0] == ls[0];
        PartsWeigh(rest, m - 1, n - 1);
      } else {
        PartsWeigh(rest, 0, n - 1);
      }
    } else {
      assert ls[0..] == ls;
    }
  }

  /** The content block that runs to the end of a message's lines. */
  lemma LastContentWeighs(ls: seq<string>)
    ensures |Strip(JoinNewlines(ls + [""]))| <= |JoinNewlines(ls)|
  {
    if ls == [] {
      assert ls + [""] == [""];
      StripTrims("");
    } else {
      JoinNewlinesAppend(ls, [""]);
      assert JoinNewlines(ls) + "\n" + "" == JoinNewlines(ls) + "\n";
      StripSpace(JoinNewlines(ls), '\n');
      StripTrims(JoinNewlines(ls));
    }
  }

  /** The weight of what reading on from within a message yields. */
  function Heft(s: Scanner, j: Codec): (seq<string>, Message) -> nat { (ls, m) => Weight(Onward(ls, m, s, j)) }

  lemma LightTail(t: seq<string>, q: nat, m: Message, s: Scanner, j: Codec)
    requires Laws(s) && IsTail(t, s) && q <= 1
    ensures Weight(Onward(t[q..], m, s, j)) <= |m.content| + Weight(Messages(t, s, j))
  {
    TailEnds(t, q, m, s, j);
    KeptWeight(m, Messages(t, s, j));
  }

  lemma LightEnd(m: Message, s: Scanner, j: Codec)
    ensures Weight(Onward([], m, s, j)) <= |m.content|
  {
    KeptWeight(m, []);
  }

  lemma JsonPastAMarker(all: seq<string>, i: nat, s: Scanner, j: Codec)
    requires JsonHasNoMarker(s, j) && i < |all| && s.key(all[i]) == Marker
    ensures i < JsonLength(all, j) ==> JsonLength(all, j) == |all|
  {
    forall k | i < k <= |all| ensures j.loads(JoinNewlines(all[..k])).None? {
      assert all[..k][i] == all[i];
    }
  }

  /** A JSON block that runs past the lines of its message swallows all the rest. */
  lemma LongMetadata(ls: seq<string>, t: seq<string>, m: Message, s: Scanner, j: Codec)
    requires Laws(s) && IsTail(t, s) && JsonHasNoMarker(s, j)
    requires JsonLength(ls + t, j) > |ls|
    ensures Weight(Onward((ls + t)[JsonLength(ls + t, j)..], m, s, j)) <= |m.content| + Weight(Messages(t, s, j))
  {
    var all, n := ls + t, JsonLength(ls + t, j);
    var q := n - |ls|;
    assert all[n..] == t[q..] && all[|ls| + 1] == t[1];
    if s.key(t[1]) == Marker {
      JsonPastAMarker(all, |ls| + 1, s, j);
    }
    if q == 1 {
      LightTail(t, 1, m, s, j);
    } else if n == |all| {
      LightEnd(m, s, j);
      assert all[n..] == [];
    } else {
      assert forall l :: l in t[q..] ==> l in t;
      NoFieldsRead(t[q..], m, s, j);
      KeptWeight(m, []);
    }
  }

  lemma BeforeEndsAtTheTail(ls: seq<string>, t: seq<string>, s: Scanner)
    requires Laws(s) && IsTail(t, s)
    ensures |Before(ls + t, s.stop)| <= |ls| + 1
  {
    var kept := Before(ls + t, s.stop);
    assert forall i :: 0 <= i < |kept| ==> kept[i] in kept && kept[i] == (ls + t)[i];
    assert (ls + t)[|ls| + 1] == t[1];
  }

  lemma LongContent(ls: seq<string>, t: seq<string>, next: Message, s: Scanner, j: Codec)
    requires Laws(s) && IsTail(t, s) && next.content == Strip(JoinNewlines((ls + t)[..|ls| + 1]))
    ensures Weight(Onward((ls + t)[|ls| + 1..], next, s, j)) <= |JoinNewlines(ls)| + Weight(Messages(t, s, j))
  {
    PastTheContent(ls, t);
    LastContentWeighs(ls);
    LightTail(t, 1, next, s, j);
  }

  /** From `[l] + ls` on, either little enough follows, or reading goes on with fewer lines and the content paid for. */
  ghost predicate Pays(
    w: (seq<string>, Message) -> nat, l: string, ls: seq<string>, t: seq<string>, m: Message, base: nat)
  {
    || w([l] + (ls + t), m) <= |m.content| + |JoinNewlines(ls)| + base
    || exists n: nat, next, extra: nat ::
      n <= |ls| && w([l] + (ls + t), m) <= extra + w(ls[n..] + t, next) && Covered(m, next, extra, ls, n)
  }

  predicate Covered(m: Message, next: Message, extra: nat, ls: seq<string>, n: nat)
    requires n <= |ls|
  {
    extra + |next.content| <= |m.content| + |JoinNewlines(ls[..n])|
  }

  /** Whatever stands in the lines of a message, the content read from them is no longer than they are. */
  lemma {:induction false} LinesAreLight(
    w: (seq<string>, Message) -> nat, ls: seq<string>, t: seq<string>, m: Message, base: nat)
    requires forall l, rest, n :: Pays(w, l, rest, t, n, base)
    requires forall n :: w(t, n) <= |n.content| + base
    ensures w(ls + t, m) <= |m.content| + |JoinNewlines(ls)| + base
    decreases |ls|
  {
    if ls == [] {
      assert ls + t == t;
    } else {
      var l, rest := ls[0], ls[1..];
      assert ls + t == [l] + (rest + t) && ls == [l] + rest;
      assert Pays(w, l, rest, t, m, base);
      FirstWeighs(l, rest);
      if w(ls + t, m) > |m.content| + |JoinNewlines(rest)| + base {
        var n: nat, next, extra: nat :|
          n <= |rest| && w([l] + (rest + t), m) <= extra + w(rest[n..] + t, next) && Covered(m, next, extra, rest, n);
        LinesAreLight(w, rest[n..], t, next, base);
        PartsWeigh(rest, n, n);
      }
    }
  }

  lemma FirstWeighs(l: string, ls: seq<string>)
    ensures |JoinNewlines(ls)| <= |JoinNewlines([l] + ls)|
  {
    assert ([l] + ls)[1..] == ls;
  }

  lemma PaysBy(
    w: (seq<string>, Message) -> nat, l: string, ls: seq<string>, t: seq<string>, m: Message, base: nat, n: nat,
    next: Message, extra: nat)
    requires n <= |ls| && w([l] + (ls + t), m) <= extra + w(ls[n..] + t, next) && Covered(m, next, extra, ls, n)
    ensures Pays(w, l, ls, t, m, base)
  {
  }

  lemma MarkerOnward(l: string, ls: seq<string>, m: Message, s: Scanner, j: Codec)
    requires s.key(l) == Marker
    ensures Onward([l] + ls, m, s, j) == Kept(m) + Onward(ls, Blank(j), s, j)
  {
    assert ([l] + ls)[1..] == ls;
  }

  lemma MarkerPays(l: string, ls: seq<string>, t: seq<string>, m: Message, base: nat, s: Scanner, j: Codec)
    requires s.key(l) == Marker
    ensures Pays(Heft(s, j), l, ls, t, m, base)
  {
    MarkerOnward(l, ls + t, m, s, j);
    KeptWeight(m, Onward(ls + t, Blank(j), s, j));
    assert ls[0..] == ls;
    PaysBy(Heft(s, j), l, ls, t, m, base, 0, Blank(j), |m.content|);
  }

  lemma FieldPays(l: string, ls: seq<string>, t: seq<string>, m: Message, base: nat, s: Scanner, j: Codec)
    requires s.key(l) !in {Marker, Metadata, Content}
    ensures Pays(Heft(s, j), l, ls, t, m, base)
  {
    var all := [l] + (ls + t);
    assert all[1..] == ls + t && ls[0..] == ls;
    var next := Field(all, m, s, j).message;
    assert Onward(all, m, s, j) == Onward(ls + t, next, s, j);
    PaysBy(Heft(s, j), l, ls, t, m, base, 0, next, 0);
  }

  lemma MetadataPays(l: string, ls: seq<string>, t: seq<string>, m: Message, s: Scanner, j: Codec)
    requires Laws(s) && IsTail(t, s) && JsonHasNoMarker(s, j) && s.key(l) == Metadata
    ensures Pays(Heft(s, j), l, ls, t, m, Weight(Messages(t, s, j)))
  {
    var all := [l] + (ls + t);
    var n, next := JsonLength(ls + t, j), m.(metadata := JsonValue(ls + t, j));
    assert all[1..] == ls + t;
    assert Onward(all, m, s, j) == Onward((ls + t)[n..], next, s, j);
    if n <= |ls| {
      assert (ls + t)[n..] == ls[n..] + t;
      PaysBy(Heft(s, j), l, ls, t, m, Weight(Messages(t, s, j)), n, next, 0);
    } else {
      LongMetadata(ls, t, next, s, j);
    }
  }

  lemma ContentNext(l: string, ls: seq<string>, m: Message, next: Message, n: nat, s: Scanner, j: Codec)
    requires s.key(l) == Content && n == |Before(ls, s.stop)| && next == m.(content := Strip(JoinNewlines(ls[..n])))
    ensures Heft(s, j)([l] + ls, m) == Heft(s, j)(ls[n..], next)
  {
    ReadContent(l, ls, n, m, s, j);
    SameReading([l] + ls, m, ls[n..], next, s, j);
  }

  lemma SameReading(a: seq<string>, m: Message, b: seq<string>, n: Message, s: Scanner, j: Codec)
    requires ReadMessage(a, m, s, j) == ReadMessage(b, n, s, j)
    ensures Heft(s, j)(a, m) == Heft(s, j)(b, n)
  {
    assert Onward(a, m, s, j) == Onward(b, n, s, j);
  }

  lemma Within(ls: seq<string>, t: seq<string>, n: nat)
    requires n <= |ls|
    ensures (ls + t)[n..] == ls[n..] + t && (ls + t)[..n] == ls[..n]
  {
  }

  lemma CoveredByPrefix(m: Message, next: Message, ls: seq<string>, n: nat)
    requires n <= |ls| && next.content == Strip(JoinNewlines(ls[..n]))
    ensures Covered(m, next, 0, ls, n)
  {
    StripTrims(JoinNewlines(ls[..n]));
  }

  lemma ShortContentPays(
    l: string, ls: seq<string>, t: seq<string>, m: Message, next: Message, n: nat, base: nat, s: Scanner, j: Codec)
    requires n <= |ls| && next.content == Strip(JoinNewlines((ls + t)[..n]))
    requires Heft(s, j)([l] + (ls + t), m) == Heft(s, j)((ls + t)[n..], next)
    ensures Pays(Heft(s, j), l, ls, t, m, base)
  {
    Within(ls, t, n);
    CoveredByPrefix(m, next, ls, n);
    PaysBy(Heft(s, j), l, ls, t, m, base, n, next, 0);
  }

  lemma LongContentPays(l: string, ls: seq<string>, t: seq<string>, m: Message, next: Message, s: Scanner, j: Codec)
    requires Laws(s) && IsTail(t, s) && next.content == Strip(JoinNewlines((ls + t)[..|ls| + 1]))
    requires Heft(s, j)([l] + (ls + t), m) == Heft(s, j)((ls + t)[|ls| + 1..], next)
    ensures Pays(Heft(s, j), l, ls, t, m, Weight(Messages(t, s, j)))
  {
    LongContent(ls, t, next, s, j);
  }

  lemma ContentPays(l: string, ls: seq<string>, t: seq<string>, m: Message, n: nat, s: Scanner, j: Codec)
    requires Laws(s) && IsTail(t, s) && s.key(l) == Content && n == |Before(ls + t, s.stop)| && n <= |ls| + 1
    ensures Pays(Heft(s, j), l, ls, t, m, Weight(Messages(t, s, j)))
  {
    var next := m.(content := Strip(JoinNewlines((ls + t)[..n])));
    ContentNext(l, ls + t, m, next, n, s, j);
    if n <= |ls| {
      ShortContentPays(l, ls, t, m, next, n, Weight(Messages(t, s, j)), s, j);
    } else {
      LongContentPays(l, ls, t, m, next, s, j);
    }
  }

  lemma LineBehind(l: string, ls: seq<string>, t: seq<string>, m: Message, s: Scanner, j: Codec)
    requires Laws(s) && IsTail(t, s) && JsonHasNoMarker(s, j)
    ensures Pays(Heft(s, j), l, ls, t, m, Weight(Messages(t, s, j)))
  {
    if s.key(l) == Marker {
      MarkerPays(l, ls, t, m, Weight(Messages(t, s, j)), s, j);
    } else if s.key(l) == Metadata {
      MetadataPays(l, ls, t, m, s, j);
    } else if s.key(l) == Content {
      BeforeEndsAtTheTail(ls, t, s);
      ContentPays(l, ls, t, m, |Before(ls + t, s.stop)|, s, j);
    } else {
      FieldPays(l, ls, t, m, Weight(Messages(t, s, j)), s, j);
    }
  }

  lemma RegionIsLight(ls: seq<string>, t: seq<string>, m: Message, s: Scanner, j: Codec)
    requires Laws(s) && IsTail(t, s) && JsonHasNoMarker(s, j)
    ensures Heft(s, j)(ls + t, m) <= |m.content| + |JoinNewlines(ls)| + Weight(Messages(t, s, j))
  {
    var w, base := Heft(s, j), Weight(Messages(t, s, j));
    forall l, rest, n ensures Pays(w, l, rest, t, n, base) {
      LineBehind(l, rest, t, n, s, j);
    }
    forall n ensures w(t, n) <= |n.content| + base {
      LightTail(t, 0, n, s, j);
      assert t[0..] == t;
    }
    LinesAreLight(w, ls, t, m, base);
  }

  lemma OtherOnward(l: string, ls: seq<string>, m: Message, s: Scanner, j: Codec)
    requires s.key(l) == Other
    ensures Onward([l] + ls, m, s, j) == Onward(ls, m, s, j)
  {
    assert ([l] + ls)[1..] == ls;
  }

  lemma StopIsLight(l: string, ls: seq<string>, t: seq<string>, m: Message, s: Scanner, j: Codec)
    requires Laws(s) && IsTail(t, s) && JsonHasNoMarker(s, j) && s.stop(l)
    ensures Weight(Onward([l] + (ls + t), m, s, j)) <= |m.content| + |JoinNewlines(ls)| + Weight(Messages(t, s, j))
  {
    if s.key(l) == Marker {
      MarkerOnward(l, ls + t, m, s, j);
      RegionIsLight(ls, t, Blank(j), s, j);
      KeptWeight(m, Onward(ls + t, Blank(j), s, j));
    } else {
      OtherOnward(l, ls + t, m, s, j);
      RegionIsLight(ls, t, m, s, j);
    }
  }

  lemma StopSplits(ls: seq<string>, t: seq<string>, n: nat)
    requires n < |ls|
    ensures (ls + t)[..n] == ls[..n] && (ls + t)[n..] == [ls[n]] + (ls[n + 1..] + t)
  {
  }

  /** A message whose content holds a stop line loses weight. */
  lemma CutMessage(m: Message, k: nat, t: seq<string>, s: Scanner, j: Codec)
    requires Laws(s) && IsTail(t, s) && JsonHasNoMarker(s, j) && KeysFit(m, s) && MetadataPrints(m, j)
    requires k < |SplitNewlines(m.content)| && s.stop(SplitNewlines(m.content)[k])
    ensures Weight(Onward(HeadRows(m, j) + (SplitNewlines(m.content) + t), Blank(j), s, j))
      < |m.content| + Weight(Messages(t, s, j))
  {
    var ls := SplitNewlines(m.content);
    var n := StopWithin(ls, t, k, s.stop);
    HeadOnward(m, ls + t, n, s, j);
    StopSplits(ls, t, n);
    CutIsLight(ls, n, t, m, s, j);
    JoinSplit(m.content);
  }

  lemma CutIsLight(ls: seq<string>, n: nat, t: seq<string>, m: Message, s: Scanner, j: Codec)
    requires Laws(s) && IsTail(t, s) && JsonHasNoMarker(s, j) && n < |ls| && s.stop(ls[n])
    ensures Weight(Onward([ls[n]] + (ls[n + 1..] + t), m.(content := Strip(JoinNewlines(ls[..n]))), s, j))
      < |JoinNewlines(ls)| + Weight(Messages(t, s, j))
  {
    StripTrims(JoinNewlines(ls[..n]));
    PartsWeigh(ls, n, n + 1);
    StopIsLight(ls[n], ls[n + 1..], t, m.(content := Strip(JoinNewlines(ls[..n]))), s, j);
  }

  // ----- the conversation -----

  /** The lines of a message. */
  function Block(m: Message, index: nat, j: Codec): seq<string> {
    ["", MarkerLine(index)] + (HeadRows(m, j) + SplitNewlines(m.content))
  }

  /** The lines of a conversation with the guide behind it. */
  function Talk(ms: seq<Message>, index: nat, guide: seq<string>, j: Codec): seq<string> {
    if ms == [] then guide else Block(ms[0], index, j) + Talk(ms[1..], index + 1, guide, j)
  }

  ghost predicate IsGuide(guide: seq<string>, s: Scanner) { IsTail(guide, s) && NoFields(guide, s) }

  ghost predicate MarkersFit(s: Scanner) { forall i: nat :: s.key(MarkerLine(i)) == Marker }

  lemma TalkIsTail(ms: seq<Message>, index: nat, guide: seq<string>, s: Scanner, j: Codec)
    requires Laws(s) && IsGuide(guide, s) && MarkersFit(s)
    ensures IsTail(Talk(ms, index, guide, j), s)
  {
    if ms != [] {
      var t := Talk(ms, index, guide, j);
      assert t[0] == "" && t[1] == MarkerLine(index);
    }
  }

  lemma BlockReads(m: Message, index: nat, t: seq<string>, s: Scanner, j: Codec)
    requires Laws(s) && MarkersFit(s)
    ensures Messages(Block(m, index, j) + t, s, j)
      == Onward(HeadRows(m, j) + (SplitNewlines(m.content) + t), Blank(j), s, j)
  {
    var rest := HeadRows(m, j) + (SplitNewlines(m.content) + t);
    var all := Block(m, index, j) + t;
    assert all == [""] + ([MarkerLine(index)] + rest);
    assert all[1..] == [MarkerLine(index)] + rest && all[1..][1..] == rest;
  }

  /** What must hold of a message before it is printed, whatever its texts are. */
  ghost predicate Printable(m: Message, s: Scanner, j: Codec) {
    (MetadataPrints(m, j) || (MetadataBreaks(m, j) && m.metadata != j.empty)) && (Sound(m) ==> KeysFit(m, s))
  }

  ghost predicate AllPrintable(ms: seq<Message>, s: Scanner, j: Codec) { forall m :: m in ms ==> Printable(m, s, j) }

  predicate AllFit(ms: seq<Message>, s: Scanner, j: Codec) { forall m :: m in ms ==> Fits(m, s) && Legible(m, j) }

  predicate AllSound(ms: seq<Message>) { forall m :: m in ms ==> Sound(m) && m.role != "" }

  /** Messages that fit are read back. */
  lemma {:induction false} FittingTalk(ms: seq<Message>, index: nat, guide: seq<string>, s: Scanner, j: Codec)
    requires Laws(s) && IsGuide(guide, s) && MarkersFit(s) && AllPrintable(ms, s, j) && AllFit(ms, s, j)
    ensures Messages(Talk(ms, index, guide, j), s, j) == ms
    decreases |ms|
  {
    if ms == [] {
      NoFieldsRead(guide, Blank(j), s, j);
    } else {
      assert ms == [ms[0]] + ms[1..] && ms[0] in ms && Printable(ms[0], s, j);
      FittingTalk(ms[1..], index + 1, guide, s, j);
      FirstFits(ms, index, guide, s, j);
    }
  }

  lemma FirstFits(ms: seq<Message>, index: nat, guide: seq<string>, s: Scanner, j: Codec)
    requires Laws(s) && IsGuide(guide, s) && MarkersFit(s) && ms != [] && Printable(ms[0], s, j) && Fits(ms[0], s)
    requires Legible(ms[0], j)
    ensures Messages(Talk(ms, index, guide, j), s, j) == [ms[0]] + Messages(Talk(ms[1..], index + 1, guide, j), s, j)
  {
    TalkIsTail(ms[1..], index + 1, guide, s, j);
    BlockReads(ms[0], index, Talk(ms[1..], index + 1, guide, j), s, j);
    FittingMessage(ms[0], Talk(ms[1..], index + 1, guide, j), s, j);
  }

  /** The messages that do not fit, up to the first whose metadata is illegible. */
  function Misfits(ms: seq<Message>, s: Scanner, j: Codec): nat {
    if ms == [] || !Legible(ms[0], j) then 0 else (if Fits(ms[0], s) then 0 else 1) + Misfits(ms[1..], s, j)
  }

  lemma BlockWeighs(m: Message, index: nat, t: seq<string>, s: Scanner, j: Codec)
    requires Laws(s) && IsTail(t, s) && MarkersFit(s) && JsonHasNoMarker(s, j) && Printable(m, s, j) && Legible(m, j)
    requires Sound(m) && m.role != ""
    ensures Weight(Messages(Block(m, index, j) + t, s, j)) + (if Fits(m, s) then 0 else 1)
      <= |m.content| + Weight(Messages(t, s, j))
  {
    BlockReads(m, index, t, s, j);
    var ls := SplitNewlines(m.content);
    if Fits(m, s) {
      FittingMessage(m, t, s, j);
    } else {
      var l :| l in ls && s.stop(l);
      var k :| 0 <= k < |ls| && ls[k] == l;
      CutMessage(m, k, t, s, j);
    }
  }

  // ----- illegible metadata -----

  lemma BrokenJson(m: Message, rest: seq<string>, j: Codec)
    requires MetadataBreaks(m, j)
    ensures var all := MetadataRows(m, j) + rest; JsonLength(all, j) == |all| && JsonValue(all, j) == j.empty
  {
    var all := MetadataRows(m, j) + rest;
    assert ShortestJson(all, 1, j) > |all|;
  }

  lemma ReadBroken(m: Message, l: string, rest: seq<string>, before: Message, s: Scanner, j: Codec)
    requires s.key(l) == Metadata && MetadataBreaks(m, j)
    ensures ReadMessage([l] + (MetadataRows(m, j) + rest), before, s, j) == Read(before.(metadata := j.empty), [])
  {
    var all := MetadataRows(m, j) + rest;
    BrokenJson(m, rest, j);
    assert ([l] + all)[1..] == all && all[|all|..] == [];
    assert ReadMessage([], before.(metadata := j.empty), s, j) == Read(before.(metadata := j.empty), []);
  }

  /** Its JSON block swallows all that follows. */
  lemma BrokenReads(m: Message, ls: seq<string>, s: Scanner, j: Codec)
    requires KeysFit(m, s) && MetadataBreaks(m, j) && m.role != ""
    ensures Onward(HeadRows(m, j) + ls, Blank(j), s, j) == [m.(metadata := j.empty, content := "")]
  {
    var e := [CONTENT] + ls;
    var d := [METADATA] + (MetadataRows(m, j) + e);
    var c := [MESSAGE_TIME + m.createdAt] + d;
    var b := [MESSAGE_ROLE + m.role] + c;
    assert HeadRows(m, j) + ls == [MESSAGE_ID + m.id] + b;
    ReadField(MESSAGE_ID + m.id, b, Blank(j), s, j);
    var m1 := Blank(j).(id := m.id);
    ReadField(MESSAGE_ROLE + m.role, c, m1, s, j);
    var m2 := m1.(role := m.role);
    ReadField(MESSAGE_TIME + m.createdAt, d, m2, s, j);
    var m3 := m2.(createdAt := m.createdAt);
    ReadBroken(m, METADATA, e, m3, s, j);
  }

  lemma BrokenBlock(m: Message, index: nat, t: seq<string>, s: Scanner, j: Codec)
    requires Laws(s) && MarkersFit(s) && Printable(m, s, j) && !Legible(m, j) && Sound(m) && m.role != ""
    ensures Messages(Block(m, index, j) + t, s, j) == [m.(metadata := j.empty, content := "")]
  {
    BlockReads(m, index, t, s, j);
    BrokenReads(m, SplitNewlines(m.content) + t, s, j);
  }

  lemma BrokenBlockWeighs(m: Message)
    ensures Weight([m.(content := "")]) == 0
  {
    assert [m.(content := "")][1..] == [];
  }

  // ----- all messages -----

  /** Each message with a stop line in its content costs the conversation weight. */
  lemma {:induction false} TalkWeighs(ms: seq<Message>, index: nat, guide: seq<string>, s: Scanner, j: Codec)
    requires Laws(s) && IsGuide(guide, s) && MarkersFit(s) && JsonHasNoMarker(s, j) && AllPrintable(ms, s, j)
    requires AllSound(ms)
    ensures Weight(Messages(Talk(ms, index, guide, j), s, j)) + Misfits(ms, s, j) <= Weight(ms)
    decreases |ms|
  {
    if ms == [] {
      NoFieldsRead(guide, Blank(j), s, j);
    } else {
      assert ms == [ms[0]] + ms[1..] && ms[0] in ms && Printable(ms[0], s, j);
      var t := Talk(ms[1..], index + 1, guide, j);
      if Legible(ms[0], j) {
        TalkWeighs(ms[1..], index + 1, guide, s, j);
        TalkIsTail(ms[1..], index + 1, guide, s, j);
        BlockWeighs(ms[0], index, t, s, j);
      } else {
        BrokenBlock(ms[0], index, t, s, j);
        BrokenBlockWeighs(ms[0].(metadata := j.empty));
      }
    }
  }

  /** Where all messages before it fit, a message with illegible metadata comes back without it. */
  lemma {:induction false} IllegibleTalk(ms: seq<Message>, index: nat, guide: seq<string>, s: Scanner, j: Codec)
    requires Laws(s) && IsGuide(guide, s) && MarkersFit(s) && AllPrintable(ms, s, j) && AllSound(ms)
    requires Misfits(ms, s, j) == 0
    ensures Messages(Talk(ms, index, guide, j), s, j) == ms ==> AllFit(ms, s, j)
    decreases |ms|
  {
    if ms != [] {
      assert ms == [ms[0]] + ms[1..] && ms[0] in ms && Printable(ms[0], s, j);
      if Legible(ms[0], j) {
        FirstFits(ms, index, guide, s, j);
        IllegibleTalk(ms[1..], index + 1, guide, s, j);
        assert forall m :: m in ms ==> m == ms[0] || m in ms[1..];
      } else {
        BrokenBlock(ms[0], index, Talk(ms[1..], index + 1, guide, j), s, j);
      }
    }
  }

  /** Sound messages are read back exactly if none has a stop line in its content or illegible metadata. */
  lemma TalkRoundTrip(ms: seq<Message>, index: nat, guide: seq<string>, s: Scanner, j: Codec)
    requires Laws(s) && IsGuide(guide, s) && MarkersFit(s) && JsonHasNoMarker(s, j) && AllPrintable(ms, s, j)
    requires AllSound(ms)
    ensures Messages(Talk(ms, index, guide, j), s, j) == ms <==> AllFit(ms, s, j)
  {
    if Messages(Talk(ms, index, guide, j), s, j) == ms {
      TalkWeighs(ms, index, guide, s, j);
      IllegibleTalk(ms, index, guide, s, j);
    }
    if AllFit(ms, s, j) {
      FittingTalk(ms, index, guide, s, j);
    }
  }
}

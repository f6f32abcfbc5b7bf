/** Reading the conversation of a printed issue report back. */
module ReportMessages {
  import opened Seqs
  import opened Text
  import opened ReportLines
  import opened ReportText

  /** What a line means to the parser. */
  datatype Key = Marker | Id(value: string) | Role(value: string) | Time(value: string) | Metadata | Content | Other

  function KeyOf(l: string): Key {
    if MARKER <= l then Marker
    else if MESSAGE_ID <= l then Id(Strip(l[|MESSAGE_ID|..]))
    else if MESSAGE_ROLE <= l then Role(Strip(l[|MESSAGE_ROLE|..]))
    else if MESSAGE_TIME <= l then Time(Strip(l[|MESSAGE_TIME|..]))
    else if l == METADATA then Metadata
    else if l == CONTENT then Content
    else Other
  }

  /** Telling lines apart: their key, and whether they end a message's content. */
  datatype Scanner = Scanner(key: string -> Key, stop: string -> bool)

  function EndsContent(): string -> bool { (l: string) => KeyOf(l).Marker? || l == GUIDE }

  function ReportScanner(): Scanner { Scanner(KeyOf, EndsContent()) }

  // ----- the parser -----

  /** The length of the shortest beginning that parses, or one more than there are lines. */
  function ShortestJson(ls: seq<string>, n: nat, j: Codec): (k: nat)
    requires n <= |ls| + 1
    ensures n <= k <= |ls| + 1
    ensures k <= |ls| ==> j.loads(JoinNewlines(ls[..k])).Some?
    ensures forall i :: n <= i < k && i <= |ls| ==> j.loads(JoinNewlines(ls[..i])).None?
    decreases |ls| + 1 - n
  {
    if n > |ls| || j.loads(JoinNewlines(ls[..n])).Some? then n else ShortestJson(ls, n + 1, j)
  }

  function JsonLength(ls: seq<string>, j: Codec): (n: nat)
    ensures n <= |ls|
  {
    if ShortestJson(ls, 1, j) <= |ls| then ShortestJson(ls, 1, j) else |ls|
  }

  function JsonValue(ls: seq<string>, j: Codec): Json {
    var n := ShortestJson(ls, 1, j);
    if n > |ls| then j.empty
    else
      var value := j.loads(JoinNewlines(ls[..n])).value;
      if j.isObject(value) then value else j.empty
  }

  /** `_parse_json_block` */
  method ParseJsonBlock(ls: seq<string>, j: Codec) returns (value: Json, consumed: nat)
    ensures value == JsonValue(ls, j) && consumed == JsonLength(ls, j)
  {
    var collected: seq<string> := [];
    for offset := 0 to |ls|
      invariant collected == ls[..offset] && ShortestJson(ls, 1, j) == ShortestJson(ls, offset + 1, j)
    {
      collected := collected + [ls[offset]];
      assert collected == ls[..offset + 1];
      var parsed := j.loads(JoinNewlines(collected));
      if parsed.Some? {
        return if j.isObject(parsed.value) then parsed.value else j.empty, offset + 1;
      }
    }
    value, consumed := j.empty, |ls|;
  }

  datatype Read = Read(message: Message, rest: seq<string>)

  /** One line, or one block of lines, of a message. */
  function Field(ls: seq<string>, m: Message, s: Scanner, j: Codec): (r: Read)
    requires ls != [] && s.key(ls[0]) != Marker
    ensures |r.rest| < |ls|
  {
    match s.key(ls[0])
    case Id(v) => Read(m.(id := v), ls[1..])
    case Role(v) => Read(m.(role := v), ls[1..])
    case Time(v) => Read(m.(createdAt := v), ls[1..])
    case Metadata => Read(m.(metadata := JsonValue(ls[1..], j)), ls[1..][JsonLength(ls[1..], j)..])
    case Content =>
      var lines := Before(ls[1..], s.stop);
      Read(m.(content := Strip(JoinNewlines(lines))), ls[1..][|lines|..])
    case Other => Read(m, ls[1..])
  }

  /** The fields up to the next marker; a field not given stays as it is. */
  function ReadMessage(ls: seq<string>, m: Message, s: Scanner, j: Codec): (r: Read)
    ensures |r.rest| <= |ls|
    ensures r.rest != [] ==> s.key(r.rest[0]) == Marker
    decreases |ls|
  {
    if ls == [] || s.key(ls[0]) == Marker then Read(m, ls)
    else ReadMessage(Field(ls, m, s, j).rest, Field(ls, m, s, j).message, s, j)
  }

  function Blank(j: Codec): Message { Message("", "", "", j.empty, "") }

  function Kept(m: Message): seq<Message> { if m.role != "" then [m] else [] }

  /** All messages with a role. */
  function Messages(ls: seq<string>, s: Scanner, j: Codec): seq<Message>
    decreases |ls|
  {
    if ls == [] then []
    else if s.key(ls[0]) != Marker then Messages(ls[1..], s, j)
    else
      var r := ReadMessage(ls[1..], Blank(j), s, j);
      Kept(r.message) + Messages(r.rest, s, j)
  }

  method ParseField(ls: seq<string>, m: Message, s: Scanner, j: Codec) returns (message: Message, rest: seq<string>)
    requires ls != [] && s.key(ls[0]) != Marker
    ensures Read(message, rest) == Field(ls, m, s, j)
  {
    message, rest := m, ls[1..];
    match s.key(ls[0])
    case Id(v) => message := message.(id := v);
    case Role(v) => message := message.(role := v);
    case Time(v) => message := message.(createdAt := v);
    case Metadata =>
      var value, consumed := ParseJsonBlock(rest, j);
      message, rest := message.(metadata := value), rest[consumed..];
    case Content =>
      var lines := CollectBefore(rest, s.stop);
      message, rest := message.(content := Strip(JoinNewlines(lines))), rest[|lines|..];
    case Other =>
  }

  /** The inner loop of `_parse_conversation_messages` */
  method ParseMessage(ls: seq<string>, s: Scanner, j: Codec) returns (message: Message, rest: seq<string>)
    ensures Read(message, rest) == ReadMessage(ls, Blank(j), s, j)
  {
    message, rest := Blank(j), ls;
    while rest != [] && s.key(rest[0]) != Marker
      invariant ReadMessage(rest, message, s, j) == ReadMessage(ls, Blank(j), s, j)
      decreases |rest|
    {
      message, rest := ParseField(rest, message, s, j);
    }
  }

  lemma MessagesNext(before: seq<Message>, ls: seq<string>, s: Scanner, j: Codec)
    requires ls != [] && s.key(ls[0]) == Marker
    ensures var r := ReadMessage(ls[1..], Blank(j), s, j);
      before + Messages(ls, s, j) == (before + Kept(r.message)) + Messages(r.rest, s, j)
  {
  }

  /** The outer loop of `_parse_conversation_messages` */
  method ParseMessages(ls: seq<string>, s: Scanner, j: Codec) returns (messages: seq<Message>)
    ensures messages == Messages(ls, s, j)
  {
    var rest := ls;
    messages := [];
    while rest != []
      invariant messages + Messages(rest, s, j) == Messages(ls, s, j)
      decreases |rest|
    {
      if s.key(rest[0]) != Marker {
        rest := rest[1..];
        continue;
      }
      MessagesNext(messages, rest, s, j);
      var message;
      message, rest := ParseMessage(rest[1..], s, j);
      messages := messages + Kept(message);
    }
  }

  method ParseConversation(text: string, j: Codec) returns (messages: seq<Message>)
    ensures messages == Messages(SplitLines(text), ReportScanner(), j)
  {
    messages := ParseMessages(SplitLines(text), ReportScanner(), j);
  }

  // ----- what the parser can return -----

  /** A message any text can yield. */
  predicate Sound(m: Message) {
    Plain(m.id) && Plain(m.role) && Plain(m.createdAt) && Clean(m.content) && Trimmed(m.content)
  }

  predicate AllPlain(ls: seq<string>) { forall l :: l in ls ==> SingleLine(l) }

  /** The keys carry trimmed values of one line. */
  ghost predicate PlainKeys(s: Scanner) {
    forall l :: SingleLine(l) ==>
      match s.key(l)
      case Id(v) => Plain(v)
      case Role(v) => Plain(v)
      case Time(v) => Plain(v)
      case _ => true
  }

  lemma FieldIsSound(ls: seq<string>, m: Message, s: Scanner, j: Codec)
    requires PlainKeys(s) && AllPlain(ls) && Sound(m) && ls != [] && s.key(ls[0]) != Marker
    ensures Sound(Field(ls, m, s, j).message) && AllPlain(Field(ls, m, s, j).rest)
  {
    assert ls[0] in ls && SingleLine(ls[0]);
    if s.key(ls[0]) == Content {
      var lines := Before(ls[1..], s.stop);
      assert forall l :: l in lines ==> l in ls[1..];
      JoinedLinesAreClean(lines);
      StripTrims(JoinNewlines(lines));
    }
  }

  lemma {:induction false} ReadIsSound(ls: seq<string>, m: Message, s: Scanner, j: Codec)
    requires PlainKeys(s) && AllPlain(ls) && Sound(m)
    ensures Sound(ReadMessage(ls, m, s, j).message) && AllPlain(ReadMessage(ls, m, s, j).rest)
    decreases |ls|
  {
    if ls != [] && s.key(ls[0]) != Marker {
      FieldIsSound(ls, m, s, j);
      ReadIsSound(Field(ls, m, s, j).rest, Field(ls, m, s, j).message, s, j);
    }
  }

  lemma {:induction false} MessagesAreSound(ls: seq<string>, s: Scanner, j: Codec)
    requires PlainKeys(s) && AllPlain(ls)
    ensures forall m :: m in Messages(ls, s, j) ==> Sound(m) && m.role != ""
    decreases |ls|
  {
    if ls != [] {
      if s.key(ls[0]) != Marker {
        MessagesAreSound(ls[1..], s, j);
      } else {
        ReadIsSound(ls[1..], Blank(j), s, j);
        MessagesAreSound(ReadMessage(ls[1..], Blank(j), s, j).rest, s, j);
      }
    }
  }

  lemma ReportKeysArePlain()
    ensures PlainKeys(ReportScanner())
  {
    forall l | SingleLine(l) ensures KeyOf(l).Id? || KeyOf(l).Role? || KeyOf(l).Time? ==> Plain(KeyOf(l).value) {
      KeyIsPlain(l);
    }
  }

  lemma KeyIsPlain(l: string)
    requires SingleLine(l)
    ensures KeyOf(l).Id? || KeyOf(l).Role? || KeyOf(l).Time? ==> Plain(KeyOf(l).value)
  {
    if MESSAGE_ID <= l {
      StripTrims(l[|MESSAGE_ID|..]);
    }
    if MESSAGE_ROLE <= l {
      StripTrims(l[|MESSAGE_ROLE|..]);
    }
    if MESSAGE_TIME <= l {
      StripTrims(l[|MESSAGE_TIME|..]);
    }
  }
}

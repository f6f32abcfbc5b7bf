/** What the parser finds in the lines above a conversation, and how that adds to the conversation. */
module ReportFrames {
  import opened ReportLines
  import opened ReportText
  import opened ReportMessages
  import opened ReportRoundTrip

  // ----- reading field by field -----

  /** Within a message, the next field is read: the messages done with, the lines left and the message as it stands. */
  datatype Turn = Turn(done: seq<Message>, rest: seq<string>, next: Message)

  function TurnOf(ls: seq<string>, m: Message, s: Scanner, j: Codec): (turn: Turn)
    requires ls != []
    ensures |turn.rest| < |ls|
  {
    if s.key(ls[0]) == Marker then Turn(Kept(m), ls[1..], Blank(j))
    else Turn([], Field(ls, m, s, j).rest, Field(ls, m, s, j).message)
  }

  lemma OnwardTurn(ls: seq<string>, m: Message, s: Scanner, j: Codec)
    requires ls != []
    ensures var turn := TurnOf(ls, m, s, j); Onward(ls, m, s, j) == turn.done + Onward(turn.rest, turn.next, s, j)
  {
    if s.key(ls[0]) == Marker {
      assert ls == [ls[0]] + ls[1..];
      MarkerOnward(ls[0], ls[1..], m, s, j);
    }
  }

  predicate JsonRunsOut(ls: seq<string>, s: Scanner, j: Codec)
    requires ls != []
  {
    s.key(ls[0]) == Metadata && ShortestJson(ls[1..], 1, j) > |ls| - 1
  }

  /** Within a message, the lines end in a JSON block. */
  function EndsInJson(ls: seq<string>, s: Scanner, j: Codec): bool
    decreases |ls|
  {
    ls != [] && (JsonRunsOut(ls, s, j) || EndsInJson(TurnOf(ls, Blank(j), s, j).rest, s, j))
  }

  /** A JSON block that begins in these lines does not end in them. */
  function LeavesJsonOpen(ls: seq<string>, s: Scanner, j: Codec): bool {
    if ls == [] then false
    else if s.key(ls[0]) == Marker then EndsInJson(ls[1..], s, j)
    else LeavesJsonOpen(ls[1..], s, j)
  }

  /** What is read behind lines that leave a JSON block open, or not. */
  function ReadBehind(open: bool, t: seq<string>, s: Scanner, j: Codec): seq<Message> {
    if open then [] else Messages(t, s, j)
  }

  predicate StartsMessage(t: seq<string>, s: Scanner) { t != [] && s.key(t[0]) == Marker }

  // ----- blocks with lines behind -----

  lemma {:induction false} ShortestWithin(ls: seq<string>, t: seq<string>, n: nat, j: Codec)
    requires n <= |ls| && ShortestJson(ls, n, j) <= |ls|
    ensures ShortestJson(ls + t, n, j) == ShortestJson(ls, n, j)
    decreases |ls| - n
  {
    assert (ls + t)[..n] == ls[..n];
    if j.loads(JoinNewlines(ls[..n])).None? {
      ShortestWithin(ls, t, n + 1, j);
    }
  }

  /** Where the JSON block of the lines does not end, it cannot end behind a marker either. */
  lemma NoJsonAcross(ls: seq<string>, t: seq<string>, s: Scanner, j: Codec)
    requires JsonHasNoMarker(s, j) && StartsMessage(t, s) && ShortestJson(ls, 1, j) > |ls|
    ensures ShortestJson(ls + t, 1, j) > |ls + t|
  {
    forall k | 1 <= k <= |ls + t| ensures j.loads(JoinNewlines((ls + t)[..k])).None? {
      if k <= |ls| {
        assert (ls + t)[..k] == ls[..k];
      } else {
        assert (ls + t)[..k][|ls|] == t[0];
      }
    }
  }

  lemma StopsWithin(ls: seq<string>, t: seq<string>, stop: string -> bool)
    requires |Before(ls, stop)| < |ls|
    ensures Before(ls + t, stop) == Before(ls, stop)
  {
    var kept := Before(ls, stop);
    assert ls + t == kept + (ls[|kept|..] + t);
    StopAt(kept, ls[|kept|..] + t, stop);
  }

  lemma BeforeAcross(ls: seq<string>, t: seq<string>, s: Scanner)
    requires Laws(s) && StartsMessage(t, s)
    ensures Before(ls + t, s.stop) == Before(ls, s.stop)
  {
    if |Before(ls, s.stop)| < |ls| {
      StopsWithin(ls, t, s.stop);
    } else {
      StopAt(ls, t, s.stop);
    }
  }

  lemma ShortestAcross(ls: seq<string>, t: seq<string>, j: Codec)
    requires ShortestJson(ls, 1, j) > |ls|
    ensures JsonLength(ls + t, j) >= |ls|
  {
    var k := ShortestJson(ls + t, 1, j);
    if k <= |ls| {
      assert (ls + t)[..k] == ls[..k];
    }
  }

  lemma JsonLengths(ls: seq<string>, t: seq<string>, j: Codec)
    ensures JsonLength(ls + t, j) == JsonLength(ls, j) || (JsonLength(ls, j) == |ls| && JsonLength(ls + t, j) >= |ls|)
  {
    if ShortestJson(ls, 1, j) <= |ls| {
      ShortestWithin(ls, t, 1, j);
    } else {
      ShortestAcross(ls, t, j);
    }
  }

  lemma ContentLengths(ls: seq<string>, t: seq<string>, stop: string -> bool)
    ensures var k, q := |Before(ls, stop)|, |Before(ls + t, stop)|; q == k || (k == |ls| && q >= |ls|)
  {
    if |Before(ls, stop)| < |ls| {
      StopsWithin(ls, t, stop);
    } else {
      BeforeAppend(ls, t, stop);
    }
  }

  // ----- reading on into a message -----

  function Reading(s: Scanner, j: Codec): (seq<string>, Message) -> seq<Message> { (ls, m) => Onward(ls, m, s, j) }

  function Ending(s: Scanner, j: Codec): seq<string> -> bool { ls => EndsInJson(ls, s, j) }

  function Turning(s: Scanner, j: Codec): (seq<string>, Message) -> Turn {
    (ls, m) => if ls == [] then Turn([], [], m) else TurnOf(ls, m, s, j)
  }

  /** The reading is done turn by turn. */
  ghost predicate GoesByTurns(read: (seq<string>, Message) -> seq<Message>, turn: (seq<string>, Message) -> Turn) {
    forall ls, m {:trigger turn(ls, m)} :: ls != [] ==>
      |turn(ls, m).rest| < |ls| && read(ls, m) == turn(ls, m).done + read(turn(ls, m).rest, turn(ls, m).next)
  }

  lemma ReadingGoesByTurns(s: Scanner, j: Codec)
    ensures GoesByTurns(Reading(s, j), Turning(s, j))
  {
    forall ls, m | ls != []
      ensures |Turning(s, j)(ls, m).rest| < |ls|
      ensures Reading(s, j)(ls, m)
        == Turning(s, j)(ls, m).done + Reading(s, j)(Turning(s, j)(ls, m).rest, Turning(s, j)(ls, m).next)
    {
      OnwardTurn(ls, m, s, j);
    }
  }

  /** Reading over lines into those behind them adds what is found there, unless the lines end in JSON. */
  predicate Adds(read: (seq<string>, Message) -> seq<Message>, open: seq<string> -> bool, there: seq<Message>,
                 ls: seq<string>, t: seq<string>, m: Message) {
    read(ls + t, m) == read(ls, m) + if open(ls) then [] else there
  }

  /** A turn is the same with the lines behind as without them. */
  predicate Alike(
    turn: (seq<string>, Message) -> Turn, open: seq<string> -> bool, ls: seq<string>, t: seq<string>, m: Message)
  {
    turn(ls + t, m) == turn(ls, m).(rest := turn(ls, m).rest + t) && open(ls) == open(turn(ls, m).rest)
  }

  lemma StillAdds(read: (seq<string>, Message) -> seq<Message>, open: seq<string> -> bool, there: seq<Message>,
                  ls: seq<string>, t: seq<string>, m: Message, turn: Turn)
    requires Adds(read, open, there, turn.rest, t, turn.next) && open(ls) == open(turn.rest)
    requires read(ls, m) == turn.done + read(turn.rest, turn.next)
    requires read(ls + t, m) == turn.done + read(turn.rest + t, turn.next)
    ensures Adds(read, open, there, ls, t, m)
  {
    if !open(ls) {
      assert turn.done + (read(turn.rest, turn.next) + there) == (turn.done + read(turn.rest, turn.next)) + there;
    }
  }

  lemma {:induction false} AddsByTurns(
    read: (seq<string>, Message) -> seq<Message>, turn: (seq<string>, Message) -> Turn, open: seq<string> -> bool,
    there: seq<Message>,
    ls: seq<string>, t: seq<string>, m: Message)
    requires GoesByTurns(read, turn)
    requires forall x, n :: x != [] ==> Alike(turn, open, x, t, n) || Adds(read, open, there, x, t, n)
    requires forall n :: Adds(read, open, there, [], t, n)
    ensures Adds(read, open, there, ls, t, m)
    decreases |ls|
  {
    if ls == [] {
      assert Adds(read, open, there, [], t, m);
    } else if Alike(turn, open, ls, t, m) {
      var taken := turn(ls, m);
      assert read(ls + t, m) == turn(ls + t, m).done + read(turn(ls + t, m).rest, turn(ls + t, m).next);
      AddsByTurns(read, turn, open, there, taken.rest, t, taken.next);
      StillAdds(read, open, there, ls, t, m, taken);
    }
  }

  lemma ContentAlike(ls: seq<string>, t: seq<string>, m: Message, s: Scanner, j: Codec)
    requires Laws(s) && StartsMessage(t, s) && ls != [] && s.key(ls[0]) == Content
    ensures TurnOf(ls + t, m, s, j) == TurnOf(ls, m, s, j).(rest := TurnOf(ls, m, s, j).rest + t)
  {
    var rest := ls[1..];
    assert (ls + t)[1..] == rest + t;
    BeforeAcross(rest, t, s);
    Within(rest, t, |Before(rest, s.stop)|);
  }

  lemma MetadataAlike(ls: seq<string>, t: seq<string>, m: Message, s: Scanner, j: Codec)
    requires ls != [] && s.key(ls[0]) == Metadata && ShortestJson(ls[1..], 1, j) <= |ls| - 1
    ensures TurnOf(ls + t, m, s, j) == TurnOf(ls, m, s, j).(rest := TurnOf(ls, m, s, j).rest + t)
  {
    var rest := ls[1..];
    assert (ls + t)[1..] == rest + t;
    ShortestWithin(rest, t, 1, j);
    var n := ShortestJson(rest, 1, j);
    Within(rest, t, n);
  }

  lemma OpenJsonAdds(ls: seq<string>, t: seq<string>, m: Message, there: seq<Message>, s: Scanner, j: Codec)
    requires JsonHasNoMarker(s, j) && StartsMessage(t, s) && ls != [] && JsonRunsOut(ls, s, j)
    ensures Adds(Reading(s, j), Ending(s, j), there, ls, t, m)
  {
    assert (ls + t)[1..] == ls[1..] + t;
    NoJsonAcross(ls[1..], t, s, j);
    OpenJsonEnds(ls, m, s, j);
    OpenJsonEnds(ls + t, m, s, j);
    assert Ending(s, j)(ls);
  }

  lemma OpenJsonEnds(ls: seq<string>, m: Message, s: Scanner, j: Codec)
    requires ls != [] && JsonRunsOut(ls, s, j)
    ensures Onward(ls, m, s, j) == Onward([], m.(metadata := j.empty), s, j)
  {
    OnwardTurn(ls, m, s, j);
    assert ls[1..][|ls[1..]|..] == [];
  }

  lemma RestIsTheSame(ls: seq<string>, m: Message, s: Scanner, j: Codec)
    requires ls != []
    ensures TurnOf(ls, m, s, j).rest == TurnOf(ls, Blank(j), s, j).rest
  {
  }

  lemma TurnsAreAlike(ls: seq<string>, t: seq<string>, m: Message, s: Scanner, j: Codec)
    requires Laws(s) && StartsMessage(t, s) && ls != [] && !JsonRunsOut(ls, s, j)
    ensures Alike(Turning(s, j), Ending(s, j), ls, t, m)
  {
    RestIsTheSame(ls, m, s, j);
    if s.key(ls[0]) == Content {
      ContentAlike(ls, t, m, s, j);
    } else if s.key(ls[0]) == Metadata {
      MetadataAlike(ls, t, m, s, j);
    } else {
      assert (ls + t)[1..] == ls[1..] + t;
    }
  }

  lemma NothingReadYet(t: seq<string>, m: Message, s: Scanner, j: Codec)
    requires StartsMessage(t, s)
    ensures Adds(Reading(s, j), Ending(s, j), Messages(t, s, j), [], t, m)
  {
    assert [] + t == t;
  }

  lemma ReadOver(ls: seq<string>, t: seq<string>, m: Message, s: Scanner, j: Codec)
    requires Laws(s) && JsonHasNoMarker(s, j) && StartsMessage(t, s)
    ensures Onward(ls + t, m, s, j) == Onward(ls, m, s, j) + ReadBehind(EndsInJson(ls, s, j), t, s, j)
  {
    var read, turn, open, there := Reading(s, j), Turning(s, j), Ending(s, j), Messages(t, s, j);
    ReadingGoesByTurns(s, j);
    forall x, n | x != [] ensures Alike(turn, open, x, t, n) || Adds(read, open, there, x, t, n) {
      if JsonRunsOut(x, s, j) {
        OpenJsonAdds(x, t, n, there, s, j);
      } else {
        TurnsAreAlike(x, t, n, s, j);
      }
    }
    forall n ensures Adds(read, open, there, [], t, n) {
      NothingReadYet(t, n, s, j);
    }
    AddsByTurns(read, turn, open, there, ls, t, m);
    assert Adds(read, open, there, ls, t, m);
  }

  /**
    The lines above a message add what is found in them, unless they leave a JSON block open, which swallows
    all below.
   */
  lemma {:induction false} FrameReads(ls: seq<string>, t: seq<string>, s: Scanner, j: Codec)
    requires Laws(s) && JsonHasNoMarker(s, j) && StartsMessage(t, s)
    ensures Messages(ls + t, s, j) == Messages(ls, s, j) + ReadBehind(LeavesJsonOpen(ls, s, j), t, s, j)
  {
    if ls == [] {
      assert ls + t == t;
    } else {
      var rest := ls[1..];
      assert (ls + t)[1..] == rest + t;
      if s.key(ls[0]) == Marker {
        ReadOver(rest, t, Blank(j), s, j);
      } else {
        FrameReads(rest, t, s, j);
      }
    }
  }

  // ----- lines without fields behind -----

  predicate SameRole(m: Message, n: Message) { m.role == "" <==> n.role == "" }

  lemma EndOnward(t: seq<string>, q: nat, m: Message, s: Scanner, j: Codec)
    requires NoFields(t, s) && q <= |t|
    ensures Onward(t[q..], m, s, j) == Kept(m)
  {
    assert forall l :: l in t[q..] ==> l in t;
    NoFieldsRead(t[q..], m, s, j);
  }

  /** The lines behind make no message out of none, and none out of no message. */
  predicate SameEnd(
    read: (seq<string>, Message) -> seq<Message>, ls: seq<string>, t: seq<string>, m: Message, n: Message)
  {
    read(ls + t, m) == [] <==> read(ls, n) == []
  }

  predicate IsEndOf(rest: seq<string>, t: seq<string>) { |rest| <= |t| && rest == t[|t| - |rest|..] }

  /** With the lines behind, a turn takes the same field, or a block runs on into them. */
  predicate EndsAlike(a: Turn, b: Turn, t: seq<string>) {
    && (a.done == [] <==> b.done == [])
    && SameRole(a.next, b.next)
    && (a.rest == b.rest + t || (b.rest == [] && IsEndOf(a.rest, t)))
  }

  lemma {:induction false} SameEndByTurns(
    read: (seq<string>, Message) -> seq<Message>, turn: (seq<string>, Message) -> Turn, ls: seq<string>, t: seq<string>,
    m: Message, n: Message)
    requires GoesByTurns(read, turn) && SameRole(m, n)
    requires forall x, a, b :: x != [] && SameRole(a, b) ==> EndsAlike(turn(x + t, a), turn(x, b), t)
    requires forall x, a :: IsEndOf(x, t) || x == [] ==> read(x, a) == Kept(a)
    ensures SameEnd(read, ls, t, m, n)
    decreases |ls|
  {
    if ls == [] {
      assert ls + t == t && IsEndOf(t, t);
    } else {
      var a, b := turn(ls + t, m), turn(ls, n);
      assert read(ls + t, m) == a.done + read(a.rest, a.next) && read(ls, n) == b.done + read(b.rest, b.next);
      assert EndsAlike(a, b, t);
      if a.rest == b.rest + t {
        SameEndByTurns(read, turn, b.rest, t, a.next, b.next);
      }
    }
  }

  lemma BlockEndsAlike(ls: seq<string>, t: seq<string>, k: nat, q: nat)
    requires k <= |ls| && q <= |ls + t| && (q == k || (k == |ls| && q >= |ls|))
    ensures (ls + t)[q..] == ls[k..] + t || (ls[k..] == [] && IsEndOf((ls + t)[q..], t))
  {
    if q == k {
      Within(ls, t, k);
    } else {
      assert (ls + t)[q..] == t[q - |ls|..];
    }
  }

  lemma TurnsEndAlike(ls: seq<string>, t: seq<string>, m: Message, n: Message, s: Scanner, j: Codec)
    requires ls != [] && SameRole(m, n)
    ensures EndsAlike(TurnOf(ls + t, m, s, j), TurnOf(ls, n, s, j), t)
  {
    var rest := ls[1..];
    assert (ls + t)[1..] == rest + t;
    if s.key(ls[0]) == Content {
      ContentLengths(rest, t, s.stop);
      BlockEndsAlike(rest, t, |Before(rest, s.stop)|, |Before(rest + t, s.stop)|);
    } else if s.key(ls[0]) == Metadata {
      JsonLengths(rest, t, j);
      BlockEndsAlike(rest, t, JsonLength(rest, j), JsonLength(rest + t, j));
    }
  }

  lemma FieldlessEnd(ls: seq<string>, t: seq<string>, m: Message, n: Message, s: Scanner, j: Codec)
    requires NoFields(t, s) && SameRole(m, n)
    ensures Onward(ls + t, m, s, j) == [] <==> Onward(ls, n, s, j) == []
  {
    var read, turn := Reading(s, j), Turning(s, j);
    ReadingGoesByTurns(s, j);
    forall x, a, b | x != [] && SameRole(a, b) ensures EndsAlike(turn(x + t, a), turn(x, b), t) {
      TurnsEndAlike(x, t, a, b, s, j);
    }
    forall x, a | IsEndOf(x, t) || x == [] ensures read(x, a) == Kept(a) {
      EndOnward(t, if x == [] then |t| else |t| - |x|, a, s, j);
      assert t[|t|..] == [];
    }
    SameEndByTurns(read, turn, ls, t, m, n);
    assert SameEnd(read, ls, t, m, n);
  }

  lemma {:induction false} NothingBehind(ls: seq<string>, t: seq<string>, s: Scanner, j: Codec)
    requires NoFields(t, s)
    ensures Messages(ls + t, s, j) == [] <==> Messages(ls, s, j) == []
  {
    if ls == [] {
      assert ls + t == t;
      NoFieldsRead(t, Blank(j), s, j);
    } else {
      var rest := ls[1..];
      assert (ls + t)[1..] == rest + t;
      if s.key(ls[0]) == Marker {
        FieldlessEnd(rest, t, Blank(j), Blank(j), s, j);
      } else {
        NothingBehind(rest, t, s, j);
      }
    }
  }

  // ----- lines without markers -----

  lemma {:induction false} NoMarkersRead(ls: seq<string>, s: Scanner, j: Codec)
    requires forall l :: l in ls ==> s.key(l) != Marker
    ensures Messages(ls, s, j) == [] && !LeavesJsonOpen(ls, s, j)
  {
    if ls != [] {
      assert ls[0] in ls;
      NoMarkersRead(ls[1..], s, j);
    }
  }
}

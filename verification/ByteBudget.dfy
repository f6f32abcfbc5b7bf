/** The byte limits that a report is cut down to before it may enter the outbox. */
module ByteBudget {
  import opened Seqs
  import opened Utf8

  const SELECTED_CONTENT_BYTES: nat := 32 * 1024
  const SELECTED_TEXT_BYTES: nat := 16 * 1024
  const TURN_TRACE_LIMIT: nat := 8
  const TURN_TRACE_BYTES: nat := 48 * 1024
  const FILTER_BYTES: nat := 2 * 1024
  const FILTER_TEXT_BYTES: nat := 256
  const TEXT_LIST_LIMIT: nat := 8

  // ----- the selected question and answer -----

  function OptionBytes(s: Option<string>): nat {
    if s.None? then 0 else Utf8Size(s.value)
  }

  function BoundSelectedContent(
    question: Option<string>, answer: Option<string>): (r: (Option<string>, Option<string>))
  {
    var used := OptionBytes(question);
    var remaining := if used <= SELECTED_CONTENT_BYTES then SELECTED_CONTENT_BYTES - used else 0;
    if answer.None? then (question, None)
    else
      var cut := Truncate(answer.value, remaining);
      (question, if cut == "" then None else Some(cut))
  }

  /** The pair fits its budget exactly when the question alone does: only the answer is ever cut. */
  lemma SelectedContentFits(question: Option<string>, answer: Option<string>)
    ensures var (q, a) := BoundSelectedContent(question, answer);
      && q == question
      && (OptionBytes(q) + OptionBytes(a) <= SELECTED_CONTENT_BYTES <==>
        OptionBytes(question) <= SELECTED_CONTENT_BYTES)
      && (a.Some? ==> answer.Some? && a.value != "" && a.value <= answer.value)
      && (answer.Some? ==>
        var kept := if a.Some? then |a.value| else 0;
        forall j :: kept < j <= |answer.value| ==>
          OptionBytes(q) + Utf8Size(answer.value[..j]) > SELECTED_CONTENT_BYTES)
  {
    if answer.Some? {
      var used := OptionBytes(question);
      var remaining := if used <= SELECTED_CONTENT_BYTES then SELECTED_CONTENT_BYTES - used else 0;
      TruncateLongest(answer.value, remaining);
    }
  }

  /** A question and an answer that were each cut to 16 KiB are never cut again. */
  lemma BoundedPartsAreKept(question: string, answer: string)
    requires answer != ""
    ensures var q, a := Truncate(question, SELECTED_TEXT_BYTES), Truncate(answer, SELECTED_TEXT_BYTES);
      BoundSelectedContent(Some(q), Some(a)) == (Some(q), if a == "" then None else Some(a))
  {
    TruncateLongest(question, SELECTED_TEXT_BYTES);
    TruncateLongest(answer, SELECTED_TEXT_BYTES);
  }

  // ----- the trace of earlier turns -----

  /** The JSON text of a list whose elements are already JSON texts. */
  function JsonItems(items: seq<string>): string {
    if items == [] then ""
    else if |items| == 1 then items[0]
    else items[0] + "," + JsonItems(items[1..])
  }

  function JsonListBytes(items: seq<string>): nat { Utf8Size("[" + JsonItems(items) + "]") }

  lemma EmptyListBytes()
    ensures JsonListBytes([]) == 2
  {
    assert "[" + JsonItems([]) + "]" == "[" + "]";
    SizeAppend("[", "]");
    assert "["[1..] == "" && "]"[1..] == "";
  }

  function LastTurns<R>(value: seq<R>): seq<R> {
    if |value| <= TURN_TRACE_LIMIT then value else value[|value| - TURN_TRACE_LIMIT..]
  }

  /** Of more than eight turns the last eight count, of fewer all. */
  lemma LastEight<R>(before: seq<R>, last: seq<R>)
    requires |last| == 8 || (|last| < 8 && before == [])
    ensures LastTurns(before + last) == last
  {
    assert before + last == before + last[..];
  }

  lemma {:induction false} JsonItemsAppend(a: seq<string>, b: seq<string>)
    requires a != [] && b != []
    ensures JsonItems(a + b) == JsonItems(a) + ("," + JsonItems(b))
  {
    assert (a + b)[1..] == a[1..] + b;
    if |a| > 1 {
      JsonItemsAppend(a[1..], b);
      assert a[0] + "," + (JsonItems(a[1..]) + ("," + JsonItems(b))) == JsonItems(a) + ("," + JsonItems(b));
    } else {
      assert a[1..] + b == b;
    }
  }

  lemma CharBytes()
    ensures Utf8Size(",") == 1 && Utf8Size("[") == 1 && Utf8Size("]") == 1
  {
    assert ","[1..] == "" && "["[1..] == "" && "]"[1..] == "";
  }

  lemma ListBytes(items: seq<string>)
    ensures JsonListBytes(items) == Utf8Size(JsonItems(items)) + 2
  {
    CharBytes();
    SizeAppend("[" + JsonItems(items), "]");
    SizeAppend("[", JsonItems(items));
  }

  /** The size of a JSON list is that of its elements, a comma between any two, and two brackets. */
  lemma JsonListSizes(a: seq<string>, b: seq<string>, item: string)
    ensures JsonListBytes([]) == 2 && JsonListBytes([item]) == |Encode(item)| + 2
    ensures a != [] && b != [] ==> JsonListBytes(a + b) == JsonListBytes(a) + JsonListBytes(b) - 1
  {
    EmptyListBytes();
    ListBytes([item]);
    if a != [] && b != [] {
      JsonItemsAppend(a, b);
      CharBytes();
      SizeAppend(JsonItems(a), "," + JsonItems(b));
      SizeAppend(",", JsonItems(b));
      ListBytes(a);
      ListBytes(b);
      ListBytes(a + b);
    }
  }

  /** The turns among `raw` that are accepted, each as its JSON text. */
  function Accepted<R>(raw: seq<R>, accept: R -> Option<string>): (r: seq<string>)
    ensures |r| <= |raw|
  {
    if raw == [] then []
    else
      var rest := Accepted(raw[..|raw| - 1], accept);
      var turn := accept(raw[|raw| - 1]);
      if turn.Some? then rest + [turn.value] else rest
  }

  /** The first loop: turns are taken in order, and leaving one out is noted. */
  method AcceptTurns<R>(raw: seq<R>, accept: R -> Option<string>) returns (turns: seq<string>, removed: bool)
    ensures turns == Accepted(raw, accept)
    ensures removed <==> |turns| < |raw|
  {
    turns, removed := [], false;
    for i := 0 to |raw|
      invariant turns == Accepted(raw[..i], accept)
      invariant removed <==> |turns| < i
    {
      assert raw[..i + 1][..i] == raw[..i];
      var turn := accept(raw[i]);
      if turn.None? {
        removed := true;
      } else {
        turns := turns + [turn.value];
      }
    }
    assert raw[..|raw|] == raw;
  }

  /** The second loop: the oldest turns go until the JSON of the others fits. */
  method DropOldest(all: seq<string>) returns (turns: seq<string>)
    ensures |turns| <= |all| && turns == all[|all| - |turns|..]
    ensures JsonListBytes(turns) <= TURN_TRACE_BYTES
    ensures forall i :: 0 <= i < |all| - |turns| ==> JsonListBytes(all[i..]) > TURN_TRACE_BYTES
  {
    turns := all;
    EmptyListBytes();
    while turns != [] && JsonListBytes(turns) > TURN_TRACE_BYTES
      invariant |turns| <= |all| && turns == all[|all| - |turns|..]
      invariant forall i :: 0 <= i < |all| - |turns| ==> JsonListBytes(all[i..]) > TURN_TRACE_BYTES
    {
      turns := turns[1..];
    }
  }

  /**
    Keeps the longest suffix of the accepted turns whose JSON fits 48 KiB, and reports a removal
    exactly when some turn was left out. `accept` stands for the redaction of one turn, which
    refuses a turn without an index or a question.
   */
  method CompactTurnTrace<R>(value: seq<R>, accept: R -> Option<string>) returns (turns: seq<string>, removed: bool)
    ensures var all := Accepted(LastTurns(value), accept);
      && |turns| <= |all| && turns == all[|all| - |turns|..]
      && JsonListBytes(turns) <= TURN_TRACE_BYTES
      && forall i :: 0 <= i < |all| - |turns| ==> JsonListBytes(all[i..]) > TURN_TRACE_BYTES
    ensures removed <==> |turns| < |value|
  {
    var raw := LastTurns(value);
    var all, left := AcceptTurns(raw, accept);
    turns := DropOldest(all);
    removed := left || |value| > |raw| || |turns| < |all|;
  }

  // ----- search filters -----

  datatype RawFilter = Null | Scalar(text: string) | Listed(items: seq<Option<string>>)
  datatype Compact = Text(text: string) | Texts(texts: seq<string>)

  type Filters = map<string, Compact>

  const ALLOWED_FILTER_KEYS: set<string> := {
    "broker", "brokers", "file_names", "report_date", "report_date_end", "report_date_start", "report_month",
    "report_type", "report_types", "target_name", "target_names"}

  function Bounded(text: string, redact: string -> string): string { Truncate(redact(text), FILTER_TEXT_BYTES) }

  /** The first eight items, without the nulls, each redacted and cut. */
  function BoundedItems(items: seq<Option<string>>, redact: string -> string): seq<string> {
    BoundedTexts(if |items| <= TEXT_LIST_LIMIT then items else items[..TEXT_LIST_LIMIT], redact)
  }

  function BoundedTexts(items: seq<Option<string>>, redact: string -> string): seq<string> {
    if items == [] then []
    else (if items[0].None? then [] else [Bounded(items[0].value, redact)]) + BoundedTexts(items[1..], redact)
  }

  /** A filter value is the longest beginning of its redacted text that fits 256 bytes. */
  lemma BoundedIsRedacted(text: string, redact: string -> string)
    ensures var r := Bounded(text, redact);
      && r <= redact(text) && |Encode(r)| <= 256
      && forall n :: |r| < n <= |redact(text)| ==> |Encode(redact(text)[..n])| > 256
  {
    TruncateLongest(redact(text), FILTER_TEXT_BYTES);
  }

  lemma {:induction false} BoundedTextsAppend(
    a: seq<Option<string>>, b: seq<Option<string>>, redact: string -> string)
    ensures BoundedTexts(a + b, redact) == BoundedTexts(a, redact) + BoundedTexts(b, redact)
  {
    if a == [] {
      assert a + b == b;
    } else {
      assert (a + b)[1..] == a[1..] + b;
      BoundedTextsAppend(a[1..], b, redact);
    }
  }

  /** Only the first eight items of a list count, nulls among them are dropped, and the others are bounded in order. */
  lemma FirstEight(
    first: seq<Option<string>>, more: seq<Option<string>>, a: seq<Option<string>>, text: string,
    redact: string -> string)
    requires |first| == 8 || (|first| < 8 && more == [])
    ensures BoundedItems(first + more, redact) == BoundedTexts(first, redact)
    ensures BoundedTexts(a + [None], redact) == BoundedTexts(a, redact)
    ensures BoundedTexts(a + [Some(text)], redact) == BoundedTexts(a, redact) + [Bounded(text, redact)]
  {
    assert (first + more)[..|first|] == first && first + [] == first;
    BoundedTextsAppend(a, [None], redact);
    BoundedTextsAppend(a, [Some(text)], redact);
  }

  /** The longest prefix of the list that keeps the object within its bytes, or the empty list. */
  function FittingPrefix(kept: Filters, key: string, texts: seq<string>, bytes: Filters -> nat): seq<string> {
    if texts == [] || bytes(kept[key := Texts(texts)]) <= FILTER_BYTES then texts
    else FittingPrefix(kept, key, texts[..|texts| - 1], bytes)
  }

  lemma {:induction false} FittingPrefixIsLongest(kept: Filters, key: string, texts: seq<string>, bytes: Filters -> nat)
    ensures var r := FittingPrefix(kept, key, texts, bytes);
      && r <= texts
      && (r == [] || bytes(kept[key := Texts(r)]) <= FILTER_BYTES)
      && forall n :: |r| < n <= |texts| ==> bytes(kept[key := Texts(texts[..n])]) > FILTER_BYTES
  {
    if texts != [] && bytes(kept[key := Texts(texts)]) > FILTER_BYTES {
      var m := |texts| - 1;
      FittingPrefixIsLongest(kept, key, texts[..m], bytes);
      var r := FittingPrefix(kept, key, texts, bytes);
      forall n | |r| < n <= |texts| ensures bytes(kept[key := Texts(texts[..n])]) > FILTER_BYTES {
        if n <= m {
          assert texts[..m][..n] == texts[..n];
        } else {
          assert texts[..n] == texts;
        }
      }
    }
  }

  /** What the object becomes when one more filter is offered to it. */
  function Offer(kept: Filters, key: string, raw: RawFilter, redact: string -> string, bytes: Filters -> nat): Filters {
    if key !in ALLOWED_FILTER_KEYS || raw.Null? then kept
    else
      var value := if raw.Scalar? then Text(Bounded(raw.text, redact))
                   else Texts(FittingPrefix(kept, key, BoundedItems(raw.items, redact), bytes));
      if bytes(kept[key := value]) > FILTER_BYTES then kept else kept[key := value]
  }

  /** A text filter that fits is taken if its key is one of eleven, and any other is passed over. */
  lemma FilterKeys(kept: Filters, key: string, text: string, redact: string -> string, bytes: Filters -> nat)
    requires key !in kept && bytes(kept[key := Text(Bounded(text, redact))]) <= 2048
    ensures key in Offer(kept, key, Scalar(text), redact, bytes) <==>
      key in {"broker", "brokers", "file_names", "report_date", "report_date_end", "report_date_start", "report_month",
        "report_type", "report_types", "target_name", "target_names"}
  {
  }

  function OfferAll(items: seq<(string, RawFilter)>, redact: string -> string, bytes: Filters -> nat): Filters {
    if items == [] then map[]
    else
      var last := items[|items| - 1];
      Offer(OfferAll(items[..|items| - 1], redact, bytes), last.0, last.1, redact, bytes)
  }

  lemma OfferAllStep(items: seq<(string, RawFilter)>, n: nat, redact: string -> string, bytes: Filters -> nat)
    requires 0 < n <= |items|
    ensures OfferAll(items[..n], redact, bytes)
      == Offer(OfferAll(items[..n - 1], redact, bytes), items[n - 1].0, items[n - 1].1, redact, bytes)
  {
    assert items[..n][..n - 1] == items[..n - 1];
  }

  /** The filters never outgrow their budget, whatever prefix of the mapping has been read. */
  lemma {:induction false} FiltersAlwaysFit(
    items: seq<(string, RawFilter)>, n: nat, redact: string -> string, bytes: Filters -> nat)
    requires n <= |items| && bytes(map[]) <= FILTER_BYTES
    ensures bytes(OfferAll(items[..n], redact, bytes)) <= FILTER_BYTES
    ensures OfferAll(items[..n], redact, bytes).Keys <= ALLOWED_FILTER_KEYS
  {
    if n > 0 {
      FiltersAlwaysFit(items, n - 1, redact, bytes);
      OfferAllStep(items, n, redact, bytes);
    }
  }

  predicate NamedOnce(items: seq<(string, RawFilter)>) {
    forall i, j :: 0 <= i < j < |items| ==> items[i].0 != items[j].0
  }

  lemma OneMoreOffer(
    items: seq<(string, RawFilter)>, n: nat, key: string, redact: string -> string, bytes: Filters -> nat)
    requires 0 < n <= |items| && NamedOnce(items) && key in OfferAll(items[..n - 1], redact, bytes)
    ensures key in OfferAll(items[..n], redact, bytes)
    ensures OfferAll(items[..n], redact, bytes)[key] == OfferAll(items[..n - 1], redact, bytes)[key]
  {
    var kept, last := OfferAll(items[..n - 1], redact, bytes), items[n - 1];
    var i := WhereOffered(items, n - 1, key, redact, bytes);
    OfferAllStep(items, n, redact, bytes);
    OfferKeepsOthers(kept, last.0, last.1, redact, bytes, key);
  }

  /** A filter once taken is never changed again, as long as the mapping names each key once. */
  lemma {:induction false} TakenFiltersStay(items: seq<(string, RawFilter)>, m: nat, n: nat, key: string,
                                            redact: string -> string, bytes: Filters -> nat)
    requires m <= n <= |items| && NamedOnce(items)
    requires key in OfferAll(items[..m], redact, bytes)
    ensures key in OfferAll(items[..n], redact, bytes)
    ensures OfferAll(items[..n], redact, bytes)[key] == OfferAll(items[..m], redact, bytes)[key]
  {
    if m < n {
      TakenFiltersStay(items, m, n - 1, key, redact, bytes);
      OneMoreOffer(items, n, key, redact, bytes);
    }
  }

  lemma OfferKeepsOthers(
    kept: Filters, offered: string, raw: RawFilter, redact: string -> string, bytes: Filters -> nat, key: string)
    requires key in kept && offered != key
    ensures key in Offer(kept, offered, raw, redact, bytes)
    ensures Offer(kept, offered, raw, redact, bytes)[key] == kept[key]
  {
  }

  lemma {:induction false} WhereOffered(items: seq<(string, RawFilter)>, n: nat, key: string,
                                        redact: string -> string, bytes: Filters -> nat) returns (i: nat)
    requires n <= |items| && key in OfferAll(items[..n], redact, bytes)
    ensures i < n && items[i].0 == key
  {
    OfferAllStep(items, n, redact, bytes);
    if key in OfferAll(items[..n - 1], redact, bytes) {
      i := WhereOffered(items, n - 1, key, redact, bytes);
    } else {
      i := n - 1;
    }
  }

  /** The loops of `_compact_remote_filters`: shorten a list from its end until the object fits. */
  method CompactFilters(items: seq<(string, RawFilter)>, redact: string -> string, bytes: Filters -> nat)
    returns (compact: Filters)
    requires bytes(map[]) <= FILTER_BYTES
    ensures compact == OfferAll(items, redact, bytes)
    ensures bytes(compact) <= FILTER_BYTES
  {
    compact := map[];
    for i := 0 to |items|
      invariant compact == OfferAll(items[..i], redact, bytes)
      invariant bytes(compact) <= FILTER_BYTES
    {
      assert items[..i + 1][..i] == items[..i];
      var (key, raw) := items[i];
      if key !in ALLOWED_FILTER_KEYS || raw.Null? {
        continue;
      }
      var value := if raw.Scalar? then Text(Bounded(raw.text, redact)) else Texts(BoundedItems(raw.items, redact));
      var candidate := compact[key := value];
      while value.Texts? && value.texts != [] && bytes(candidate) > FILTER_BYTES
        invariant candidate == compact[key := value]
        invariant value.Texts? <==> raw.Listed?
        invariant raw.Scalar? ==> value == Text(Bounded(raw.text, redact))
        invariant raw.Listed? ==>
          FittingPrefix(compact, key, value.texts, bytes)
            == FittingPrefix(compact, key, BoundedItems(raw.items, redact), bytes)
        decreases if value.Texts? then |value.texts| else 0
      {
        value := Texts(value.texts[..|value.texts| - 1]);
        candidate := candidate[key := value];
      }
      if bytes(candidate) > FILTER_BYTES {
        continue;
      }
      compact := candidate;
    }
    assert items[..|items|] == items;
  }
}

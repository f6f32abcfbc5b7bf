/**
  The durable issue-report outbox as a table of rows, and the effect of every SQL statement
  that its three transactions (enqueue, lease, record) are made of.
 */
module OutboxTable {
  import opened Seqs
  import opened Utf8

  const MAX_EVENT_BYTES: nat := 128 * 1024
  const MAX_OUTBOX_BYTES: nat := 50 * 1024 * 1024
  const MAX_OUTBOX_EVENTS: nat := 1_000
  const MAX_EVENT_AGE_SECONDS: real := 604_800.0
  const MAX_DELIVERY_ATTEMPTS: nat := 4
  const DELIVERY_LEASE_SECONDS: real := 60.0

  datatype Status = Queued | Sending | Retry | Delivered | Rejected | DeadLetter | Expired

  /** One row of `outbox_events`; SQL NULL is `None`. */
  datatype Row = Row(
    eventId: string,
    reportId: string,
    payload: Option<string>,
    payloadBytes: nat,
    priority: int,
    status: Status,
    attempts: nat,
    availableAt: real,
    leaseOwner: Option<string>,
    leaseExpiresAt: Option<real>,
    createdAt: real,
    expiresAt: real,
    lastError: Option<string>,
    receiptId: Option<string>)

  type Table = seq<Row>

  predicate IsActive(s: Status) { s in {Queued, Sending, Retry} }

  /** `payload_json IS NOT NULL AND status IN ('queued', 'sending', 'retry')` */
  predicate Live(r: Row) { r.payload.Some? && IsActive(r.status) }

  predicate Stale(r: Row, now: real) { Live(r) && r.expiresAt <= now }

  function NotStaleAt(now: real): Row -> bool { r => !Stale(r, now) }

  /** The `DELETE` of `_expire_events`. */
  function Sweep(t: Table, now: real): Table { Filter(t, NotStaleAt(now)) }

  function NotLeftover(): Row -> bool {
    (r: Row) => r.payload.Some? && r.status !in {Delivered, Rejected, DeadLetter, Expired}
  }

  /** The clean-up `_connect` commits before anything else. */
  function Purge(t: Table): Table { Filter(t, NotLeftover()) }

  function TotalBytes(t: Table): nat {
    if t == [] then 0 else t[0].payloadBytes + TotalBytes(t[1..])
  }

  function LiveRows(): Row -> bool { r => Live(r) }

  function FindReport(t: Table, reportId: string): (r: Option<Row>)
    ensures r.None? <==> forall x :: x in t ==> x.reportId != reportId
    ensures r.Some? ==> r.value in t && r.value.reportId == reportId
  {
    if t == [] then None
    else if t[0].reportId == reportId then Some(t[0])
    else FindReport(t[1..], reportId)
  }

  // ----- enqueue -----

  datatype EnqueueError = PayloadTooLarge | OutboxFull | DuplicateEventId

  datatype EnqueueResult =
    | Existing(status: Status, eventId: string, receiptId: Option<string>)
    | Inserted(newEventId: string)
    | Failed(error: EnqueueError)

  function NewRow(eventId: string, reportId: string, payload: string, now: real): Row {
    Row(eventId, reportId, Some(payload), Utf8Size(payload), 100, Queued, 0, now, None, None,
        now, now + MAX_EVENT_AGE_SECONDS, None, None)
  }

  predicate HasRoomFor(t: Table, bytes: nat) {
    var live := Filter(t, LiveRows());
    |live| < MAX_OUTBOX_EVENTS && TotalBytes(live) + bytes <= MAX_OUTBOX_BYTES
  }

  /**
    The committed effect of one enqueue transaction. A failure commits nothing, so the expiry
    sweep made inside the transaction is undone with the rest.
   */
  function EnqueueEffect(t: Table, now: real, reportId: string, payload: string, eventId: string)
    : (Table, EnqueueResult)
  {
    var cleaned := Purge(t);
    var swept := Sweep(cleaned, now);
    var existing := FindReport(swept, reportId);
    if existing.Some? then
      (swept, Existing(existing.value.status, existing.value.eventId, existing.value.receiptId))
    else if Utf8Size(payload) > MAX_EVENT_BYTES then (cleaned, Failed(PayloadTooLarge))
    else if !HasRoomFor(swept, Utf8Size(payload)) then (cleaned, Failed(OutboxFull))
    else if exists r :: r in swept && r.eventId == eventId then (cleaned, Failed(DuplicateEventId))
    else (swept + [NewRow(eventId, reportId, payload, now)], Inserted(eventId))
  }

  // ----- lease -----

  /** The `WHERE` clause of the lease query; a NULL lease time compares as false. */
  predicate Due(r: Row, now: real) {
    && r.payload.Some?
    && (|| (r.status in {Queued, Retry} && r.availableAt <= now)
        || (r.status == Sending && r.leaseExpiresAt.Some? && r.leaseExpiresAt.value <= now))
  }

  /** `ORDER BY priority DESC, created_at ASC`; SQL leaves ties open. */
  predicate NotBehind(a: Row, b: Row) {
    a.priority > b.priority || (a.priority == b.priority && a.createdAt <= b.createdAt)
  }

  predicate IsPick(t: Table, now: real, k: nat) {
    && k < |t|
    && Due(t[k], now)
    && forall j :: 0 <= j < |t| && Due(t[j], now) ==> NotBehind(t[k], t[j])
  }

  predicate NothingDue(t: Table, now: real) {
    forall r :: r in t ==> !Due(r, now)
  }

  lemma {:induction false} SomePick(t: Table, now: real) returns (k: nat)
    requires !NothingDue(t, now)
    ensures IsPick(t, now, k)
  {
    var n := |t| - 1;
    if NothingDue(t[..n], now) {
      k := n;
      assert forall j :: 0 <= j < n ==> t[j] in t[..n];
    } else {
      k := SomePick(t[..n], now);
      assert forall j :: 0 <= j < n ==> t[..n][j] == t[j];
      if Due(t[n], now) && !NotBehind(t[k], t[n]) {
        k := n;
      }
    }
  }

  function LeaseRow(r: Row, owner: string, now: real): Row {
    r.(status := Sending, attempts := r.attempts + 1, leaseOwner := Some(owner),
       leaseExpiresAt := Some(now + DELIVERY_LEASE_SECONDS))
  }

  // ----- record -----

  datatype Action = Ack | Reject | TryAgain
  datatype Outcome = Outcome(action: Action, code: string, retryAfter: Option<real>, receiptId: Option<string>)

  function FinalStatus(action: Action, attempt: nat): Status {
    match action
    case Ack => Delivered
    case Reject => Rejected
    case TryAgain => if attempt >= MAX_DELIVERY_ATTEMPTS then DeadLetter else Retry
  }

  /** The fence: `event_id = ? AND status = 'sending' AND lease_owner = ?` */
  predicate Held(r: Row, eventId: string, owner: string) {
    r.eventId == eventId && r.status == Sending && r.leaseOwner == Some(owner)
  }

  function NotHeldBy(eventId: string, owner: string): Row -> bool { r => !Held(r, eventId, owner) }

  function ReleaseRow(r: Row, availableAt: real, outcome: Outcome): Row {
    r.(status := Retry, availableAt := availableAt, leaseOwner := None, leaseExpiresAt := None,
       lastError := Some(outcome.code), receiptId := outcome.receiptId)
  }

  function ReleaseHeld(t: Table, eventId: string, owner: string, availableAt: real, outcome: Outcome): (u: Table)
    ensures |u| == |t|
    ensures forall i :: 0 <= i < |t| ==>
      u[i] == if Held(t[i], eventId, owner) then ReleaseRow(t[i], availableAt, outcome) else t[i]
  {
    if t == [] then []
    else
      [if Held(t[0], eventId, owner) then ReleaseRow(t[0], availableAt, outcome) else t[0]]
      + ReleaseHeld(t[1..], eventId, owner, availableAt, outcome)
  }

  function RecordEffect(
    t: Table, eventId: string, owner: string, attempt: nat, availableAt: real, outcome: Outcome): Table
  {
    var cleaned := Purge(t);
    if FinalStatus(outcome.action, attempt) == Retry
    then ReleaseHeld(cleaned, eventId, owner, availableAt, outcome)
    else Filter(cleaned, NotHeldBy(eventId, owner))
  }

  // ----- the delay before the next attempt -----

  function Min(a: real, b: real): real { if a <= b then a else b }
  function Max(a: real, b: real): real { if a >= b then a else b }
  function Pow2(n: nat): nat { if n == 0 then 1 else 2 * Pow2(n - 1) }

  function BackoffBase(attempt: nat): real {
    Min(30.0 * (Pow2(if attempt == 0 then 0 else attempt - 1) as real), 21_600.0)
  }

  function AvailableAt(leasedAt: real, attempt: nat, outcome: Outcome, jitter: real): real {
    if outcome.action == TryAgain && attempt < MAX_DELIVERY_ATTEMPTS then
      var wait := if outcome.retryAfter.Some? then outcome.retryAfter.value else BackoffBase(attempt) + jitter;
      leasedAt + Max(1.0, Min(wait, 86_400.0))
    else leasedAt
  }

  // ----- the table invariant -----

  predicate RowOk(r: Row) {
    && Live(r)
    && r.payloadBytes == Utf8Size(r.payload.value) <= MAX_EVENT_BYTES
    && (r.status == Sending <==> r.leaseOwner.Some?)
    && (r.status == Sending <==> r.leaseExpiresAt.Some?)
    && (r.status == Queued ==> r.attempts == 0)
    && (r.status == Retry ==> 1 <= r.attempts < MAX_DELIVERY_ATTEMPTS)
    && (r.status == Sending ==> 1 <= r.attempts)
    && r.priority == 100
    && r.expiresAt == r.createdAt + MAX_EVENT_AGE_SECONDS
  }

  predicate UniqueIds(t: Table) {
    forall i, j :: 0 <= i < j < |t| ==> t[i].eventId != t[j].eventId && t[i].reportId != t[j].reportId
  }

  ghost predicate TableOk(t: Table) {
    && (forall r :: r in t ==> RowOk(r))
    && UniqueIds(t)
    && |t| <= MAX_OUTBOX_EVENTS
    && TotalBytes(t) <= MAX_OUTBOX_BYTES
  }

  lemma {:induction false} FilterTotal(t: Table, p: Row -> bool)
    ensures TotalBytes(Filter(t, p)) <= TotalBytes(t)
  {
    if t != [] {
      FilterTotal(t[1..], p);
    }
  }

  lemma {:induction false} FilterUnique(t: Table, p: Row -> bool)
    requires UniqueIds(t)
    ensures UniqueIds(Filter(t, p))
  {
    if t != [] {
      FilterUnique(t[1..], p);
      var rest := Filter(t[1..], p);
      forall i | 0 <= i < |rest| ensures rest[i].eventId != t[0].eventId && rest[i].reportId != t[0].reportId {
        assert rest[i] in t[1..];
      }
    }
  }

  lemma FilterOk(t: Table, p: Row -> bool)
    requires TableOk(t)
    ensures TableOk(Filter(t, p))
  {
    FilterTotal(t, p);
    FilterUnique(t, p);
  }

  /** No terminal row and no erased payload ever exists, so the clean-up on connect finds nothing. */
  lemma PurgeFindsNothing(t: Table)
    requires TableOk(t)
    ensures Purge(t) == t
  {
    FilterKeepsAll(t, NotLeftover());
  }

  lemma {:induction false} TotalBytesAppend(t: Table, r: Row)
    ensures TotalBytes(t + [r]) == TotalBytes(t) + r.payloadBytes
  {
    if t == [] {
      assert t + [r] == [r];
    } else {
      assert (t + [r])[1..] == t[1..] + [r];
      TotalBytesAppend(t[1..], r);
    }
  }

  lemma {:induction false} TotalBytesOfSameSizes(t: Table, u: Table)
    requires |t| == |u| && forall i :: 0 <= i < |t| ==> t[i].payloadBytes == u[i].payloadBytes
    ensures TotalBytes(t) == TotalBytes(u)
  {
    if t != [] {
      TotalBytesOfSameSizes(t[1..], u[1..]);
    }
  }

  lemma AppendOk(t: Table, r: Row)
    requires TableOk(t) && RowOk(r)
    requires forall x :: x in t ==> x.eventId != r.eventId && x.reportId != r.reportId
    requires |t| < MAX_OUTBOX_EVENTS && TotalBytes(t) + r.payloadBytes <= MAX_OUTBOX_BYTES
    ensures TableOk(t + [r])
  {
    TotalBytesAppend(t, r);
    forall i | 0 <= i < |t| ensures t[i].eventId != r.eventId && t[i].reportId != r.reportId {
      assert t[i] in t;
    }
  }

  /**
    Enqueueing keeps the table within its limits. Whatever it commits holds no row that has
    expired by the time it was given; a refused report leaves the table as it was, including
    rows that had expired.
   */
  lemma EnqueueKeepsTable(t: Table, now: real, reportId: string, payload: string, eventId: string)
    requires TableOk(t)
    ensures var (u, result) := EnqueueEffect(t, now, reportId, payload, eventId);
      && TableOk(u)
      && (result.Failed? ==> u == t)
      && (!result.Failed? ==> forall r :: r in u ==> r.expiresAt > now)
      && (!result.Failed? ==> exists r :: r in u && r.reportId == reportId)
      && (forall r :: r in t && r.expiresAt > now ==> r in u)
  {
    PurgeFindsNothing(t);
    FilterOk(t, NotStaleAt(now));
    var swept := Sweep(t, now);
    FilterKeepsAll(swept, LiveRows());
    if EnqueueEffect(t, now, reportId, payload, eventId).1.Inserted? {
      var row := NewRow(eventId, reportId, payload, now);
      AppendOk(swept, row);
      assert row in swept + [row];
    }
  }

  /** Leasing keeps the table within its limits and commits no row that has expired. */
  lemma LeaseKeepsTable(t: Table, now: real, k: nat, owner: string)
    requires TableOk(t)
    requires IsPick(Sweep(t, now), now, k)
    ensures var swept := Sweep(t, now);
      var u := swept[k := LeaseRow(swept[k], owner, now)];
      TableOk(u) && forall r :: r in u ==> r.expiresAt > now
  {
    FilterOk(t, NotStaleAt(now));
    var swept := Sweep(t, now);
    var u := swept[k := LeaseRow(swept[k], owner, now)];
    TotalBytesOfSameSizes(swept, u);
    forall r | r in u ensures RowOk(r) && r.expiresAt > now {
      var i :| 0 <= i < |u| && u[i] == r;
      assert swept[i] in swept;
    }
  }

  /** A worker that no longer holds the lease it was granted changes nothing. */
  lemma FencedOut(t: Table, eventId: string, owner: string, attempt: nat, availableAt: real, outcome: Outcome)
    requires TableOk(t)
    requires forall r :: r in t ==> !Held(r, eventId, owner)
    ensures RecordEffect(t, eventId, owner, attempt, availableAt, outcome) == t
  {
    PurgeFindsNothing(t);
    FilterKeepsAll(t, NotHeldBy(eventId, owner));
    assert forall i :: 0 <= i < |t| ==> t[i] in t;
  }

  lemma ReleaseOk(t: Table, eventId: string, owner: string, attempt: nat, availableAt: real, outcome: Outcome)
    requires TableOk(t) && attempt < MAX_DELIVERY_ATTEMPTS
    requires forall r :: r in t && Held(r, eventId, owner) ==> r.attempts == attempt
    ensures TableOk(ReleaseHeld(t, eventId, owner, availableAt, outcome))
  {
    var u := ReleaseHeld(t, eventId, owner, availableAt, outcome);
    TotalBytesOfSameSizes(t, u);
    forall i | 0 <= i < |u| ensures RowOk(u[i]) && u[i].eventId == t[i].eventId && u[i].reportId == t[i].reportId {
      assert t[i] in t;
    }
  }

  lemma RecordKeepsTable(t: Table, eventId: string, owner: string, attempt: nat, availableAt: real, outcome: Outcome)
    requires TableOk(t)
    requires forall r :: r in t && Held(r, eventId, owner) ==> r.attempts == attempt
    ensures TableOk(RecordEffect(t, eventId, owner, attempt, availableAt, outcome))
  {
    PurgeFindsNothing(t);
    if FinalStatus(outcome.action, attempt) == Retry {
      ReleaseOk(t, eventId, owner, attempt, availableAt, outcome);
    } else {
      FilterOk(t, NotHeldBy(eventId, owner));
    }
  }

  /** Whatever delay the server asks for, a released event is never due before its lease began plus a second. */
  lemma ReleasedLater(leasedAt: real, attempt: nat, outcome: Outcome, jitter: real)
    requires FinalStatus(outcome.action, attempt) == Retry
    ensures leasedAt + 1.0 <= AvailableAt(leasedAt, attempt, outcome, jitter) <= leasedAt + 86_400.0
  {
  }
}

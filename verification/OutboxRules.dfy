/** What the three outbox transactions do to single rows, spelled out field by field and second by second. */
module OutboxRules {
  import opened Seqs
  import opened Utf8
  import opened OutboxTable

  // ----- enqueue -----

  function Unexpired(now: real): Row -> bool { (r: Row) => r.expiresAt > now }

  lemma {:induction false} SameFilter(t: Table, p: Row -> bool, q: Row -> bool)
    requires forall r :: r in t ==> p(r) == q(r)
    ensures Filter(t, p) == Filter(t, q)
  {
    if t != [] {
      assert t[0] in t;
      SameFilter(t[1..], p, q);
    }
  }

  /** In a sound table the sweep keeps exactly the rows that have not expired. */
  lemma SweepKeepsUnexpired(t: Table, now: real)
    requires TableOk(t)
    ensures Sweep(Purge(t), now) == Sweep(t, now) == Filter(t, Unexpired(now))
  {
    PurgeFindsNothing(t);
    SameFilter(t, NotStaleAt(now), Unexpired(now));
  }

  lemma {:induction false} FoundFirst(t: Table, r: Row)
    requires UniqueIds(t) && r in t
    ensures FindReport(t, r.reportId) == Some(r)
  {
    if t[0] != r {
      var i :| 0 < i < |t| && t[i] == r;
      assert t[1..][i - 1] == r;
      FoundFirst(t[1..], r);
    }
  }

  /**
    A report whose row has not expired is answered with that row. Otherwise it is refused if its payload is
    over 128 KiB, if 1000 rows or 50 MiB are live, or if the event id is taken, in this order; and if not, one
    queued row is appended that holds the payload, is due at once and lives for seven days.
   */
  lemma EnqueueRules(t: Table, now: real, reportId: string, payload: string, eventId: string)
    requires TableOk(t)
    ensures var (u, result) := EnqueueEffect(t, now, reportId, payload, eventId);
      var live := Filter(t, Unexpired(now));
      var bytes := |Encode(payload)|;
      && (forall r :: r in live && r.reportId == reportId ==>
        u == live && result == Existing(r.status, r.eventId, r.receiptId))
      && ((forall r :: r in live ==> r.reportId != reportId) ==>
        && (bytes > 131_072 ==> u == t && result == Failed(PayloadTooLarge))
        && (bytes <= 131_072 && (|live| >= 1_000 || TotalBytes(live) + bytes > 52_428_800) ==>
          u == t && result == Failed(OutboxFull))
        && (bytes <= 131_072 && |live| < 1_000 && TotalBytes(live) + bytes <= 52_428_800 ==>
          if exists r :: r in live && r.eventId == eventId then u == t && result == Failed(DuplicateEventId)
          else
            && result == Inserted(eventId)
            && u == live + [Row(eventId, reportId, Some(payload), bytes, 100, Queued, 0, now, None, None, now,
              now + 604_800.0, None, None)]))
  {
    SweepKeepsUnexpired(t, now);
    PurgeFindsNothing(t);
    FilterOk(t, NotStaleAt(now));
    var live := Filter(t, Unexpired(now));
    FilterKeepsAll(live, LiveRows());
    forall r | r in live && r.reportId == reportId ensures FindReport(live, reportId) == Some(r) {
      FoundFirst(live, r);
    }
  }

  // ----- lease -----

  /** A row is due if it waits and its time has come, or if it is being sent and its lease has run out. */
  predicate ComesUp(r: Row, now: real) {
    match r.status
    case Queued => r.availableAt <= now
    case Retry => r.availableAt <= now
    case Sending => r.leaseExpiresAt.Some? && r.leaseExpiresAt.value <= now
    case _ => false
  }

  lemma DueComesUp(t: Table, now: real)
    requires TableOk(t)
    ensures forall r :: r in t ==> Due(r, now) == ComesUp(r, now)
  {
  }

  lemma NothingComesUp(t: Table, now: real)
    requires TableOk(t)
    ensures NothingDue(Sweep(t, now), now) <==> forall r :: r in t && r.expiresAt > now ==> !ComesUp(r, now)
  {
    SweepKeepsUnexpired(t, now);
    FilterOk(t, NotStaleAt(now));
    DueComesUp(Sweep(t, now), now);
    assert forall r :: r in Sweep(t, now) <==> r in t && r.expiresAt > now;
  }

  lemma Replaced(t: Table, k: nat, r: Row)
    requires k < |t|
    ensures t[k := r] == t[..k] + [r] + t[k + 1..]
  {
  }

  lemma PickIsOldest(live: Table, now: real, k: nat)
    requires TableOk(live) && IsPick(live, now, k)
    ensures ComesUp(live[k], now) && forall r :: r in live && ComesUp(r, now) ==> live[k].createdAt <= r.createdAt
  {
    DueComesUp(live, now);
    assert live[k] in live;
    forall r | r in live && ComesUp(r, now) ensures live[k].createdAt <= r.createdAt {
      var i :| 0 <= i < |live| && live[i] == r;
      assert NotBehind(live[k], live[i]);
    }
  }

  /**
    The leased row is the oldest of those that come up and have not expired. It is being sent from now on, one
    attempt later, by this owner and for sixty seconds; every other row that has not expired stays as it was.
   */
  lemma LeaseRules(t: Table, now: real, owner: string, k: nat)
    requires TableOk(t) && IsPick(Sweep(t, now), now, k)
    ensures var live := Filter(t, Unexpired(now));
      var leased := LeaseRow(Sweep(t, now)[k], owner, now);
      && k < |live| && ComesUp(live[k], now)
      && (forall r :: r in live && ComesUp(r, now) ==> live[k].createdAt <= r.createdAt)
      && leased == live[k].(status := Sending, attempts := live[k].attempts + 1, leaseOwner := Some(owner),
        leaseExpiresAt := Some(now + 60.0))
      && Sweep(t, now)[k := leased] == live[..k] + [leased] + live[k + 1..]
  {
    SweepKeepsUnexpired(t, now);
    FilterOk(t, NotStaleAt(now));
    var live := Filter(t, Unexpired(now));
    PickIsOldest(live, now, k);
    Replaced(live, k, LeaseRow(live[k], owner, now));
  }

  // ----- record -----

  lemma {:induction false} WithoutHeld(t: Table, k: nat, eventId: string, owner: string)
    requires k < |t| && forall i :: 0 <= i < |t| ==> (Held(t[i], eventId, owner) <==> i == k)
    ensures Filter(t, NotHeldBy(eventId, owner)) == t[..k] + t[k + 1..]
  {
    assert t[..k] + ([t[k]] + t[k + 1..]) == t;
    FilterAppend(t[..k], [t[k]] + t[k + 1..], NotHeldBy(eventId, owner));
    FilterKeepsAll(t[..k], NotHeldBy(eventId, owner));
    FilterKeepsAll(t[k + 1..], NotHeldBy(eventId, owner));
    assert ([t[k]] + t[k + 1..])[1..] == t[k + 1..];
  }

  /**
    The outcome of a held row: after an acknowledgement, a rejection or a fourth attempt the row is cut out;
    else it stays in its place as a retry without a lease. Its payload, attempts and times are kept.
   */
  lemma RecordRules(t: Table, k: nat, availableAt: real, outcome: Outcome)
    requires TableOk(t) && k < |t| && t[k].status == Sending && t[k].leaseOwner.Some?
    ensures RecordEffect(t, t[k].eventId, t[k].leaseOwner.value, t[k].attempts, availableAt, outcome)
      == if outcome.action == TryAgain && t[k].attempts < 4
        then t[k := t[k].(status := Retry, availableAt := availableAt, leaseOwner := None, leaseExpiresAt := None,
          lastError := Some(outcome.code), receiptId := outcome.receiptId)]
        else t[..k] + t[k + 1..]
  {
    PurgeFindsNothing(t);
    var eventId, owner := t[k].eventId, t[k].leaseOwner.value;
    assert forall i :: 0 <= i < |t| ==> (Held(t[i], eventId, owner) <==> i == k);
    if outcome.action != TryAgain || t[k].attempts >= 4 {
      WithoutHeld(t, k, eventId, owner);
    }
  }

  // ----- the delay -----

  /**
    A retry waits as long as the server asks for, or half a minute, one minute or two behind the first, second
    and third attempt and some jitter; in any case at least a second and at most a day.
   */
  lemma RetryDelays(leasedAt: real, attempt: nat, outcome: Outcome, jitter: real)
    requires outcome.action == TryAgain && 1 <= attempt <= 3
    ensures var wait := if outcome.retryAfter.Some? then outcome.retryAfter.value
        else jitter + (if attempt == 1 then 30.0 else if attempt == 2 then 60.0 else 120.0);
      AvailableAt(leasedAt, attempt, outcome, jitter)
        == leasedAt + (if wait < 1.0 then 1.0 else if wait > 86_400.0 then 86_400.0 else wait)
  {
    assert Pow2(0) == 1 && Pow2(1) == 2 && Pow2(2) == 4;
  }
}

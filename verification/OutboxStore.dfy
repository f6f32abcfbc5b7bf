/** The outbox as its callers see it: one object whose methods are the committed transactions. */
module OutboxStore {
  import opened Seqs
  import opened Utf8
  import opened OutboxTable
  import opened OutboxRules

  /** The query's first row, leased in place and handed to the worker. */
  ghost predicate Leased(swept: Table, now: real, owner: string, k: nat, after: Table, leased: Row) {
    IsPick(swept, now, k) && after == swept[k := LeaseRow(swept[k], owner, now)] && leased == after[k]
  }

  /** What one undisturbed worker turn makes of the row it leased. */
  ghost predicate TurnDone(before: Row, after: Table, now: real, owner: string, outcome: Outcome, jitter: real) {
    var attempt := before.attempts + 1;
    if FinalStatus(outcome.action, attempt) != Retry
    then forall r :: r in after ==> r.eventId != before.eventId
    else ReleaseRow(LeaseRow(before, owner, now), AvailableAt(now, attempt, outcome, jitter), outcome) in after
  }

  lemma OnlyTheLeasedIsHeld(swept: Table, k: nat, now: real, owner: string)
    requires k < |swept| && forall r :: r in swept ==> r.leaseOwner != Some(owner)
    ensures var row := LeaseRow(swept[k], owner, now);
      var between := swept[k := row];
      && (forall i :: 0 <= i < |between| ==> (Held(between[i], row.eventId, owner) <==> i == k))
      && (forall r :: r in between && Held(r, row.eventId, owner) ==> r.attempts == row.attempts)
      && forall r :: r in swept && r.eventId != row.eventId ==> r in between
  {
    var row := LeaseRow(swept[k], owner, now);
    var between := swept[k := row];
    forall i | 0 <= i < |between| ensures Held(between[i], row.eventId, owner) <==> i == k {
      assert swept[i] in swept;
    }
    forall r | r in swept && r.eventId != row.eventId ensures r in between {
      var i :| 0 <= i < |swept| && swept[i] == r;
      assert between[i] == r;
    }
  }

  lemma TurnEnds(between: Table, k: nat, before: Row, now: real, owner: string, outcome: Outcome, jitter: real)
    requires TableOk(between) && k < |between| && between[k] == LeaseRow(before, owner, now)
    requires forall i :: 0 <= i < |between| ==> (Held(between[i], before.eventId, owner) <==> i == k)
    ensures var attempt := before.attempts + 1;
      var after := RecordEffect(between, before.eventId, owner, attempt, AvailableAt(now, attempt, outcome, jitter),
        outcome);
      && TurnDone(before, after, now, owner, outcome, jitter)
      && forall r :: r in between && r.eventId != before.eventId ==> r in after
  {
    var attempt := before.attempts + 1;
    PurgeFindsNothing(between);
    if FinalStatus(outcome.action, attempt) == Retry {
      ReleasedOnce(between, k, before.eventId, owner, AvailableAt(now, attempt, outcome, jitter), outcome);
    } else {
      RemovedOnce(between, k, before.eventId, owner);
    }
  }

  lemma ReleasedOnce(t: Table, k: nat, eventId: string, owner: string, availableAt: real, outcome: Outcome)
    requires k < |t| && forall i :: 0 <= i < |t| ==> (Held(t[i], eventId, owner) <==> i == k)
    ensures var after := ReleaseHeld(t, eventId, owner, availableAt, outcome);
      && ReleaseRow(t[k], availableAt, outcome) in after
      && forall r :: r in t && r.eventId != eventId ==> r in after
  {
    var after := ReleaseHeld(t, eventId, owner, availableAt, outcome);
    assert after[k] == ReleaseRow(t[k], availableAt, outcome);
    forall r | r in t && r.eventId != eventId ensures r in after {
      var i :| 0 <= i < |t| && t[i] == r;
      assert after[i] == r;
    }
  }

  lemma RemovedOnce(t: Table, k: nat, eventId: string, owner: string)
    requires k < |t| && UniqueIds(t) && Held(t[k], eventId, owner)
    ensures var after := Filter(t, NotHeldBy(eventId, owner));
      && (forall r :: r in after ==> r.eventId != eventId)
      && forall r :: r in t && r.eventId != eventId ==> r in after
  {
    forall r | r in t && r.eventId == eventId ensures r == t[k] {
      var i :| 0 <= i < |t| && t[i] == r;
    }
  }

  /** Rows that were not leased and have not expired are as they were. */
  ghost predicate OthersKept(before: Table, after: Table, now: real, leased: string) {
    forall r :: r in before && r.expiresAt > now && r.eventId != leased ==> r in after
  }

  lemma OneTurn(t: Table, k: nat, now: real, owner: string, between: Table, row: Row, outcome: Outcome, jitter: real)
    requires TableOk(t) && forall r :: r in t ==> r.leaseOwner != Some(owner)
    requires Leased(Sweep(t, now), now, owner, k, between, row) && TableOk(between)
    ensures var before := Sweep(t, now)[k];
      && before in t && before.expiresAt > now && row == LeaseRow(before, owner, now) && Due(before, now)
    ensures forall r :: r in between && Held(r, row.eventId, owner) ==> r.attempts == row.attempts
    ensures var after := RecordEffect(between, row.eventId, owner, row.attempts,
      AvailableAt(now, row.attempts, outcome, jitter), outcome);
      TurnDone(Sweep(t, now)[k], after, now, owner, outcome, jitter) && OthersKept(t, after, now, row.eventId)
  {
    var swept := Sweep(t, now);
    var after := RecordEffect(between, row.eventId, owner, row.attempts,
      AvailableAt(now, row.attempts, outcome, jitter), outcome);
    assert swept[k] in swept;
    OnlyTheLeasedIsHeld(swept, k, now, owner);
    TurnEnds(between, k, swept[k], now, owner, outcome, jitter);
    forall r | r in t && r.expiresAt > now && r.eventId != row.eventId ensures r in after {
      assert r in swept;
      assert r in between;
    }
  }

  /** The end of an undisturbed turn, by what the request came to and how often it was made. */
  lemma TurnRules(before: Row, after: Table, now: real, owner: string, outcome: Outcome, jitter: real)
    requires TurnDone(before, after, now, owner, outcome, jitter)
    ensures outcome.action == Ack || outcome.action == Reject || before.attempts >= 3 ==>
      forall r :: r in after ==> r.eventId != before.eventId
    ensures outcome.action == TryAgain && before.attempts < 3 ==>
      before.(status := Retry, attempts := before.attempts + 1,
        availableAt := AvailableAt(now, before.attempts + 1, outcome, jitter), leaseOwner := None,
        leaseExpiresAt := None, lastError := Some(outcome.code), receiptId := outcome.receiptId) in after
  {
  }

  /** What a recorded outcome makes of the row it is for. */
  lemma RecordOfRow(t: Table, r: Row, availableAt: real, outcome: Outcome)
    requires TableOk(t) && r in t && r.status == Sending && r.leaseOwner.Some?
    ensures var after := RecordEffect(t, r.eventId, r.leaseOwner.value, r.attempts, availableAt, outcome);
      && ((forall x :: x in after ==> x.eventId != r.eventId) <==> outcome.action != TryAgain || r.attempts >= 4)
      && (outcome.action == TryAgain && r.attempts < 4 ==>
        r.(status := Retry, availableAt := availableAt, leaseOwner := None, leaseExpiresAt := None,
          lastError := Some(outcome.code), receiptId := outcome.receiptId) in after)
  {
    var k :| 0 <= k < |t| && t[k] == r;
    RecordRules(t, k, availableAt, outcome);
    var after := RecordEffect(t, r.eventId, r.leaseOwner.value, r.attempts, availableAt, outcome);
    if outcome.action == TryAgain && r.attempts < 4 {
      assert after[k].eventId == r.eventId;
    } else {
      assert forall x :: x in after ==> x in t[..k] || x in t[k + 1..];
    }
  }

  class Outbox {
    var rows: Table

    constructor ()
      ensures rows == [] && TableOk(rows)
    {
      rows := [];
    }

    method Enqueue(now: real, reportId: string, payload: string, eventId: string) returns (result: EnqueueResult)
      requires TableOk(rows)
      modifies this
      ensures TableOk(rows)
      ensures (rows, result) == EnqueueEffect(old(rows), now, reportId, payload, eventId)
      ensures result.Failed? ==> rows == old(rows)
      ensures !result.Failed? ==>
        (exists r :: r in rows && r.reportId == reportId) && forall r :: r in rows ==> r.expiresAt > now
    {
      EnqueueKeepsTable(rows, now, reportId, payload, eventId);
      rows := Purge(rows);
      var committed := rows;
      rows := Sweep(rows, now);
      var existing := FindReport(rows, reportId);
      if existing.Some? {
        return Existing(existing.value.status, existing.value.eventId, existing.value.receiptId);
      }
      var bytes := Utf8Size(payload);
      if bytes > MAX_EVENT_BYTES {
        rows := committed;
        return Failed(PayloadTooLarge);
      }
      if !HasRoomFor(rows, bytes) {
        rows := committed;
        return Failed(OutboxFull);
      }
      if exists r :: r in rows && r.eventId == eventId {
        rows := committed;
        return Failed(DuplicateEventId);
      }
      rows := rows + [NewRow(eventId, reportId, payload, now)];
      result := Inserted(eventId);
    }

    method LeaseNext(now: real, owner: string) returns (leased: Option<Row>)
      requires TableOk(rows)
      modifies this
      ensures TableOk(rows)
      ensures forall r :: r in rows ==> r.expiresAt > now
      ensures var swept := Sweep(old(rows), now);
        if NothingDue(swept, now) then rows == swept && leased == None
        else leased.Some? && exists k: nat :: Leased(swept, now, owner, k, rows, leased.value)
    {
      PurgeFindsNothing(rows);
      FilterOk(rows, NotStaleAt(now));
      rows := Sweep(Purge(rows), now);
      if forall r :: r in rows ==> !Due(r, now) {
        return None;
      }
      ghost var chosen := SomePick(rows, now);
      var k: nat :| k < |rows| && IsPick(rows, now, k);
      LeaseKeepsTable(old(rows), now, k, owner);
      rows := rows[k := LeaseRow(rows[k], owner, now)];
      leased := Some(rows[k]);
      assert Leased(Sweep(old(rows), now), now, owner, k, rows, leased.value);
    }

    method RecordOutcome(eventId: string, owner: string, outcome: Outcome, attempt: nat, availableAt: real)
      returns (status: Status)
      requires TableOk(rows)
      requires forall r :: r in rows && Held(r, eventId, owner) ==> r.attempts == attempt
      modifies this
      ensures TableOk(rows)
      ensures rows == RecordEffect(old(rows), eventId, owner, attempt, availableAt, outcome)
      ensures (forall r :: r in old(rows) ==> !Held(r, eventId, owner)) ==> rows == old(rows)
      ensures forall r ::
        r in old(rows) && r.eventId == eventId && r.status == Sending && r.leaseOwner == Some(owner) ==>
        ((forall x :: x in rows ==> x.eventId != eventId) <==> outcome.action != TryAgain || r.attempts >= 4)
      ensures forall r ::
        r in old(rows) && r.eventId == eventId && r.status == Sending && r.leaseOwner == Some(owner) ==>
        outcome.action == TryAgain && r.attempts < 4 ==>
        r.(status := Retry, availableAt := availableAt, leaseOwner := None, leaseExpiresAt := None,
          lastError := Some(outcome.code), receiptId := outcome.receiptId) in rows
      ensures status == match outcome.action
        case Ack => Delivered
        case Reject => Rejected
        case TryAgain => if attempt >= 4 then DeadLetter else Retry
    {
      forall r | r in rows && r.eventId == eventId && r.status == Sending && r.leaseOwner == Some(owner) {
        RecordOfRow(rows, r, availableAt, outcome);
      }
      RecordKeepsTable(rows, eventId, owner, attempt, availableAt, outcome);
      if forall r :: r in rows ==> !Held(r, eventId, owner) {
        FencedOut(rows, eventId, owner, attempt, availableAt, outcome);
      }
      status := FinalStatus(outcome.action, attempt);
      rows := Purge(rows);
      if status in {Delivered, Rejected, DeadLetter} {
        rows := Filter(rows, NotHeldBy(eventId, owner));
      } else {
        rows := ReleaseHeld(rows, eventId, owner, availableAt, outcome);
      }
    }

    /**
      One worker turn that nobody interrupts. `outcome` is what the request came to; a request
      that raised counts as `TryAgain`. The leased event is then either gone or back in 'retry'
      with one more attempt; every row that was not leased and has not expired is as it was.
     */
    method ProcessOnce(now: real, owner: string, outcome: Outcome, jitter: real) returns (eventId: Option<string>)
      requires TableOk(rows)
      requires forall r :: r in rows ==> r.leaseOwner != Some(owner)
      modifies this
      ensures TableOk(rows)
      ensures eventId.None? <==> NothingDue(Sweep(old(rows), now), now)
      ensures eventId.Some? ==>
        exists before ::
          && before in old(rows) && before.eventId == eventId.value
          && Due(before, now) && before.expiresAt > now
          && TurnDone(before, rows, now, owner, outcome, jitter)
      ensures eventId.Some? ==> OthersKept(old(rows), rows, now, eventId.value)
    {
      var leased := LeaseNext(now, owner);
      if leased.None? {
        return None;
      }
      ghost var swept := Sweep(old(rows), now);
      ghost var k: nat :| Leased(swept, now, owner, k, rows, leased.value);
      var row := leased.value;
      OneTurn(old(rows), k, now, owner, rows, row, outcome, jitter);
      var _ := RecordOutcome(row.eventId, owner, outcome, row.attempts,
        AvailableAt(now, row.attempts, outcome, jitter));
      eventId := Some(row.eventId);
    }
  }
}

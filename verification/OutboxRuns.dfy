/**
  Any number of workers and enqueuing callers sharing one outbox. A step is one committed
  transaction; a worker keeps its ticket (the lease it was granted) and may record an outcome for
  it at any later time, or never, which is what a crash looks like from the table. The time a step
  carries is the one its caller read before the transaction, so steps may commit out of time order.
 */
module OutboxRuns {
  import opened Seqs
  import opened OutboxTable

  /** A granted lease. `reclaimed`: taken over from a 'sending' row. `settled`: its outcome took effect. */
  datatype Lease = Lease(
    eventId: string, owner: string, attempt: nat, start: real, reclaimed: bool, settled: bool)

  /** A row deleted by an expiry sweep, and the time of the step that swept it. */
  datatype Expiry = Expiry(row: Row, at: real)

  /** `removed` and `expired` are history: the events that outcomes and sweeps took out of the table. */
  datatype World = World(
    rows: Table, leases: seq<Lease>, removed: seq<string>, expired: seq<Expiry>,
    usedEvents: set<string>, usedOwners: set<string>)

  datatype Step =
    | EnqueueStep(now: real, reportId: string, payload: string, eventId: string)
    | IdleStep(now: real)
    | LeaseStep(now: real, owner: string, pick: nat)
    | RecordStep(ticket: nat, outcome: Outcome, jitter: real)

  const Initial := World([], [], [], [], {}, {})

  /** What a sweep at this time deletes. */
  function Expiries(t: Table, now: real): seq<Expiry> {
    if t == [] then [] else (if Stale(t[0], now) then [Expiry(t[0], now)] else []) + Expiries(t[1..], now)
  }

  ghost predicate CanStep(w: World, s: Step) {
    match s
    case EnqueueStep(_, _, _, eventId) => eventId !in w.usedEvents
    case IdleStep(now) => NothingDue(Sweep(w.rows, now), now)
    case LeaseStep(now, owner, k) => owner !in w.usedOwners && IsPick(Sweep(w.rows, now), now, k)
    case RecordStep(i, _, _) => i < |w.leases|
  }

  ghost predicate Holds(w: World, i: nat)
    requires i < |w.leases|
  {
    exists r :: r in w.rows && Held(r, w.leases[i].eventId, w.leases[i].owner)
  }

  ghost function Next(w: World, s: Step): World
    requires CanStep(w, s)
  {
    match s
    case EnqueueStep(now, reportId, payload, eventId) =>
      var (rows, result) := EnqueueEffect(w.rows, now, reportId, payload, eventId);
      w.(rows := rows,
         expired := if result.Failed? then w.expired else w.expired + Expiries(Purge(w.rows), now),
         usedEvents := if result.Inserted? then w.usedEvents + {eventId} else w.usedEvents)
    case IdleStep(now) => w.(rows := Sweep(Purge(w.rows), now), expired := w.expired + Expiries(Purge(w.rows), now))
    case LeaseStep(now, owner, k) =>
      var swept := Sweep(w.rows, now);
      var row := swept[k];
      w.(rows := swept[k := LeaseRow(row, owner, now)],
         expired := w.expired + Expiries(w.rows, now),
         leases := w.leases + [NewLease(row, owner, now)],
         usedOwners := w.usedOwners + {owner})
    case RecordStep(i, outcome, jitter) =>
      var l := w.leases[i];
      var availableAt := AvailableAt(l.start, l.attempt, outcome, jitter);
      var rows := RecordEffect(w.rows, l.eventId, l.owner, l.attempt, availableAt, outcome);
      if !Holds(w, i) then w.(rows := rows)
      else w.(
        rows := rows,
        leases := w.leases[i := l.(settled := true)],
        removed := if FinalStatus(outcome.action, l.attempt) == Retry then w.removed else w.removed + [l.eventId])
  }

  /** Worlds and the steps between them, from an empty outbox on. */
  ghost predicate IsRun(ws: seq<World>, ss: seq<Step>) {
    && |ws| == |ss| + 1
    && ws[0] == Initial
    && forall i :: 0 <= i < |ss| ==> CanStep(ws[i], ss[i]) && ws[i + 1] == Next(ws[i], ss[i])
  }

  ghost predicate Reachable(w: World) {
    exists ws, ss :: IsRun(ws, ss) && ws[|ss|] == w
  }

  // ----- counting leases -----

  function Leases(ls: seq<Lease>, e: string): nat {
    if ls == [] then 0
    else Leases(ls[..|ls| - 1], e) + if ls[|ls| - 1].eventId == e then 1 else 0
  }

  function Reclaims(ls: seq<Lease>, e: string): nat {
    if ls == [] then 0
    else Reclaims(ls[..|ls| - 1], e) + if ls[|ls| - 1].eventId == e && ls[|ls| - 1].reclaimed then 1 else 0
  }

  function Settled(ls: seq<Lease>, e: string): nat {
    if ls == [] then 0
    else Settled(ls[..|ls| - 1], e) + if ls[|ls| - 1].eventId == e && ls[|ls| - 1].settled then 1 else 0
  }

  /** The index of the latest lease on an event, or -1. */
  function Latest(ls: seq<Lease>, e: string): (k: int)
    ensures -1 <= k < |ls|
    ensures k >= 0 ==> ls[k].eventId == e
    ensures forall i :: k < i < |ls| ==> ls[i].eventId != e
  {
    if ls == [] then -1
    else if ls[|ls| - 1].eventId == e then |ls| - 1
    else Latest(ls[..|ls| - 1], e)
  }

  lemma {:induction false} SettlingChangesNoCount(ls: seq<Lease>, i: nat, e: string)
    requires i < |ls|
    ensures var us := ls[i := ls[i].(settled := true)];
      Leases(us, e) == Leases(ls, e) && Reclaims(us, e) == Reclaims(ls, e) && Latest(us, e) == Latest(ls, e)
  {
    var n := |ls| - 1;
    var us := ls[i := ls[i].(settled := true)];
    if i < n {
      SettlingChangesNoCount(ls[..n], i, e);
      assert us[..n] == ls[..n][i := ls[i].(settled := true)];
    } else {
      assert us[..n] == ls[..n];
    }
  }

  lemma {:induction false} NoLeaseNoCount(ls: seq<Lease>, e: string)
    requires forall l :: l in ls ==> l.eventId != e
    ensures Leases(ls, e) == 0 && Reclaims(ls, e) == 0
  {
    if ls != [] {
      assert ls[|ls| - 1] in ls;
      NoLeaseNoCount(ls[..|ls| - 1], e);
    }
  }

  lemma {:induction false} SettledWithin(ls: seq<Lease>, e: string, k: int)
    requires -1 <= k < |ls|
    requires k >= 0 ==> ls[k].eventId == e && !ls[k].settled
    ensures Settled(ls, e) <= Leases(ls, e) - if k >= 0 then 1 else 0
  {
    if ls != [] {
      var n := |ls| - 1;
      SettledWithin(ls[..n], e, if k == n then -1 else k);
    }
  }

  // ----- the invariant -----

  /** The time before which the event cannot be leased again. */
  function Floor(r: Row, ls: seq<Lease>): real {
    if r.status == Sending && Latest(ls, r.eventId) >= 0 then ls[Latest(ls, r.eventId)].start else r.availableAt
  }

  /** The ticket that still holds the row. */
  ghost predicate Current(r: Row, ls: seq<Lease>, i: nat) {
    r.status == Sending && i == Latest(ls, r.eventId)
  }

  ghost predicate Over(l: Lease, t: real) {
    l.settled || l.start + DELIVERY_LEASE_SECONDS <= t
  }

  ghost predicate Linked(r: Row, ls: seq<Lease>) {
    && r.attempts == Leases(ls, r.eventId)
    && (r.status == Sending ==>
      var k := Latest(ls, r.eventId);
      && k >= 0
      && r.leaseOwner == Some(ls[k].owner)
      && r.leaseExpiresAt == Some(ls[k].start + DELIVERY_LEASE_SECONDS)
      && ls[k].attempt == r.attempts
      && !ls[k].settled)
    && forall i :: 0 <= i < |ls| && ls[i].eventId == r.eventId && !Current(r, ls, i) ==> Over(ls[i], Floor(r, ls))
  }

  ghost predicate LeasesApart(ls: seq<Lease>) {
    forall i, j :: 0 <= i < j < |ls| && ls[i].eventId == ls[j].eventId ==> Over(ls[i], ls[j].start)
  }

  ghost predicate Bounded(ls: seq<Lease>) {
    forall e :: Leases(ls, e) <= MAX_DELIVERY_ATTEMPTS + Reclaims(ls, e)
  }

  ghost predicate RowsLinked(rows: Table, ls: seq<Lease>, usedEvents: set<string>) {
    forall r :: r in rows ==> r.eventId in usedEvents && Linked(r, ls)
  }

  ghost predicate LogOk(ls: seq<Lease>, usedEvents: set<string>, usedOwners: set<string>) {
    && (forall l :: l in ls ==> l.eventId in usedEvents && l.owner in usedOwners)
    && (forall i, j :: 0 <= i < j < |ls| ==> ls[i].owner != ls[j].owner)
    && LeasesApart(ls)
    && Bounded(ls)
  }

  ghost predicate RemovedOk(removed: seq<string>, rows: Table, usedEvents: set<string>) {
    && (forall e :: e in removed ==> e in usedEvents && forall r :: r in rows ==> r.eventId != e)
    && Distinct(removed)
  }

  ghost predicate Inv(w: World) {
    && TableOk(w.rows)
    && RowsLinked(w.rows, w.leases, w.usedEvents)
    && LogOk(w.leases, w.usedEvents, w.usedOwners)
    && RemovedOk(w.removed, w.rows, w.usedEvents)
  }

  lemma NewRowLinked(ls: seq<Lease>, s: Step, usedEvents: set<string>)
    requires s.EnqueueStep? && s.eventId !in usedEvents && forall l :: l in ls ==> l.eventId in usedEvents
    ensures Linked(NewRow(s.eventId, s.reportId, s.payload, s.now), ls)
  {
    NoLeaseNoCount(ls, s.eventId);
  }

  lemma EnqueuedRows(w: World, s: Step)
    requires Inv(w) && s.EnqueueStep? && CanStep(w, s)
    ensures forall r :: r in Next(w, s).rows ==>
      r in w.rows || (r == NewRow(s.eventId, s.reportId, s.payload, s.now) && s.eventId in Next(w, s).usedEvents)
  {
    PurgeFindsNothing(w.rows);
  }

  lemma EnqueueStepInv(w: World, s: Step)
    requires Inv(w) && s.EnqueueStep? && CanStep(w, s)
    ensures Inv(Next(w, s))
  {
    EnqueueKeepsTable(w.rows, s.now, s.reportId, s.payload, s.eventId);
    EnqueuedRows(w, s);
    NewRowLinked(w.leases, s, w.usedEvents);
  }

  lemma IdleStepInv(w: World, s: Step)
    requires Inv(w) && s.IdleStep? && CanStep(w, s)
    ensures Inv(Next(w, s))
  {
    PurgeFindsNothing(w.rows);
    FilterOk(w.rows, NotStaleAt(s.now));
  }

  /** A new lease of one event leaves the links of every other event alone. */
  lemma LinkedElsewhere(r: Row, ls: seq<Lease>, l: Lease)
    requires Linked(r, ls) && l.eventId != r.eventId
    ensures Linked(r, ls + [l])
  {
    assert (ls + [l])[..|ls|] == ls;
  }

  function NewLease(r: Row, owner: string, now: real): Lease {
    Lease(r.eventId, owner, r.attempts + 1, now, r.status == Sending, false)
  }

  lemma EarlierLeasesOver(r: Row, ls: seq<Lease>, now: real)
    requires RowOk(r) && Linked(r, ls) && Due(r, now)
    ensures forall i :: 0 <= i < |ls| && ls[i].eventId == r.eventId ==> Over(ls[i], now)
  {
    forall i | 0 <= i < |ls| && ls[i].eventId == r.eventId ensures Over(ls[i], now) {
      if !Current(r, ls, i) {
        assert Over(ls[i], Floor(r, ls));
      }
    }
  }

  lemma LinkedAfterLease(r: Row, ls: seq<Lease>, owner: string, now: real)
    requires RowOk(r) && Linked(r, ls) && Due(r, now)
    ensures Linked(LeaseRow(r, owner, now), ls + [NewLease(r, owner, now)])
  {
    assert (ls + [NewLease(r, owner, now)])[..|ls|] == ls;
    EarlierLeasesOver(r, ls, now);
  }

  lemma LogAfterLease(
    r: Row, ls: seq<Lease>, owner: string, now: real, usedEvents: set<string>, usedOwners: set<string>)
    requires RowOk(r) && Linked(r, ls) && Due(r, now) && LogOk(ls, usedEvents, usedOwners)
    requires r.eventId in usedEvents && owner !in usedOwners
    ensures LogOk(ls + [NewLease(r, owner, now)], usedEvents, usedOwners + {owner})
  {
    var us := ls + [NewLease(r, owner, now)];
    EarlierLeasesOver(r, ls, now);
    assert us[..|ls|] == ls;
    forall i | 0 <= i < |ls| ensures us[i].owner in usedOwners {
      assert ls[i] in ls;
    }
    forall e ensures Leases(us, e) <= MAX_DELIVERY_ATTEMPTS + Reclaims(us, e) {
      assert Leases(ls, e) <= MAX_DELIVERY_ATTEMPTS + Reclaims(ls, e);
    }
  }

  lemma RowsAfterLease(rows: Table, ls: seq<Lease>, k: nat, owner: string, now: real, usedEvents: set<string>)
    requires TableOk(rows) && RowsLinked(rows, ls, usedEvents) && k < |rows| && Due(rows[k], now)
    ensures RowsLinked(rows[k := LeaseRow(rows[k], owner, now)], ls + [NewLease(rows[k], owner, now)], usedEvents)
  {
    var us := rows[k := LeaseRow(rows[k], owner, now)];
    LinkedAfterLease(rows[k], ls, owner, now);
    forall r | r in us ensures r.eventId in usedEvents && Linked(r, ls + [NewLease(rows[k], owner, now)]) {
      var i :| 0 <= i < |us| && us[i] == r;
      if i != k {
        assert rows[i] in rows;
        LinkedElsewhere(r, ls, NewLease(rows[k], owner, now));
      }
    }
  }

  lemma LeaseStepInv(w: World, s: Step)
    requires Inv(w) && s.LeaseStep? && CanStep(w, s)
    ensures Inv(Next(w, s))
  {
    var swept := Sweep(w.rows, s.now);
    LeaseKeepsTable(w.rows, s.now, s.pick, s.owner);
    FilterOk(w.rows, NotStaleAt(s.now));
    assert swept[s.pick] in swept;
    LogAfterLease(swept[s.pick], w.leases, s.owner, s.now, w.usedEvents, w.usedOwners);
    RowsAfterLease(swept, w.leases, s.pick, s.owner, s.now, w.usedEvents);
    var us := swept[s.pick := LeaseRow(swept[s.pick], s.owner, s.now)];
    forall e, r | e in w.removed && r in us ensures r.eventId != e {
      var i :| 0 <= i < |us| && us[i] == r;
      assert swept[i] in swept;
    }
  }

  /** The ticket that holds a row is the latest one on its event, and carries its attempt count. */
  lemma HolderIsLatest(w: World, i: nat, r: Row)
    requires Inv(w) && i < |w.leases| && r in w.rows && Held(r, w.leases[i].eventId, w.leases[i].owner)
    ensures Current(r, w.leases, i) && r.attempts == w.leases[i].attempt
  {
    var k := Latest(w.leases, r.eventId);
    assert w.leases[k].owner == w.leases[i].owner;
  }

  lemma LogAfterSettling(ls: seq<Lease>, i: nat, usedEvents: set<string>, usedOwners: set<string>)
    requires LogOk(ls, usedEvents, usedOwners) && i < |ls|
    ensures LogOk(ls[i := ls[i].(settled := true)], usedEvents, usedOwners)
  {
    var us := ls[i := ls[i].(settled := true)];
    forall e ensures Leases(us, e) <= MAX_DELIVERY_ATTEMPTS + Reclaims(us, e) {
      SettlingChangesNoCount(ls, i, e);
      assert Leases(ls, e) <= MAX_DELIVERY_ATTEMPTS + Reclaims(ls, e);
    }
    forall l | l in us ensures l.eventId in usedEvents && l.owner in usedOwners {
      var j :| 0 <= j < |us| && us[j] == l;
      assert ls[j] in ls;
    }
    forall m, n | 0 <= m < n < |us| && us[m].eventId == us[n].eventId ensures Over(us[m], us[n].start) {
      assert Over(ls[m], ls[n].start);
    }
  }

  /** A row that the settled ticket does not hold keeps its links. */
  lemma LinkedAfterSettling(r: Row, ls: seq<Lease>, i: nat)
    requires Linked(r, ls) && i < |ls| && !Current(r, ls, i)
    ensures Linked(r, ls[i := ls[i].(settled := true)])
  {
    SettlingChangesNoCount(ls, i, r.eventId);
    var us := ls[i := ls[i].(settled := true)];
    forall j | 0 <= j < |us| && us[j].eventId == r.eventId && !Current(r, us, j) ensures Over(us[j], Floor(r, us)) {
      assert Over(ls[j], Floor(r, ls));
    }
  }

  lemma LinkedAfterRelease(r: Row, ls: seq<Lease>, i: nat, availableAt: real, outcome: Outcome)
    requires Linked(r, ls) && i < |ls| && Current(r, ls, i) && ls[i].start <= availableAt
    ensures Linked(ReleaseRow(r, availableAt, outcome), ls[i := ls[i].(settled := true)])
  {
    SettlingChangesNoCount(ls, i, r.eventId);
    var u := ReleaseRow(r, availableAt, outcome);
    var us := ls[i := ls[i].(settled := true)];
    forall j | 0 <= j < |us| && us[j].eventId == r.eventId ensures Over(us[j], Floor(u, us)) {
      if j != i {
        assert Over(ls[j], Floor(r, ls));
      }
    }
  }

  lemma RowAfterRelease(w: World, i: nat, r: Row, availableAt: real, outcome: Outcome)
    requires Inv(w) && i < |w.leases| && w.leases[i].start <= availableAt && r in w.rows
    ensures var l := w.leases[i];
      var u := if Held(r, l.eventId, l.owner) then ReleaseRow(r, availableAt, outcome) else r;
      u.eventId in w.usedEvents && u.eventId !in w.removed && Linked(u, w.leases[i := l.(settled := true)])
  {
    var l := w.leases[i];
    assert Linked(r, w.leases);
    if Held(r, l.eventId, l.owner) {
      HolderIsLatest(w, i, r);
      LinkedAfterRelease(r, w.leases, i, availableAt, outcome);
    } else {
      LinkedAfterSettling(r, w.leases, i);
    }
  }

  lemma RowsAfterRelease(w: World, i: nat, availableAt: real, outcome: Outcome)
    requires Inv(w) && i < |w.leases| && w.leases[i].start <= availableAt
    ensures var l := w.leases[i];
      var us := ReleaseHeld(w.rows, l.eventId, l.owner, availableAt, outcome);
      && RowsLinked(us, w.leases[i := l.(settled := true)], w.usedEvents)
      && RemovedOk(w.removed, us, w.usedEvents)
  {
    var l := w.leases[i];
    var us := ReleaseHeld(w.rows, l.eventId, l.owner, availableAt, outcome);
    forall r | r in us
      ensures r.eventId in w.usedEvents && r.eventId !in w.removed && Linked(r, w.leases[i := l.(settled := true)])
    {
      var n :| 0 <= n < |us| && us[n] == r;
      assert w.rows[n] in w.rows;
      RowAfterRelease(w, i, w.rows[n], availableAt, outcome);
    }
  }

  lemma RowsAfterRemoval(w: World, i: nat, held: Row)
    requires Inv(w) && i < |w.leases| && held in w.rows && Held(held, w.leases[i].eventId, w.leases[i].owner)
    ensures var l := w.leases[i];
      var us := Filter(w.rows, NotHeldBy(l.eventId, l.owner));
      && RowsLinked(us, w.leases[i := l.(settled := true)], w.usedEvents)
      && RemovedOk(w.removed + [l.eventId], us, w.usedEvents)
  {
    var l := w.leases[i];
    var us := Filter(w.rows, NotHeldBy(l.eventId, l.owner));
    forall r | r in us ensures r.eventId != l.eventId && Linked(r, w.leases[i := l.(settled := true)]) {
      assert r in w.rows && !Held(r, l.eventId, l.owner);
      var m :| 0 <= m < |w.rows| && w.rows[m] == r;
      var n :| 0 <= n < |w.rows| && w.rows[n] == held;
      assert r.eventId != l.eventId;
      LinkedAfterSettling(r, w.leases, i);
    }
  }

  lemma RecordStepInv(w: World, s: Step)
    requires Inv(w) && s.RecordStep? && CanStep(w, s)
    ensures Inv(Next(w, s))
  {
    var i, l := s.ticket, w.leases[s.ticket];
    var availableAt := AvailableAt(l.start, l.attempt, s.outcome, s.jitter);
    if !Holds(w, i) {
      FencedOut(w.rows, l.eventId, l.owner, l.attempt, availableAt, s.outcome);
    } else {
      forall r | r in w.rows && Held(r, l.eventId, l.owner) ensures r.attempts == l.attempt {
        HolderIsLatest(w, i, r);
      }
      RecordKeepsTable(w.rows, l.eventId, l.owner, l.attempt, availableAt, s.outcome);
      PurgeFindsNothing(w.rows);
      LogAfterSettling(w.leases, i, w.usedEvents, w.usedOwners);
      if FinalStatus(s.outcome.action, l.attempt) == Retry {
        ReleasedLater(l.start, l.attempt, s.outcome, s.jitter);
        RowsAfterRelease(w, i, availableAt, s.outcome);
      } else {
        var held :| held in w.rows && Held(held, l.eventId, l.owner);
        RowsAfterRemoval(w, i, held);
      }
    }
  }

  lemma StepInv(w: World, s: Step)
    requires Inv(w) && CanStep(w, s)
    ensures Inv(Next(w, s))
  {
    match s
    case EnqueueStep(_, _, _, _) => EnqueueStepInv(w, s);
    case IdleStep(_) => IdleStepInv(w, s);
    case LeaseStep(_, _, _) => LeaseStepInv(w, s);
    case RecordStep(_, _, _) => RecordStepInv(w, s);
  }

  lemma {:induction false} RunInv(ws: seq<World>, ss: seq<Step>)
    requires IsRun(ws, ss)
    ensures Inv(ws[|ss|])
  {
    if ss == [] {
      assert Bounded([]);
    } else {
      var n := |ss| - 1;
      RunInv(ws[..n + 1], ss[..n]);
      StepInv(ws[n], ss[n]);
    }
  }

  lemma ReachableInv(w: World)
    requires Reachable(w)
    ensures Inv(w)
  {
    var ws, ss :| IsRun(ws, ss) && ws[|ss|] == w;
    RunInv(ws, ss);
  }

  // ----- what every run keeps -----

  /** Only queued, sending and retry rows, within all three limits, in every interleaving. */
  lemma TableOkInEveryRun(w: World)
    requires Reachable(w)
    ensures TableOk(w.rows)
  {
    ReachableInv(w);
  }

  /**
    The fence. Recording an outcome changes the table exactly when the ticket is the latest one
    granted for its event and that event is still being sent; a ticket whose lease was taken over,
    whose event expired out of the table, or which was settled before, changes nothing.
   */
  lemma RecordTakesEffectOnlyForTheHolder(w: World, i: nat, outcome: Outcome, jitter: real)
    requires Reachable(w) && i < |w.leases|
    ensures Next(w, RecordStep(i, outcome, jitter)).rows != w.rows
      <==> (exists r :: r in w.rows && r.eventId == w.leases[i].eventId && Current(r, w.leases, i))
  {
    ReachableInv(w);
    RecordedRows(w, i, outcome, jitter);
    if r :| r in w.rows && r.eventId == w.leases[i].eventId && Current(r, w.leases, i) {
      HolderTakesEffect(w, i, r, outcome, jitter);
    } else {
      NoHolderNoEffect(w, i, outcome, jitter);
    }
  }

  ghost function Recorded(w: World, i: nat, outcome: Outcome, jitter: real): Table
    requires i < |w.leases|
  {
    var l := w.leases[i];
    RecordEffect(w.rows, l.eventId, l.owner, l.attempt, AvailableAt(l.start, l.attempt, outcome, jitter), outcome)
  }

  lemma RecordedRows(w: World, i: nat, outcome: Outcome, jitter: real)
    requires i < |w.leases|
    ensures Next(w, RecordStep(i, outcome, jitter)).rows == Recorded(w, i, outcome, jitter)
  {
  }

  lemma HolderTakesEffect(w: World, i: nat, r: Row, outcome: Outcome, jitter: real)
    requires Inv(w) && i < |w.leases| && r in w.rows && r.eventId == w.leases[i].eventId && Current(r, w.leases, i)
    ensures Recorded(w, i, outcome, jitter) != w.rows
  {
    assert Linked(r, w.leases);
    var l := w.leases[i];
    HeldRowChanges(w.rows, r, l.eventId, l.owner, l.attempt, AvailableAt(l.start, l.attempt, outcome, jitter), outcome);
  }

  lemma NoHolderNoEffect(w: World, i: nat, outcome: Outcome, jitter: real)
    requires Inv(w) && i < |w.leases|
    requires forall r :: r in w.rows && r.eventId == w.leases[i].eventId ==> !Current(r, w.leases, i)
    ensures Recorded(w, i, outcome, jitter) == w.rows
  {
    var l := w.leases[i];
    forall r | r in w.rows ensures !Held(r, l.eventId, l.owner) {
      if Held(r, l.eventId, l.owner) {
        HolderIsLatest(w, i, r);
      }
    }
    FencedOut(w.rows, l.eventId, l.owner, l.attempt, AvailableAt(l.start, l.attempt, outcome, jitter), outcome);
  }

  lemma HeldRowChanges(
    t: Table, r: Row, eventId: string, owner: string, attempt: nat, availableAt: real, outcome: Outcome)
    requires TableOk(t) && r in t && Held(r, eventId, owner)
    ensures RecordEffect(t, eventId, owner, attempt, availableAt, outcome) != t
  {
    PurgeFindsNothing(t);
    var n :| 0 <= n < |t| && t[n] == r;
    if FinalStatus(outcome.action, attempt) == Retry {
      assert ReleaseHeld(t, eventId, owner, availableAt, outcome)[n].status == Retry;
    } else {
      assert r !in Filter(t, NotHeldBy(eventId, owner));
    }
  }

  /** Once an event has been leased again, the earlier ticket is dead. */
  lemma ReclaimedTicketIsDead(w: World, i: nat, j: nat, outcome: Outcome, jitter: real)
    requires Reachable(w) && i < j < |w.leases| && w.leases[i].eventId == w.leases[j].eventId
    ensures Next(w, RecordStep(i, outcome, jitter)) == w
  {
    ReachableInv(w);
    RecordTakesEffectOnlyForTheHolder(w, i, outcome, jitter);
  }

  /** When a lease is granted, every earlier lease of its event is settled by then or has run out. */
  lemma LeasesNeverOverlap(ws: seq<World>, ss: seq<Step>, k: nat, i: nat)
    requires IsRun(ws, ss) && k < |ss| && ss[k].LeaseStep? && i < |ws[k].leases|
    ensures |ws[k + 1].leases| == |ws[k].leases| + 1
    ensures var granted := ws[k + 1].leases[|ws[k].leases|];
      ws[k].leases[i].eventId == granted.eventId ==>
        ws[k].leases[i].settled || ws[k].leases[i].start + DELIVERY_LEASE_SECONDS <= granted.start
  {
    RunInv(ws[..k + 1], ss[..k]);
    var w, swept := ws[k], Sweep(ws[k].rows, ss[k].now);
    FilterOk(w.rows, NotStaleAt(ss[k].now));
    assert ws[k + 1] == Next(w, ss[k]) && swept[ss[k].pick] in swept;
    EarlierLeasesOver(swept[ss[k].pick], w.leases, ss[k].now);
  }

  /** An outcome removes an event at most once, and what it removed never comes back. */
  lemma RemovedAtMostOnce(w: World)
    requires Reachable(w)
    ensures Distinct(w.removed)
    ensures forall r :: r in w.rows ==> r.eventId !in w.removed
  {
    ReachableInv(w);
  }

  /** At most four leases, plus one for each lease taken over after it ran out. */
  lemma LeaseBound(w: World, e: string)
    requires Reachable(w)
    ensures Leases(w.leases, e) <= 4 + Reclaims(w.leases, e)
  {
    ReachableInv(w);
    assert Leases(w.leases, e) <= MAX_DELIVERY_ATTEMPTS + Reclaims(w.leases, e);
  }

  /** When no lease is ever taken over, an event is gone after its fourth recorded delivery. */
  lemma GoneAfterFourPosts(w: World, e: string)
    requires Reachable(w) && Reclaims(w.leases, e) == 0 && Settled(w.leases, e) >= 4
    ensures forall r :: r in w.rows ==> r.eventId != e
  {
    ReachableInv(w);
    forall r | r in w.rows ensures r.eventId != e {
      if r.eventId == e {
        assert Linked(r, w.leases);
        assert Leases(w.leases, e) <= MAX_DELIVERY_ATTEMPTS + Reclaims(w.leases, e);
        SettledWithin(w.leases, e, if r.status == Sending then Latest(w.leases, e) else -1);
      }
    }
  }
}

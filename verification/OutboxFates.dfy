/** What becomes of every event that was ever put into the outbox. */
module OutboxFates {
  import opened Seqs
  import opened OutboxTable
  import opened OutboxRuns

  // ----- events as multisets -----

  function Ids(t: Table): multiset<string> {
    if t == [] then multiset{} else multiset{t[0].eventId} + Ids(t[1..])
  }

  function ExpiredIds(xs: seq<Expiry>): multiset<string> {
    if xs == [] then multiset{} else multiset{xs[0].row.eventId} + ExpiredIds(xs[1..])
  }

  lemma IdsCons(r: Row, t: Table)
    ensures Ids([r] + t) == multiset{r.eventId} + Ids(t)
  {
    assert ([r] + t)[1..] == t;
  }

  lemma {:induction false} IdsAppend(t: Table, r: Row)
    ensures Ids(t + [r]) == Ids(t) + multiset{r.eventId}
  {
    if t == [] {
      assert t + [r] == [r] && [r][1..] == [];
    } else {
      assert (t + [r])[1..] == t[1..] + [r];
      IdsAppend(t[1..], r);
    }
  }

  lemma {:induction false} SameIds(t: Table, u: Table)
    requires |t| == |u| && forall i :: 0 <= i < |t| ==> t[i].eventId == u[i].eventId
    ensures Ids(t) == Ids(u)
  {
    if t != [] {
      SameIds(t[1..], u[1..]);
    }
  }

  lemma {:induction false} ExpiredAppend(a: seq<Expiry>, b: seq<Expiry>)
    ensures ExpiredIds(a + b) == ExpiredIds(a) + ExpiredIds(b)
  {
    if a == [] {
      assert a + b == b;
    } else {
      assert (a + b)[1..] == a[1..] + b;
      ExpiredAppend(a[1..], b);
    }
  }

  // ----- the partition -----

  /** Every inserted event is in the table, removed or expired, in one of these places and there once. */
  ghost predicate OneFate(
    table: multiset<string>, removed: multiset<string>, expired: multiset<string>, inserted: set<string>)
  {
    table + removed + expired == multiset(inserted)
  }

  ghost predicate FateOf(w: World) { OneFate(Ids(w.rows), multiset(w.removed), ExpiredIds(w.expired), w.usedEvents) }

  lemma MoveToExpired(
    table: multiset<string>, removed: multiset<string>, expired: multiset<string>, inserted: set<string>,
    kept: multiset<string>, gone: multiset<string>)
    requires OneFate(table, removed, expired, inserted) && kept + gone == table
    ensures OneFate(kept, removed, expired + gone, inserted)
  {
    assert kept + removed + (expired + gone) == (kept + gone) + removed + expired;
  }

  lemma MoveToRemoved(
    table: multiset<string>, removed: multiset<string>, expired: multiset<string>, inserted: set<string>,
    kept: multiset<string>, gone: multiset<string>)
    requires OneFate(table, removed, expired, inserted) && kept + gone == table
    ensures OneFate(kept, removed + gone, expired, inserted)
  {
    assert kept + (removed + gone) + expired == (kept + gone) + removed + expired;
  }

  lemma AddToTable(
    table: multiset<string>, removed: multiset<string>, expired: multiset<string>, inserted: set<string>, e: string)
    requires OneFate(table, removed, expired, inserted) && e !in inserted
    ensures OneFate(table + multiset{e}, removed, expired, inserted + {e})
  {
    assert multiset(inserted + {e}) == multiset(inserted) + multiset{e};
    assert table + multiset{e} + removed + expired == (table + removed + expired) + multiset{e};
  }

  lemma CountsOnce(
    table: multiset<string>, removed: multiset<string>, expired: multiset<string>, inserted: set<string>, e: string)
    requires OneFate(table, removed, expired, inserted)
    ensures table[e] + removed[e] + expired[e] == if e in inserted then 1 else 0
  {
    assert (table + removed + expired)[e] == table[e] + removed[e] + expired[e];
    assert multiset(inserted)[e] == if e in inserted then 1 else 0;
  }

  lemma Regrouped(x: multiset<string>, a: multiset<string>, b: multiset<string>, c: multiset<string>)
    requires a + b == c
    ensures a + (x + b) == x + c && (x + a) + b == x + c
  {
  }

  /** A sweep divides the table. */
  lemma {:induction false} SweepDivides(t: Table, now: real)
    ensures Ids(Sweep(t, now)) + ExpiredIds(Expiries(t, now)) == Ids(t)
  {
    if t != [] {
      var r, rest := t[0], t[1..];
      SweepDivides(rest, now);
      var e := multiset{r.eventId};
      Regrouped(e, Ids(Sweep(rest, now)), ExpiredIds(Expiries(rest, now)), Ids(rest));
      if Stale(r, now) {
        SweepDrops(t, now);
      } else {
        SweepKeeps(t, now);
      }
    }
  }

  lemma SweepDrops(t: Table, now: real)
    requires t != [] && Stale(t[0], now)
    ensures Ids(Sweep(t, now)) == Ids(Sweep(t[1..], now))
    ensures ExpiredIds(Expiries(t, now)) == multiset{t[0].eventId} + ExpiredIds(Expiries(t[1..], now))
  {
    assert Sweep(t, now) == Sweep(t[1..], now);
    var rest := Expiries(t[1..], now);
    assert Expiries(t, now) == [Expiry(t[0], now)] + rest;
    assert ([Expiry(t[0], now)] + rest)[1..] == rest;
  }

  lemma SweepKeeps(t: Table, now: real)
    requires t != [] && !Stale(t[0], now)
    ensures Ids(Sweep(t, now)) == multiset{t[0].eventId} + Ids(Sweep(t[1..], now))
    ensures ExpiredIds(Expiries(t, now)) == ExpiredIds(Expiries(t[1..], now))
  {
    assert Sweep(t, now) == [t[0]] + Sweep(t[1..], now);
    IdsCons(t[0], Sweep(t[1..], now));
    assert Expiries(t, now) == [] + Expiries(t[1..], now) == Expiries(t[1..], now);
  }

  /** Taking out the held row takes out one event. */
  lemma {:induction false} HeldRowGoes(t: Table, n: nat, eventId: string, owner: string)
    requires n < |t| && Held(t[n], eventId, owner)
    requires forall i :: 0 <= i < |t| && i != n ==> t[i].eventId != eventId
    ensures Ids(Filter(t, NotHeldBy(eventId, owner))) + multiset{eventId} == Ids(t)
    decreases n
  {
    var r, rest := t[0], t[1..];
    if n == 0 {
      FilterKeepsAll(rest, NotHeldBy(eventId, owner));
    } else {
      HeldRowGoes(rest, n - 1, eventId, owner);
      assert Filter(t, NotHeldBy(eventId, owner)) == [r] + Filter(rest, NotHeldBy(eventId, owner));
      IdsCons(r, Filter(rest, NotHeldBy(eventId, owner)));
    }
  }

  // ----- what a step does to the three places -----

  /** Only the sweep of this time has happened. */
  ghost predicate Swept(w: World, u: World, now: real) {
    && u.expired == w.expired + Expiries(w.rows, now)
    && u.removed == w.removed && u.usedEvents == w.usedEvents && Ids(u.rows) == Ids(Sweep(w.rows, now))
  }

  ghost predicate Untouched(w: World, u: World) {
    Ids(u.rows) == Ids(w.rows) && u.expired == w.expired && u.removed == w.removed && u.usedEvents == w.usedEvents
  }

  lemma SweptFate(w: World, u: World, now: real)
    requires FateOf(w) && Swept(w, u, now)
    ensures FateOf(u)
  {
    SweepDivides(w.rows, now);
    ExpiredAppend(w.expired, Expiries(w.rows, now));
    MoveToExpired(
      Ids(w.rows), multiset(w.removed), ExpiredIds(w.expired), w.usedEvents,
      Ids(Sweep(w.rows, now)), ExpiredIds(Expiries(w.rows, now)));
  }

  lemma EnqueueMoves(w: World, s: Step)
    requires TableOk(w.rows) && s.EnqueueStep? && CanStep(w, s)
    ensures var u, swept := Next(w, s),
      w.(rows := Sweep(w.rows, s.now), expired := w.expired + Expiries(w.rows, s.now));
      || u == w
      || u == swept
      || u == swept.(rows := swept.rows + [NewRow(s.eventId, s.reportId, s.payload, s.now)],
                     usedEvents := w.usedEvents + {s.eventId})
  {
    PurgeFindsNothing(w.rows);
  }

  lemma EnqueueFate(w: World, s: Step)
    requires TableOk(w.rows) && s.EnqueueStep? && CanStep(w, s) && FateOf(w)
    ensures FateOf(Next(w, s))
  {
    EnqueueMoves(w, s);
    var swept := w.(rows := Sweep(w.rows, s.now), expired := w.expired + Expiries(w.rows, s.now));
    SweptFate(w, swept, s.now);
    var row := NewRow(s.eventId, s.reportId, s.payload, s.now);
    IdsAppend(swept.rows, row);
    AddToTable(Ids(swept.rows), multiset(w.removed), ExpiredIds(swept.expired), w.usedEvents, s.eventId);
  }

  lemma IdleMoves(w: World, s: Step)
    requires TableOk(w.rows) && s.IdleStep? && CanStep(w, s)
    ensures Swept(w, Next(w, s), s.now)
  {
    PurgeFindsNothing(w.rows);
  }

  lemma LeaseMoves(w: World, s: Step)
    requires s.LeaseStep? && CanStep(w, s)
    ensures Swept(w, Next(w, s), s.now)
  {
    var swept := Sweep(w.rows, s.now);
    SameIds(swept, swept[s.pick := LeaseRow(swept[s.pick], s.owner, s.now)]);
  }

  /** A recorded outcome leaves the places alone, or moves its event from the table to the removed ones. */
  lemma RecordMoves(w: World, s: Step)
    requires TableOk(w.rows) && s.RecordStep? && CanStep(w, s)
    ensures var u, e := Next(w, s), w.leases[s.ticket].eventId;
      || Untouched(w, u)
      || (u.expired == w.expired && u.removed == w.removed + [e] && u.usedEvents == w.usedEvents
          && Ids(u.rows) + multiset{e} == Ids(w.rows))
  {
    var i, l := s.ticket, w.leases[s.ticket];
    var availableAt := AvailableAt(l.start, l.attempt, s.outcome, s.jitter);
    PurgeFindsNothing(w.rows);
    if !Holds(w, i) {
      FencedOut(w.rows, l.eventId, l.owner, l.attempt, availableAt, s.outcome);
    } else if FinalStatus(s.outcome.action, l.attempt) == Retry {
      SameIds(w.rows, ReleaseHeld(w.rows, l.eventId, l.owner, availableAt, s.outcome));
    } else {
      var held :| held in w.rows && Held(held, l.eventId, l.owner);
      var n :| 0 <= n < |w.rows| && w.rows[n] == held;
      HeldRowGoes(w.rows, n, l.eventId, l.owner);
    }
  }

  lemma RecordFate(w: World, s: Step)
    requires TableOk(w.rows) && s.RecordStep? && CanStep(w, s) && FateOf(w)
    ensures FateOf(Next(w, s))
  {
    RecordMoves(w, s);
    var u, e := Next(w, s), w.leases[s.ticket].eventId;
    if !Untouched(w, u) {
      assert multiset(w.removed + [e]) == multiset(w.removed) + multiset{e};
      MoveToRemoved(
        Ids(w.rows), multiset(w.removed), ExpiredIds(w.expired), w.usedEvents, Ids(u.rows), multiset{e});
    }
  }

  lemma FateStays(w: World, s: Step)
    requires TableOk(w.rows) && CanStep(w, s) && FateOf(w)
    ensures FateOf(Next(w, s))
  {
    match s
    case EnqueueStep(_, _, _, _) => EnqueueFate(w, s);
    case IdleStep(now) =>
      IdleMoves(w, s);
      SweptFate(w, Next(w, s), now);
    case LeaseStep(now, _, _) =>
      LeaseMoves(w, s);
      SweptFate(w, Next(w, s), now);
    case RecordStep(_, _, _) => RecordFate(w, s);
  }

  // ----- who takes events out -----

  ghost predicate SettledFor(leases: seq<Lease>, e: string) {
    exists i :: 0 <= i < |leases| && leases[i].eventId == e && leases[i].settled
  }

  /** A sweep takes only what has expired by then. */
  predicate SweptInTime(expired: seq<Expiry>) { forall x :: x in expired ==> x.row.expiresAt <= x.at }

  /** Only the outcome of a lease that still held its row removes. */
  ghost predicate RemovedByHolders(removed: seq<string>, leases: seq<Lease>) {
    forall e :: e in removed ==> SettledFor(leases, e)
  }

  lemma {:induction false} ExpiriesAreInTime(t: Table, now: real)
    ensures SweptInTime(Expiries(t, now))
  {
    if t != [] {
      ExpiriesAreInTime(t[1..], now);
    }
  }

  lemma SweptInTimeStays(w: World, s: Step)
    requires TableOk(w.rows) && CanStep(w, s) && SweptInTime(w.expired)
    ensures SweptInTime(Next(w, s).expired)
  {
    match s
    case EnqueueStep(now, _, _, _) =>
      EnqueueMoves(w, s);
      ExpiriesAreInTime(w.rows, now);
    case IdleStep(now) =>
      IdleMoves(w, s);
      ExpiriesAreInTime(w.rows, now);
    case LeaseStep(now, _, _) =>
      LeaseMoves(w, s);
      ExpiriesAreInTime(w.rows, now);
    case RecordStep(_, _, _) => RecordMoves(w, s);
  }

  lemma StillSettled(leases: seq<Lease>, after: seq<Lease>, e: string)
    requires SettledFor(leases, e) && |leases| <= |after|
    requires forall i :: 0 <= i < |leases| ==>
      after[i].eventId == leases[i].eventId && (leases[i].settled ==> after[i].settled)
    ensures SettledFor(after, e)
  {
    var i :| 0 <= i < |leases| && leases[i].eventId == e && leases[i].settled;
    assert after[i].eventId == e && after[i].settled;
  }

  /** Leases are never forgotten nor unsettled. */
  lemma LeasesStay(w: World, s: Step)
    requires CanStep(w, s)
    ensures var after := Next(w, s).leases; |w.leases| <= |after| && forall i :: 0 <= i < |w.leases| ==>
      after[i].eventId == w.leases[i].eventId && (w.leases[i].settled ==> after[i].settled)
  {
  }

  lemma RemovalSettles(w: World, s: Step)
    requires CanStep(w, s) && Next(w, s).removed != w.removed
    ensures s.RecordStep? && Next(w, s).removed == w.removed + [w.leases[s.ticket].eventId]
    ensures SettledFor(Next(w, s).leases, w.leases[s.ticket].eventId)
  {
    assert Next(w, s).leases[s.ticket].settled;
  }

  lemma RemovedByHoldersStays(w: World, s: Step)
    requires CanStep(w, s) && RemovedByHolders(w.removed, w.leases)
    ensures RemovedByHolders(Next(w, s).removed, Next(w, s).leases)
  {
    LeasesStay(w, s);
    forall e | e in w.removed ensures SettledFor(Next(w, s).leases, e) {
      StillSettled(w.leases, Next(w, s).leases, e);
    }
    if Next(w, s).removed != w.removed {
      RemovalSettles(w, s);
    }
  }

  // ----- every run -----

  ghost predicate Fates(w: World) { FateOf(w) && SweptInTime(w.expired) && RemovedByHolders(w.removed, w.leases) }

  lemma {:induction false} RunFates(ws: seq<World>, ss: seq<Step>)
    requires IsRun(ws, ss)
    ensures Fates(ws[|ss|])
  {
    if ss != [] {
      var n := |ss| - 1;
      RunFates(ws[..n + 1], ss[..n]);
      RunInv(ws[..n + 1], ss[..n]);
      FateStays(ws[n], ss[n]);
      SweptInTimeStays(ws[n], ss[n]);
      RemovedByHoldersStays(ws[n], ss[n]);
    }
  }

  /**
    Conservation. In every run, every event ever inserted is exactly once in exactly one place: in the
    table, removed by the outcome of a lease that held it, or swept by a step at or after its expiry.
   */
  lemma EveryEventHasOneFate(w: World, e: string)
    requires Reachable(w)
    ensures Ids(w.rows)[e] + multiset(w.removed)[e] + ExpiredIds(w.expired)[e] == if e in w.usedEvents then 1 else 0
    ensures e in w.removed ==> SettledFor(w.leases, e)
    ensures forall x :: x in w.expired && x.row.eventId == e ==> x.row.expiresAt <= x.at
  {
    var ws, ss :| IsRun(ws, ss) && ws[|ss|] == w;
    RunFates(ws, ss);
    CountsOnce(Ids(w.rows), multiset(w.removed), ExpiredIds(w.expired), w.usedEvents, e);
  }
}

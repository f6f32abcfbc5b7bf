/** The rows visible through a chain of delta segments laid over a base build. */
module Overlay {
  import opened Seqs
  import opened Text

  datatype Action = Upsert(uid: string) | Delete | Failed(uid: string)

  /** A row of `retrieval_delta_reports`. */
  datatype Delta = Delta(segment: string, path: string, action: Action)

  datatype Segment = Segment(snapshot: string, generation: int, sequence: int, state: string)

  datatype Row = Row(target: string, broker: string, month: string, kind: string)

  datatype Report = Report(path: string, row: Row)

  /** `included` are the report ids of the active build, in manifest order. */
  datatype Database = Database(
    snapshot: string, generation: int, included: seq<string>,
    reports: map<string, Report>, segments: map<string, Segment>, deltas: seq<Delta>)

  /** A report in force under a path. */
  datatype Entry = Entry(path: string, uid: string)

  // ----- relational algebra on bags of rows -----

  function Collect<T, U>(s: seq<T>, f: T -> seq<U>): seq<U> {
    if s == [] then [] else f(s[0]) + Collect(s[1..], f)
  }

  lemma {:induction false} CollectAppend<T, U>(a: seq<T>, b: seq<T>, f: T -> seq<U>)
    ensures Collect(a + b, f) == Collect(a, f) + Collect(b, f)
  {
    if a == [] {
      assert a + b == b;
    } else {
      assert (a + b)[1..] == a[1..] + b;
      CollectAppend(a[1..], b, f);
    }
  }

  lemma MiddleFirst<T>(a: seq<T>, b: seq<T>, c: seq<T>)
    ensures multiset(a + (b + c)) == multiset(b) + multiset(a + c)
  {
  }

  lemma CollectMiddle<T, U>(l: seq<T>, x: T, r: seq<T>, f: T -> seq<U>)
    ensures multiset(Collect(l + ([x] + r), f)) == multiset(f(x)) + multiset(Collect(l + r, f))
  {
    CollectAppend(l, r, f);
    CollectAppend(l, [x] + r, f);
    assert Collect([x] + r, f) == f(x) + Collect(r, f);
    MiddleFirst(Collect(l, f), f(x), Collect(r, f));
  }

  lemma RemoveOne<T>(s: seq<T>, i: nat)
    requires i < |s|
    ensures s == s[..i] + ([s[i]] + s[i + 1..])
    ensures multiset(s) == multiset{s[i]} + multiset(s[..i] + s[i + 1..])
  {
    assert s == s[..i] + ([s[i]] + s[i + 1..]);
    MiddleFirst(s[..i], [s[i]], s[i + 1..]);
  }

  lemma Cancel<T>(x: multiset<T>, a: multiset<T>, b: multiset<T>)
    requires x + a == x + b
    ensures a == b
  {
    assert (x + a) - x == a && (x + b) - x == b;
  }

  lemma SplitAt<T>(a: seq<T>, b: seq<T>) returns (l: seq<T>, r: seq<T>)
    requires a != [] && multiset(a) == multiset(b)
    ensures b == l + ([a[0]] + r) && multiset(a[1..]) == multiset(l + r)
  {
    assert a[0] in multiset(b);
    var i :| 0 <= i < |b| && b[i] == a[0];
    l, r := b[..i], b[i + 1..];
    RemoveOne(b, i);
    RemoveOne(a, 0);
    assert a[..0] + a[1..] == a[1..];
    Cancel(multiset{a[0]}, multiset(a[1..]), multiset(l + r));
  }

  lemma {:induction false} CollectPermutes<T, U>(a: seq<T>, b: seq<T>, f: T -> seq<U>)
    requires multiset(a) == multiset(b)
    ensures multiset(Collect(a, f)) == multiset(Collect(b, f))
  {
    if a == [] {
      assert |multiset(b)| == |b|;
    } else {
      var l, r := SplitAt(a, b);
      CollectPermutes(a[1..], l + r, f);
      CollectMiddle(l, a[0], r, f);
    }
  }

  lemma {:induction false} CollectSame<T(!new), U>(s: seq<T>, f: T -> seq<U>, g: T -> seq<U>)
    requires forall x :: x in s ==> f(x) == g(x)
    ensures Collect(s, f) == Collect(s, g)
  {
    if s != [] {
      CollectSame(s[1..], f, g);
    }
  }

  lemma {:induction false} CollectTwice<T(!new), U, V>(s: seq<T>, f: T -> seq<U>, g: U -> seq<V>, h: T -> seq<V>)
    requires forall x :: x in s ==> h(x) == Collect(f(x), g)
    ensures Collect(Collect(s, f), g) == Collect(s, h)
  {
    if s != [] {
      CollectTwice(s[1..], f, g, h);
      CollectAppend(f(s[0]), Collect(s[1..], f), g);
    }
  }

  lemma {:induction false} CollectFiltered<T(!new), U(!new)>(s: seq<T>, f: T -> seq<U>, g: T -> seq<U>, p: U -> bool)
    requires forall x :: x in s ==> g(x) == Filter(f(x), p)
    ensures Collect(s, g) == Filter(Collect(s, f), p)
  {
    if s != [] {
      CollectFiltered(s[1..], f, g, p);
      FilterAppend(f(s[0]), Collect(s[1..], f), p);
    }
  }

  lemma {:induction false} CollectOnlyFrom<T(!new), U>(s: seq<T>, p: T -> bool, f: T -> seq<U>)
    requires forall x :: x in s && !p(x) ==> f(x) == []
    ensures Collect(Filter(s, p), f) == Collect(s, f)
  {
    if s != [] {
      CollectOnlyFrom(s[1..], p, f);
    }
  }

  lemma {:induction false} FilterTwice<T(!new)>(s: seq<T>, p: T -> bool, q: T -> bool, both: T -> bool)
    requires forall x :: both(x) <==> p(x) && q(x)
    ensures Filter(Filter(s, p), q) == Filter(s, both)
  {
    if s != [] {
      FilterTwice(s[1..], p, q, both);
    }
  }

  // ----- the query -----

  predicate Ready(db: Database, id: string) {
    && id in db.segments
    && db.segments[id].state == "ready"
    && db.segments[id].snapshot == db.snapshot
    && db.segments[id].generation == db.generation
  }

  /** The joined action rows that `ranked_heads` ranks. */
  predicate Applies(db: Database, d: Delta) { Ready(db, d.segment) && !d.action.Failed? }

  function AppliesIn(db: Database): Delta -> bool { (d: Delta) => Applies(db, d) }

  function Sequence(db: Database, id: string): int { if id in db.segments then db.segments[id].sequence else 0 }

  /** Order by `(sequence, segment_id)`. */
  predicate Earlier(db: Database, a: Delta, b: Delta) {
    Sequence(db, a.segment) < Sequence(db, b.segment)
    || (Sequence(db, a.segment) == Sequence(db, b.segment) && StringLess(a.segment, b.segment))
  }

  /** Ranked first among the rows of its path. */
  predicate IsHead(db: Database, log: seq<Delta>, d: Delta) {
    forall e :: e in log && e.path == d.path ==> e == d || Earlier(db, e, d)
  }

  function Applicable(db: Database): seq<Delta> { Filter(db.deltas, AppliesIn(db)) }

  /** No head has this path. */
  predicate Untouched(log: seq<Delta>, path: string) { forall d :: d in log ==> d.path != path }

  function RowOf(db: Database): Entry -> seq<Row> {
    (e: Entry) => if e.uid in db.reports then [db.reports[e.uid].row] else []
  }

  function BaseEntry(db: Database): string -> seq<Entry> {
    (uid: string) => if uid in db.reports then [Entry(db.reports[uid].path, uid)] else []
  }

  function BaseWithoutHead(db: Database): string -> seq<Row> {
    (uid: string) =>
      if uid in db.reports && Untouched(Applicable(db), db.reports[uid].path) then [db.reports[uid].row] else []
  }

  function UpsertHead(db: Database): Delta -> seq<Row> {
    (d: Delta) =>
      if Applies(db, d) && IsHead(db, Applicable(db), d) && d.action.Upsert? && d.action.uid in db.reports
      then [db.reports[d.action.uid].row] else []
  }

  /** `_active_metadata_rows` where the delta tables exist */
  function ActiveRows(db: Database): seq<Row> {
    Collect(db.included, BaseWithoutHead(db)) + Collect(db.deltas, UpsertHead(db))
  }

  // ----- the reference: replay the actions one after the other -----

  function OtherPath(path: string): Entry -> bool { (e: Entry) => e.path != path }

  function Apply(entries: seq<Entry>, d: Delta): seq<Entry> {
    Filter(entries, OtherPath(d.path)) + if d.action.Upsert? then [Entry(d.path, d.action.uid)] else []
  }

  function Replay(entries: seq<Entry>, log: seq<Delta>): seq<Entry> {
    if log == [] then entries else Apply(Replay(entries, log[..|log| - 1]), log[|log| - 1])
  }

  function BaseEntries(db: Database): seq<Entry> { Collect(db.included, BaseEntry(db)) }

  /** One action per path in a segment. */
  predicate OneActionPerPath(deltas: seq<Delta>) {
    && (forall d, e :: d in deltas && e in deltas && d.segment == e.segment && d.path == e.path ==> d == e)
    && (forall d :: d in deltas ==> multiset(deltas)[d] == 1)
  }

  /** Every segment before the segments after it; within a segment any order. */
  predicate InSegmentOrder(db: Database, log: seq<Delta>) {
    forall i, j :: 0 <= i < j < |log| ==> log[i].segment == log[j].segment || Earlier(db, log[i], log[j])
  }

  /** The applicable actions, each as often as it is stored, in segment order. */
  predicate IsLog(db: Database, log: seq<Delta>) {
    multiset(log) == multiset(Applicable(db)) && InSegmentOrder(db, log)
  }

  // ----- what a replay leaves -----

  function UntouchedIn(log: seq<Delta>): Entry -> bool { (e: Entry) => Untouched(log, e.path) }

  function HeadEntry(db: Database, log: seq<Delta>): Delta -> seq<Entry> {
    (d: Delta) => if IsHead(db, log, d) && d.action.Upsert? then [Entry(d.path, d.action.uid)] else []
  }

  lemma NotBoth(db: Database, a: Delta, b: Delta)
    ensures !(Earlier(db, a, b) && Earlier(db, b, a)) && !Earlier(db, a, a)
  {
    StringOrder(a.segment, b.segment, "");
    StringOrder(a.segment, a.segment, "");
  }

  /** `r` is the latest row of its path. */
  ghost predicate Latest(db: Database, log: seq<Delta>, r: Delta) {
    forall e :: e in log && e.path == r.path ==> e != r && Earlier(db, e, r)
  }

  lemma LastIsLatest(db: Database, log: seq<Delta>, r: Delta)
    requires InSegmentOrder(db, log + [r]) && OneActionPerPath(log + [r])
    ensures Latest(db, log, r)
  {
    var all := log + [r];
    assert all[|log|] == r && multiset(all) == multiset(log) + multiset{r};
    forall e | e in log && e.path == r.path ensures e != r && Earlier(db, e, r) {
      var i :| 0 <= i < |log| && log[i] == e;
      assert all[i] == e && multiset(log)[e] >= 1;
    }
  }

  lemma OneActionPerPathBefore(log: seq<Delta>, r: Delta)
    requires OneActionPerPath(log + [r])
    ensures OneActionPerPath(log)
  {
    forall d | d in log ensures multiset(log)[d] == 1 {
      assert d in log + [r];
    }
    assert forall d :: d in log ==> d in log + [r];
  }

  /** A row appended to the log takes the place of the head of its path. */
  lemma HeadsAfter(db: Database, log: seq<Delta>, r: Delta, d: Delta)
    requires Latest(db, log, r) && d in log
    ensures IsHead(db, log + [r], d) <==> IsHead(db, log, d) && d.path != r.path
    ensures IsHead(db, log + [r], r)
  {
    NotBoth(db, d, r);
    assert forall e :: e in log + [r] <==> e in log || e == r;
  }

  lemma HeadEntriesAfter(db: Database, log: seq<Delta>, r: Delta)
    requires Latest(db, log, r)
    ensures Collect(log + [r], HeadEntry(db, log + [r]))
      == Filter(Collect(log, HeadEntry(db, log)), OtherPath(r.path))
         + if r.action.Upsert? then [Entry(r.path, r.action.uid)] else []
  {
    var all, other := log + [r], OtherPath(r.path);
    forall d | d in log ensures HeadEntry(db, all)(d) == Filter(HeadEntry(db, log)(d), other) {
      HeadsAfter(db, log, r, d);
    }
    CollectFiltered(log, HeadEntry(db, log), HeadEntry(db, all), other);
    CollectAppend(log, [r], HeadEntry(db, all));
    assert forall e :: e in all <==> e in log || e == r;
    assert Collect([r], HeadEntry(db, all)) == HeadEntry(db, all)(r) + [];
  }

  lemma UntouchedAfter(entries: seq<Entry>, log: seq<Delta>, r: Delta)
    ensures Filter(Filter(entries, UntouchedIn(log)), OtherPath(r.path)) == Filter(entries, UntouchedIn(log + [r]))
  {
    assert forall e :: e in log + [r] <==> e in log || e == r;
    FilterTwice(entries, UntouchedIn(log), OtherPath(r.path), UntouchedIn(log + [r]));
  }

  lemma ApplyKeepsForm(db: Database, entries: seq<Entry>, log: seq<Delta>, r: Delta)
    requires Latest(db, log, r)
    ensures Apply(Filter(entries, UntouchedIn(log)) + Collect(log, HeadEntry(db, log)), r)
      == Filter(entries, UntouchedIn(log + [r])) + Collect(log + [r], HeadEntry(db, log + [r]))
  {
    FilterAppend(Filter(entries, UntouchedIn(log)), Collect(log, HeadEntry(db, log)), OtherPath(r.path));
    UntouchedAfter(entries, log, r);
    HeadEntriesAfter(db, log, r);
  }

  /** A replay keeps the untouched entries and adds the entry of every upsert that is a head. */
  lemma {:induction false} ReplayLeavesHeads(db: Database, entries: seq<Entry>, log: seq<Delta>)
    requires InSegmentOrder(db, log) && OneActionPerPath(log)
    ensures Replay(entries, log) == Filter(entries, UntouchedIn(log)) + Collect(log, HeadEntry(db, log))
    decreases |log|
  {
    if log == [] {
      FilterKeepsAll(entries, UntouchedIn(log));
    } else {
      var before, r := log[..|log| - 1], log[|log| - 1];
      assert log == before + [r];
      OneActionPerPathBefore(before, r);
      ReplayLeavesHeads(db, entries, before);
      LastIsLatest(db, before, r);
      ApplyKeepsForm(db, entries, before, r);
    }
  }

  // ----- the query is the replay -----

  function HeadRow(db: Database, log: seq<Delta>): Delta -> seq<Row> {
    (d: Delta) => Collect(HeadEntry(db, log)(d), RowOf(db))
  }

  lemma JoinOne(db: Database, e: Entry)
    ensures Collect([e], RowOf(db)) == RowOf(db)(e)
  {
  }

  lemma BaseRows(db: Database, log: seq<Delta>)
    requires multiset(log) == multiset(Applicable(db))
    ensures Collect(db.included, BaseWithoutHead(db)) == Collect(Filter(BaseEntries(db), UntouchedIn(log)), RowOf(db))
  {
    SameElements(log, Applicable(db));
    var kept := (uid: string) => Filter(BaseEntry(db)(uid), UntouchedIn(log));
    CollectFiltered(db.included, BaseEntry(db), kept, UntouchedIn(log));
    forall uid | uid in db.included ensures BaseWithoutHead(db)(uid) == Collect(kept(uid), RowOf(db)) {
      if uid in db.reports {
        JoinOne(db, Entry(db.reports[uid].path, uid));
      }
    }
    CollectTwice(db.included, kept, RowOf(db), BaseWithoutHead(db));
  }

  lemma SameElements<T>(a: seq<T>, b: seq<T>)
    requires multiset(a) == multiset(b)
    ensures forall x :: x in a <==> x in b
  {
    forall x ensures x in a <==> x in b {
      assert x in a <==> x in multiset(a);
      assert x in b <==> x in multiset(b);
    }
  }

  lemma SameHeads(db: Database, log: seq<Delta>, d: Delta)
    requires multiset(log) == multiset(Applicable(db)) && d in log
    ensures Applies(db, d) && (IsHead(db, log, d) <==> IsHead(db, Applicable(db), d))
  {
    SameElements(log, Applicable(db));
  }

  lemma HeadRowIs(db: Database, log: seq<Delta>, d: Delta)
    requires Applies(db, d) && (IsHead(db, log, d) <==> IsHead(db, Applicable(db), d))
    ensures UpsertHead(db)(d) == HeadRow(db, log)(d)
  {
    if IsHead(db, log, d) && d.action.Upsert? {
      var e := Entry(d.path, d.action.uid);
      assert HeadEntry(db, log)(d) == [e];
      JoinOne(db, e);
    } else {
      assert HeadEntry(db, log)(d) == [];
    }
  }

  lemma HeadRows(db: Database, log: seq<Delta>)
    requires multiset(log) == multiset(Applicable(db))
    ensures multiset(Collect(db.deltas, UpsertHead(db)))
      == multiset(Collect(Collect(log, HeadEntry(db, log)), RowOf(db)))
  {
    CollectOnlyFrom(db.deltas, AppliesIn(db), UpsertHead(db));
    CollectPermutes(log, Applicable(db), UpsertHead(db));
    forall d | d in log ensures UpsertHead(db)(d) == HeadRow(db, log)(d) {
      SameHeads(db, log, d);
      HeadRowIs(db, log, d);
    }
    CollectSame(log, UpsertHead(db), HeadRow(db, log));
    CollectTwice(log, HeadEntry(db, log), RowOf(db), HeadRow(db, log));
  }

  lemma {:induction false} FilterIsPart<T(!new)>(s: seq<T>, p: T -> bool)
    ensures multiset(Filter(s, p)) <= multiset(s)
  {
    if s != [] {
      FilterIsPart(s[1..], p);
      assert s == [s[0]] + s[1..];
    }
  }

  lemma LogHasOneActionPerPath(db: Database, log: seq<Delta>)
    requires IsLog(db, log) && OneActionPerPath(db.deltas)
    ensures OneActionPerPath(log)
  {
    SameElements(log, Applicable(db));
    FilterIsPart(db.deltas, AppliesIn(db));
  }

  /** The query returns the rows that replaying the segments in order leaves, each as often. */
  lemma ActiveRowsAreTheReplay(db: Database, log: seq<Delta>)
    requires OneActionPerPath(db.deltas) && IsLog(db, log)
    ensures multiset(ActiveRows(db)) == multiset(Collect(Replay(BaseEntries(db), log), RowOf(db)))
  {
    LogHasOneActionPerPath(db, log);
    ReplayLeavesHeads(db, BaseEntries(db), log);
    CollectAppend(Filter(BaseEntries(db), UntouchedIn(log)), Collect(log, HeadEntry(db, log)), RowOf(db));
    BaseRows(db, log);
    HeadRows(db, log);
  }

  // ----- there is such a log -----

  function InsertDelta(db: Database, log: seq<Delta>, d: Delta): (r: seq<Delta>)
    requires InSegmentOrder(db, log)
    ensures InSegmentOrder(db, r) && multiset(r) == multiset(log) + multiset{d}
  {
    if log == [] then [d]
    else if d.segment == log[0].segment || Earlier(db, d, log[0]) then
      InsertFirst(db, log, d);
      [d] + log
    else
      var rest := InsertDelta(db, log[1..], d);
      InsertLater(db, log, d, rest);
      [log[0]] + rest
  }

  lemma EarlierTransitive(db: Database, a: Delta, b: Delta, c: Delta)
    requires a.segment == b.segment || Earlier(db, a, b)
    requires b.segment == c.segment || Earlier(db, b, c)
    ensures a.segment == c.segment || Earlier(db, a, c)
  {
    StringOrder(a.segment, b.segment, c.segment);
    StringOrder(b.segment, c.segment, "");
    StringOrder(a.segment, c.segment, "");
  }

  lemma InsertFirst(db: Database, log: seq<Delta>, d: Delta)
    requires InSegmentOrder(db, log) && log != [] && (d.segment == log[0].segment || Earlier(db, d, log[0]))
    ensures InSegmentOrder(db, [d] + log)
  {
    forall j | 0 <= j < |log| ensures d.segment == log[j].segment || Earlier(db, d, log[j]) {
      EarlierTransitive(db, d, log[0], log[j]);
    }
  }

  lemma InsertLater(db: Database, log: seq<Delta>, d: Delta, rest: seq<Delta>)
    requires InSegmentOrder(db, log) && log != [] && d.segment != log[0].segment && !Earlier(db, d, log[0])
    requires InSegmentOrder(db, rest) && multiset(rest) == multiset(log[1..]) + multiset{d}
    ensures InSegmentOrder(db, [log[0]] + rest) && multiset([log[0]] + rest) == multiset(log) + multiset{d}
  {
    StringOrder(d.segment, log[0].segment, "");
    forall e | e in rest ensures log[0].segment == e.segment || Earlier(db, log[0], e) {
      assert e in multiset(rest);
      if e != d {
        var i :| 0 <= i < |log[1..]| && log[1..][i] == e;
        assert log[i + 1] == e;
      }
    }
    assert log == [log[0]] + log[1..];
  }

  function SortDeltas(db: Database, deltas: seq<Delta>): (log: seq<Delta>)
    ensures InSegmentOrder(db, log) && multiset(log) == multiset(deltas)
  {
    if deltas == [] then []
    else
      assert deltas == [deltas[0]] + deltas[1..];
      InsertDelta(db, SortDeltas(db, deltas[1..]), deltas[0])
  }

  /** The applicable actions in segment order; where a segment has one action per path, that decides the result. */
  function SegmentLog(db: Database): (log: seq<Delta>)
    ensures IsLog(db, log)
  {
    SortDeltas(db, Applicable(db))
  }

  /** The rows left by applying the ready segments to the base, one action after the other. */
  function ReplayedRows(db: Database): seq<Row> { Collect(Replay(BaseEntries(db), SegmentLog(db)), RowOf(db)) }

  /**
    For every database the query returns what replaying its segments leaves, and the order within a segment
    is no matter.
   */
  lemma QueryIsTheReplay(db: Database, log: seq<Delta>)
    requires OneActionPerPath(db.deltas)
    ensures multiset(ActiveRows(db)) == multiset(ReplayedRows(db))
    ensures IsLog(db, log) ==> multiset(Collect(Replay(BaseEntries(db), log), RowOf(db))) == multiset(ReplayedRows(db))
  {
    ActiveRowsAreTheReplay(db, SegmentLog(db));
    if IsLog(db, log) {
      ActiveRowsAreTheReplay(db, log);
    }
  }

  // ----- which rows the query returns -----

  /** An action of a ready segment of this snapshot and generation that did not fail. */
  predicate InForce(db: Database, d: Delta) {
    && d in db.deltas && !d.action.Failed?
    && d.segment in db.segments
    && db.segments[d.segment].state == "ready"
    && db.segments[d.segment].snapshot == db.snapshot
    && db.segments[d.segment].generation == db.generation
  }

  /** No other action in force on the path has a higher sequence or, at the same sequence, a later segment id. */
  predicate Decides(db: Database, d: Delta) {
    && InForce(db, d)
    && forall e :: e in db.deltas && InForce(db, e) && e.path == d.path && e != d ==>
      var a, b := db.segments[e.segment], db.segments[d.segment];
      a.sequence < b.sequence || (a.sequence == b.sequence && StringLess(e.segment, d.segment))
  }

  lemma {:induction false} InCollect<T, U>(s: seq<T>, f: T -> seq<U>, y: U)
    ensures y in Collect(s, f) <==> exists i :: 0 <= i < |s| && y in f(s[i])
  {
    if s != [] {
      InCollect(s[1..], f, y);
      if y in Collect(s[1..], f) {
        var i :| 0 <= i < |s[1..]| && y in f(s[1..][i]);
        assert s[i + 1] == s[1..][i];
      }
      if i :| 0 <= i < |s| && y in f(s[i]) {
        assert i > 0 ==> s[1..][i - 1] == s[i];
      }
    }
  }

  lemma ForceApplies(db: Database, d: Delta)
    ensures d in Applicable(db) <==> InForce(db, d)
  {
  }

  lemma HeadDecides(db: Database, d: Delta)
    requires d in db.deltas
    ensures Applies(db, d) && IsHead(db, Applicable(db), d) <==> Decides(db, d)
  {
    forall e ensures e in Applicable(db) <==> InForce(db, e) {
      ForceApplies(db, e);
    }
  }

  /** A report of the base is visible if no action in force has its path. */
  ghost predicate FromBase(db: Database, row: Row) {
    exists uid ::
      && uid in db.included && uid in db.reports && db.reports[uid].row == row
      && forall e :: e in db.deltas && InForce(db, e) ==> e.path != db.reports[uid].path
  }

  /** A report of a segment is visible if the action that decides its path puts it there. */
  ghost predicate FromSegment(db: Database, row: Row) {
    exists d :: Decides(db, d) && d.action.Upsert? && d.action.uid in db.reports && db.reports[d.action.uid].row == row
  }

  lemma BaseIsVisible(db: Database, row: Row)
    ensures row in Collect(db.included, BaseWithoutHead(db)) <==> FromBase(db, row)
  {
    InCollect(db.included, BaseWithoutHead(db), row);
    forall e ensures e in Applicable(db) <==> InForce(db, e) {
      ForceApplies(db, e);
    }
    if FromBase(db, row) {
      var uid :|
        && uid in db.included && uid in db.reports && db.reports[uid].row == row
        && forall e :: e in db.deltas && InForce(db, e) ==> e.path != db.reports[uid].path;
      var i :| 0 <= i < |db.included| && db.included[i] == uid;
      assert BaseWithoutHead(db)(uid) == [row];
    }
    if i :| 0 <= i < |db.included| && row in BaseWithoutHead(db)(db.included[i]) {
      assert db.reports[db.included[i]].row == row;
    }
  }

  lemma SegmentIsVisible(db: Database, row: Row)
    ensures row in Collect(db.deltas, UpsertHead(db)) <==> FromSegment(db, row)
  {
    InCollect(db.deltas, UpsertHead(db), row);
    if FromSegment(db, row) {
      var d :| Decides(db, d) && d.action.Upsert? && d.action.uid in db.reports && db.reports[d.action.uid].row == row;
      HeadDecides(db, d);
      var i :| 0 <= i < |db.deltas| && db.deltas[i] == d;
      assert UpsertHead(db)(d) == [row];
    }
    if i :| 0 <= i < |db.deltas| && row in UpsertHead(db)(db.deltas[i]) {
      HeadDecides(db, db.deltas[i]);
    }
  }

  /** The query returns a row exactly if it is visible in the base or in a segment. */
  lemma VisibleRows(db: Database, row: Row)
    ensures row in ActiveRows(db) <==> FromBase(db, row) || FromSegment(db, row)
  {
    BaseIsVisible(db, row);
    SegmentIsVisible(db, row);
  }

  // ----- one report per path -----

  predicate UniquePaths(entries: seq<Entry>) {
    forall i, j :: 0 <= i < j < |entries| ==> entries[i].path != entries[j].path
  }

  lemma {:induction false} FilterKeepsPathsUnique(entries: seq<Entry>, p: Entry -> bool)
    requires UniquePaths(entries)
    ensures UniquePaths(Filter(entries, p))
  {
    if entries != [] {
      var rest := entries[1..];
      assert forall i :: 0 <= i < |rest| ==> rest[i] == entries[i + 1];
      FilterKeepsPathsUnique(rest, p);
      forall e | e in Filter(rest, p) ensures e.path != entries[0].path {
        var i :| 0 <= i < |rest| && rest[i] == e;
      }
    }
  }

  /** Where the base has one report per path, so has every state of a replay: it is a map. */
  lemma {:induction false} ReplayKeepsPathsUnique(entries: seq<Entry>, log: seq<Delta>)
    requires UniquePaths(entries)
    ensures UniquePaths(Replay(entries, log))
    decreases |log|
  {
    if log != [] {
      var before, r := log[..|log| - 1], log[|log| - 1];
      ReplayKeepsPathsUnique(entries, before);
      var kept := Filter(Replay(entries, before), OtherPath(r.path));
      FilterKeepsPathsUnique(Replay(entries, before), OtherPath(r.path));
      assert forall i :: 0 <= i < |kept| ==> kept[i] in kept;
    }
  }
}

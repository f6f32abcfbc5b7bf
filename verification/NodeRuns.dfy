/** The bounded collector of task runs observed in a graph's event stream. */
module NodeRuns {
  import opened Seqs
  import opened Text

  const MAX_NODE_RUNS := 256
  const MAX_TEXT_LENGTH := 160

  datatype Status = Completed | Failed | Interrupted | Running

  datatype Open = Open(node: string, sequence: nat, invocation: nat)

  datatype Run = Run(task: string, node: string, sequence: nat, invocation: nat, status: Status)

  /** A task event; the flags say which keys the payload has and whether their values are true. */
  datatype Event = Event(
    namespace: seq<string>, id: string, name: string,
    hasInput: bool, hasResult: bool, hasError: bool, error: bool, interrupts: bool)

  /** What the collector reads off an event. */
  datatype Step = Ignored | Begin(task: string, node: string) | End(task: string, status: Status)

  datatype Trace = Trace(started: map<string, Open>, runs: seq<Run>, invocations: map<string, nat>, sequence: nat)

  const EMPTY := Trace(map[], [], map[], 0)

  // ----- one event -----

  function Bounded(s: string): string {
    var t := Strip(s);
    if |t| <= MAX_TEXT_LENGTH then t else t[..MAX_TEXT_LENGTH]
  }

  /** What stands before the last colon, or everything: `rsplit(":", 1)[0]` */
  function BeforeLastColon(s: string): string {
    if ':' !in s then s
    else if s[|s| - 1] == ':' then s[..|s| - 1]
    else BeforeLastColon(s[..|s| - 1])
  }

  /** Every non-empty part of the namespace without its task number, and a colon behind each. */
  function ParentPrefix(namespace: seq<string>): string {
    if namespace == [] then ""
    else
      var part := Bounded(namespace[0]);
      (if part == "" then "" else BeforeLastColon(part) + ":") + ParentPrefix(namespace[1..])
  }

  function NodeOf(nodeIds: set<string>, namespace: seq<string>, name: string): Option<string> {
    var candidate := ParentPrefix(namespace) + name;
    if candidate in nodeIds then Some(candidate) else if name in nodeIds then Some(name) else None
  }

  function FinalStatus(e: Event): Status { if e.error then Failed else if e.interrupts then Interrupted else Completed }

  function Reading(nodeIds: set<string>, e: Event): Step {
    var task, name := Bounded(e.id), Bounded(e.name);
    var node := NodeOf(nodeIds, e.namespace, name);
    if task == "" || name == "" || node.None? then Ignored
    else if e.hasInput && !e.hasResult && !e.hasError then Begin(task, node.value)
    else End(task, FinalStatus(e))
  }

  // ----- what is read off an event, by its characters and flags -----

  lemma {:induction false} LastColon(x: string, y: string)
    requires ':' !in y
    ensures BeforeLastColon(x + (":" + y)) == x
    decreases |y|
  {
    var s := x + (":" + y);
    if y == "" {
      assert s[|s| - 1] == ':' && s[..|s| - 1] == x;
    } else {
      var n := |y| - 1;
      assert s[|s| - 1] == y[n] && s[|x|] == ':' && s[..|s| - 1] == x + (":" + y[..n]);
      LastColon(x, y[..n]);
    }
  }

  /** Texts count without the white space around them and up to 160 characters. */
  lemma BoundedWords(a: string, t: string, b: string)
    requires AllSpaces(a) && Trimmed(t) && AllSpaces(b)
    ensures Bounded(a + (t + b)) == if |t| <= 160 then t else t[..160]
  {
    StripIs(a, t, b);
  }

  /** Every part of the namespace that is not empty goes in front of the name, up to its last colon if it has one. */
  lemma PrefixWords(part: string, rest: seq<string>, x: string, y: string)
    requires Bounded(part) == "" || (Bounded(part) == x && ':' !in x) || (Bounded(part) == x + (":" + y) && ':' !in y)
    ensures ParentPrefix([]) == ""
    ensures ParentPrefix([part] + rest)
      == if Bounded(part) == "" then ParentPrefix(rest) else x + ":" + ParentPrefix(rest)
  {
    assert ([part] + rest)[1..] == rest;
    if Bounded(part) == x + (":" + y) && ':' !in y {
      LastColon(x, y);
    }
    assert "" + ParentPrefix(rest) == ParentPrefix(rest);
  }

  /**
    An event counts if it has an id, a name and a node: the node of the whole path, or else of the name alone. With
    an input and neither result nor error it begins a run; any other event ends one, as failed before interrupted
    before completed.
   */
  lemma ReadingWords(nodeIds: set<string>, e: Event)
    ensures var task, name := Bounded(e.id), Bounded(e.name);
      var whole := ParentPrefix(e.namespace) + name;
      && (task == "" || name == "" || (whole !in nodeIds && name !in nodeIds) ==> Reading(nodeIds, e) == Ignored)
      && (task != "" && name != "" && (whole in nodeIds || name in nodeIds) ==>
        var node := if whole in nodeIds then whole else name;
        && (e.hasInput && !e.hasResult && !e.hasError ==> Reading(nodeIds, e) == Begin(task, node))
        && (!e.hasInput || e.hasResult || e.hasError ==>
          && (e.error ==> Reading(nodeIds, e) == End(task, Failed))
          && (!e.error && e.interrupts ==> Reading(nodeIds, e) == End(task, Interrupted))
          && (!e.error && !e.interrupts ==> Reading(nodeIds, e) == End(task, Completed))))
  {
  }

  function Invocations(t: Trace, node: string): nat { if node in t.invocations then t.invocations[node] else 0 }

  function Start(t: Trace, task: string, node: string): Trace {
    if |t.runs| + |t.started| >= MAX_NODE_RUNS then t
    else
      var nth := Invocations(t, node) + 1;
      Trace(t.started[task := Open(node, t.sequence + 1, nth)], t.runs, t.invocations[node := nth], t.sequence + 1)
  }

  function RunOf(task: string, o: Open, status: Status): Run { Run(task, o.node, o.sequence, o.invocation, status) }

  function Finish(t: Trace, task: string, status: Status): Trace {
    if task !in t.started then t
    else if |t.runs| >= MAX_NODE_RUNS then t.(started := t.started - {task})
    else t.(started := t.started - {task}, runs := t.runs + [RunOf(task, t.started[task], status)])
  }

  function After(t: Trace, step: Step): Trace {
    match step
    case Ignored => t
    case Begin(task, node) => Start(t, task, node)
    case End(task, status) => Finish(t, task, status)
  }

  /** The collector after a stream of events. */
  function Observed(steps: seq<Step>): Trace {
    if steps == [] then EMPTY else After(Observed(steps[..|steps| - 1]), steps[|steps| - 1])
  }

  // ----- what every stream keeps -----

  predicate WithinBound(t: Trace) { |t.runs| + |t.started| <= MAX_NODE_RUNS }

  predicate Numbered(t: Trace) {
    && (forall r :: r in t.runs ==> 1 <= r.sequence <= t.sequence)
    && (forall k :: k in t.started ==> 1 <= t.started[k].sequence <= t.sequence)
  }

  /** No two runs, finished or open, have the same sequence number. */
  predicate DistinctNumbers(t: Trace) {
    && DistinctSequences(t.runs)
    && (forall k, l :: k in t.started && l in t.started && k != l ==> t.started[k].sequence != t.started[l].sequence)
    && (forall r, k :: r in t.runs && k in t.started ==> r.sequence != t.started[k].sequence)
  }

  predicate DistinctSequences(rs: seq<Run>) {
    forall i, j :: 0 <= i < j < |rs| ==> rs[i].sequence != rs[j].sequence
  }

  predicate Inv(t: Trace) { WithinBound(t) && Numbered(t) && DistinctNumbers(t) }

  lemma StartKeepsInv(t: Trace, task: string, node: string)
    requires Inv(t)
    ensures Inv(Start(t, task, node))
  {
  }

  lemma FinishKeepsInv(t: Trace, task: string, status: Status)
    requires Inv(t)
    ensures Inv(Finish(t, task, status))
    ensures task in t.started ==> Finish(t, task, status).runs == t.runs + [RunOf(task, t.started[task], status)]
  {
    if task in t.started {
      Without(t.started, task);
      var rs := t.runs + [RunOf(task, t.started[task], status)];
      assert forall i :: 0 <= i < |t.runs| ==> t.runs[i] in t.runs;
      assert DistinctSequences(rs);
    }
  }

  lemma Without(m: map<string, Open>, key: string)
    requires key in m
    ensures |m - {key}| == |m| - 1
  {
    assert (m - {key}).Keys == m.Keys - {key};
    assert |m.Keys| == |m| && |(m - {key}).Keys| == |m - {key}|;
  }

  lemma With(m: map<string, Open>, key: string, o: Open)
    ensures |m[key := o]| == |m| + if key in m then 0 else 1
  {
    assert m[key := o].Keys == m.Keys + {key};
    assert |m[key := o].Keys| == |m[key := o]| && |m.Keys| == |m|;
  }

  lemma AfterKeepsInv(t: Trace, step: Step)
    requires Inv(t)
    ensures Inv(After(t, step))
  {
    match step
    case Ignored =>
    case Begin(task, node) => StartKeepsInv(t, task, node);
    case End(task, status) => FinishKeepsInv(t, task, status);
  }

  lemma {:induction false} ObservedInv(steps: seq<Step>)
    ensures Inv(Observed(steps))
  {
    if steps != [] {
      ObservedInv(steps[..|steps| - 1]);
      AfterKeepsInv(Observed(steps[..|steps| - 1]), steps[|steps| - 1]);
    }
  }

  /** Finishing an open task always records its run: the bound never discards an open run. */
  lemma FinishAlwaysRecords(steps: seq<Step>, task: string, status: Status)
    requires task in Observed(steps).started
    ensures var before, after := Observed(steps), Observed(steps + [End(task, status)]);
      && after.runs == before.runs + [RunOf(task, before.started[task], status)]
      && after.started == before.started - {task}
  {
    ObservedInv(steps);
    FinishKeepsInv(Observed(steps), task, status);
    var all := steps + [End(task, status)];
    assert all[..|all| - 1] == steps;
  }

  // ----- which starts are lost -----

  /** An admitted start whose task is still open replaces the open run. */
  predicate Replaces(t: Trace, step: Step) {
    step.Begin? && |t.runs| + |t.started| < MAX_NODE_RUNS && step.task in t.started
  }

  function Replaced(steps: seq<Step>): nat {
    if steps == [] then 0
    else
      var before := steps[..|steps| - 1];
      Replaced(before) + if Replaces(Observed(before), steps[|steps| - 1]) then 1 else 0
  }

  /** Starts not yet accounted for by a run. */
  function Missing(t: Trace): int { t.sequence - |t.runs| - |t.started| }

  lemma StepMissing(t: Trace, step: Step)
    requires Inv(t)
    ensures Missing(After(t, step)) == Missing(t) + if Replaces(t, step) then 1 else 0
  {
    match step
    case Ignored =>
    case Begin(task, node) =>
      With(t.started, task, Open(node, t.sequence + 1, Invocations(t, node) + 1));
    case End(task, status) =>
      if task in t.started {
        Without(t.started, task);
      }
  }

  /** Every admitted start is finished, open, or was replaced by a start of the same task. */
  lemma {:induction false} EveryStartIsAccountedFor(steps: seq<Step>)
    ensures Observed(steps).sequence == |Observed(steps).runs| + |Observed(steps).started| + Replaced(steps)
  {
    if steps != [] {
      var before := steps[..|steps| - 1];
      EveryStartIsAccountedFor(before);
      ObservedInv(before);
      StepMissing(Observed(before), steps[|steps| - 1]);
    }
  }

  function RunNumbers(rs: seq<Run>): set<nat> { set r | r in rs :: r.sequence }

  function OpenNumbers(started: map<string, Open>): set<nat> { set k | k in started :: started[k].sequence }

  lemma {:induction false} RunNumbersCount(rs: seq<Run>)
    requires DistinctSequences(rs)
    ensures |RunNumbers(rs)| == |rs|
  {
    if rs != [] {
      var rest, last := rs[..|rs| - 1], rs[|rs| - 1];
      RunNumbersCount(rest);
      assert rs == rest + [last];
      assert RunNumbers(rs) == RunNumbers(rest) + {last.sequence};
    }
  }

  lemma {:induction false} OpenNumbersCount(started: map<string, Open>)
    requires forall k, l :: k in started && l in started && k != l ==> started[k].sequence != started[l].sequence
    ensures |OpenNumbers(started)| == |started|
    decreases |started|
  {
    if k :| k in started {
      var rest := started - {k};
      Without(started, k);
      OpenNumbersCount(rest);
      var n := started[k].sequence;
      assert OpenNumbers(started) == OpenNumbers(rest) + {n} by {
        assert started == rest[k := started[k]];
      }
      assert n !in OpenNumbers(rest);
    } else {
      assert started == map[] && OpenNumbers(started) == {};
    }
  }

  lemma {:induction false} UpTo(n: nat, numbers: set<nat>)
    requires forall k :: k in numbers ==> 1 <= k <= n
    ensures |numbers| <= n
    ensures |numbers| == n <==> forall k :: 1 <= k <= n ==> k in numbers
  {
    if n == 0 {
      assert numbers == {};
    } else {
      UpTo(n - 1, numbers - {n});
      assert forall k :: 1 <= k <= n - 1 ==> (k in numbers - {n} <==> k in numbers);
      assert (forall k :: 1 <= k <= n ==> k in numbers) <==>
        n in numbers && forall k :: 1 <= k <= n - 1 ==> k in numbers;
      if n in numbers {
        assert |numbers - {n}| == |numbers| - 1;
      } else {
        assert numbers - {n} == numbers;
      }
    }
  }

  /** The numbers of all runs, finished and open. */
  function Numbers(t: Trace): set<nat> { RunNumbers(t.runs) + OpenNumbers(t.started) }

  lemma NumbersCount(t: Trace)
    requires Inv(t)
    ensures |Numbers(t)| == |t.runs| + |t.started|
    ensures forall n :: n in Numbers(t) ==> 1 <= n <= t.sequence
  {
    RunNumbersCount(t.runs);
    OpenNumbersCount(t.started);
    assert RunNumbers(t.runs) !! OpenNumbers(t.started);
  }

  /** No admitted start is lost exactly if none replaced an open run of its own task. */
  lemma NothingIsLostIff(steps: seq<Step>)
    ensures (forall n :: 1 <= n <= Observed(steps).sequence ==> n in Numbers(Observed(steps))) <==> Replaced(steps) == 0
  {
    ObservedInv(steps);
    EveryStartIsAccountedFor(steps);
    NumbersCount(Observed(steps));
    UpTo(Observed(steps).sequence, Numbers(Observed(steps)));
  }

  lemma ObservedAppend(steps: seq<Step>, step: Step)
    ensures Observed(steps + [step]) == After(Observed(steps), step)
  {
    var all := steps + [step];
    assert all[..|all| - 1] == steps;
  }

  /** Starting a task twice before it finishes loses its first run. */
  lemma RestartLosesARun(task: string, node: string)
    ensures var t := Observed([Begin(task, node), Begin(task, node)]);
      t.sequence == 2 && 1 !in Numbers(t)
  {
    var b := Begin(task, node);
    ObservedAppend([], b);
    ObservedAppend([b], b);
    assert [] + [b] == [b] && [b] + [b] == [b, b];
    assert EMPTY.started.Keys == {} && |EMPTY.started| == |EMPTY.started.Keys|;
    assert Observed([b]).started == map[task := Open(node, 1, 1)];
    assert Observed([b, b]).started == map[task := Open(node, 2, 2)];
  }

  // ----- invocation numbers -----

  /** The runs without their state: finished or open makes no difference. */
  function Records(t: Trace): set<Open> { RunRecords(t.runs) + OpenRecords(t.started) }

  function RunRecords(rs: seq<Run>): set<Open> { set r | r in rs :: Open(r.node, r.sequence, r.invocation) }

  function OpenRecords(started: map<string, Open>): set<Open> { set k | k in started :: started[k] }

  /** The invocations of a node are numbered in the order of the starts, up to the node's counter. */
  ghost predicate InOrder(records: set<Open>, invocations: map<string, nat>) {
    && (forall a, b :: a in records && b in records && a.node == b.node && a.sequence < b.sequence ==>
      a.invocation < b.invocation)
    && (forall a :: a in records ==> a.node in invocations && 1 <= a.invocation <= invocations[a.node])
  }

  lemma RecordsAfterStart(t: Trace, task: string, node: string)
    ensures var u := Start(t, task, node);
      Records(u) <= Records(t) + if u == t then {} else {Open(node, t.sequence + 1, Invocations(t, node) + 1)}
  {
  }

  lemma RunRecordsAppend(rs: seq<Run>, task: string, o: Open, status: Status)
    ensures RunRecords(rs + [RunOf(task, o, status)]) == RunRecords(rs) + {o}
  {
    assert o == Open(o.node, o.sequence, o.invocation);
  }

  lemma OpenRecordsWithout(started: map<string, Open>, task: string)
    requires task in started
    ensures OpenRecords(started) == OpenRecords(started - {task}) + {started[task]}
  {
    assert started == (started - {task})[task := started[task]];
  }

  lemma RecordsAfterFinish(t: Trace, task: string, status: Status)
    requires Inv(t)
    ensures Records(Finish(t, task, status)) == Records(t)
  {
    if task in t.started {
      FinishKeepsInv(t, task, status);
      RunRecordsAppend(t.runs, task, t.started[task], status);
      OpenRecordsWithout(t.started, task);
    }
  }

  lemma RecordsAreNumbered(t: Trace)
    requires Inv(t)
    ensures forall a :: a in Records(t) ==> a.sequence <= t.sequence
  {
  }

  lemma InOrderGrows(records: set<Open>, invocations: map<string, nat>, o: Open, grown: set<Open>)
    requires InOrder(records, invocations) && forall a :: a in records ==> a.sequence < o.sequence
    requires o.invocation == 1 + if o.node in invocations then invocations[o.node] else 0
    requires grown <= records + {o}
    ensures InOrder(grown, invocations[o.node := o.invocation])
  {
  }

  lemma {:induction false} InvocationsAreNumbered(steps: seq<Step>)
    ensures InOrder(Records(Observed(steps)), Observed(steps).invocations)
  {
    if steps != [] {
      var before, step := steps[..|steps| - 1], steps[|steps| - 1];
      var t := Observed(before);
      InvocationsAreNumbered(before);
      ObservedInv(before);
      if step.End? {
        RecordsAfterFinish(t, step.task, step.status);
      } else if step.Begin? && Start(t, step.task, step.node) != t {
        RecordsAreNumbered(t);
        RecordsAfterStart(t, step.task, step.node);
        InOrderGrows(Records(t), t.invocations, Open(step.node, t.sequence + 1, Invocations(t, step.node) + 1),
          Records(Start(t, step.task, step.node)));
      }
    }
  }

  // ----- snapshots -----

  function PendingStatus(overall: string): Status {
    if overall == "failed" then Failed else if overall == "running" then Running else Interrupted
  }

  predicate Ascending(rs: seq<Run>) {
    forall i, j :: 0 <= i < j < |rs| ==> rs[i].sequence < rs[j].sequence
  }

  predicate IsPending(t: Trace, status: Status, r: Run) {
    r.task in t.started && r == RunOf(r.task, t.started[r.task], status)
  }

  /** In the order of the starts, every finished and every open run once, nothing cut off. */
  ghost predicate IsSnapshot(t: Trace, overall: string, rs: seq<Run>) {
    && Ascending(rs)
    && |rs| == |t.runs| + |t.started|
    && forall r :: r in rs <==> r in t.runs || IsPending(t, PendingStatus(overall), r)
  }

  lemma SameLast(a: seq<Run>, b: seq<Run>)
    requires Ascending(a) && Ascending(b) && a != [] && b != [] && forall r :: r in a <==> r in b
    ensures a[|a| - 1] == b[|b| - 1]
  {
    var x, y := a[|a| - 1], b[|b| - 1];
    assert x in b && y in a;
    var i :| 0 <= i < |b| && b[i] == x;
    var j :| 0 <= j < |a| && a[j] == y;
    assert x.sequence <= y.sequence && y.sequence <= x.sequence;
  }

  lemma {:induction false} AscendingIsUnique(a: seq<Run>, b: seq<Run>)
    requires Ascending(a) && Ascending(b) && |a| == |b| && forall r :: r in a <==> r in b
    ensures a == b
  {
    if a != [] {
      var n := |a| - 1;
      SameLast(a, b);
      assert a == a[..n] + [a[n]] && b == b[..n] + [a[n]];
      forall r ensures r in a[..n] <==> r in b[..n] {
        assert r in a <==> r in a[..n] || r == a[n];
        assert r in b <==> r in b[..n] || r == a[n];
        assert a[n] !in a[..n] && a[n] !in b[..n];
      }
      AscendingIsUnique(a[..n], b[..n]);
    }
  }

  lemma SnapshotIsUnique(t: Trace, overall: string, a: seq<Run>, b: seq<Run>)
    requires IsSnapshot(t, overall, a) && IsSnapshot(t, overall, b)
    ensures a == b
  {
    AscendingIsUnique(a, b);
  }

  lemma AscendingCons(x: Run, rs: seq<Run>)
    requires Ascending(rs) && forall y :: y in rs ==> x.sequence < y.sequence
    ensures Ascending([x] + rs)
  {
  }

  lemma AscendingTail(rs: seq<Run>)
    requires Ascending(rs) && rs != []
    ensures Ascending(rs[1..]) && forall y :: y in rs[1..] ==> rs[0].sequence < y.sequence
    ensures forall y :: y in rs <==> y == rs[0] || y in rs[1..]
  {
    assert rs == [rs[0]] + rs[1..];
  }

  function InsertRun(rs: seq<Run>, x: Run): (r: seq<Run>)
    requires Ascending(rs) && forall y :: y in rs ==> y.sequence != x.sequence
    ensures Ascending(r) && |r| == |rs| + 1
    ensures forall y :: y in r <==> y == x || y in rs
  {
    if rs == [] then [x]
    else
      AscendingTail(rs);
      if x.sequence < rs[0].sequence then
        AscendingCons(x, rs);
        [x] + rs
      else
        var rest := InsertRun(rs[1..], x);
        AscendingCons(rs[0], rest);
        [rs[0]] + rest
  }

  lemma LastIsDistinct(rs: seq<Run>)
    requires DistinctSequences(rs) && rs != []
    ensures DistinctSequences(rs[..|rs| - 1])
    ensures forall y :: y in rs[..|rs| - 1] ==> y.sequence != rs[|rs| - 1].sequence
    ensures forall y :: y in rs <==> y in rs[..|rs| - 1] || y == rs[|rs| - 1]
  {
    assert rs == rs[..|rs| - 1] + [rs[|rs| - 1]];
  }

  function SortRuns(rs: seq<Run>): (r: seq<Run>)
    requires DistinctSequences(rs)
    ensures Ascending(r) && |r| == |rs|
    ensures forall y :: y in r <==> y in rs
  {
    if rs == [] then []
    else
      LastIsDistinct(rs);
      InsertRun(SortRuns(rs[..|rs| - 1]), rs[|rs| - 1])
  }

  class NodeRunCollector {
    const nodeIds: set<string>
    var started: map<string, Open>
    var runs: seq<Run>
    var invocations: map<string, nat>
    var sequence: nat

    ghost function State(): Trace
      reads this
    {
      Trace(started, runs, invocations, sequence)
    }

    constructor (nodeIds: set<string>)
      ensures State() == Observed([]) && this.nodeIds == nodeIds
    {
      this.nodeIds := nodeIds;
      started, runs, invocations, sequence := map[], [], map[], 0;
    }

    method Observe(e: Event)
      modifies this
      ensures State() == After(old(State()), Reading(nodeIds, e))
    {
      match Reading(nodeIds, e)
      case Ignored =>
      case Begin(task, node) => OpenRun(task, node);
      case End(task, status) => CloseRun(task, status);
    }

    method OpenRun(task: string, node: string)
      modifies this
      ensures State() == Start(old(State()), task, node)
    {
      if |runs| + |started| >= MAX_NODE_RUNS {
        return;
      }
      sequence := sequence + 1;
      var nth := (if node in invocations then invocations[node] else 0) + 1;
      invocations := invocations[node := nth];
      started := started[task := Open(node, sequence, nth)];
    }

    method CloseRun(task: string, status: Status)
      modifies this
      ensures State() == Finish(old(State()), task, status)
    {
      if task !in started {
        return;
      }
      var open := started[task];
      started := started - {task};
      if |runs| >= MAX_NODE_RUNS {
        return;
      }
      runs := runs + [Run(task, open.node, open.sequence, open.invocation, status)];
    }

    /** The open runs with this status. */
    method PendingRuns(status: Status) returns (pending: seq<Run>)
      ensures |pending| == |started|
      ensures forall r :: r in pending <==> IsPending(State(), status, r)
      ensures forall i, j :: 0 <= i < j < |pending| ==> pending[i].task != pending[j].task
    {
      pending := [];
      var todo := started.Keys;
      while todo != {}
        invariant todo <= started.Keys && |pending| == |started.Keys| - |todo|
        invariant forall r :: r in pending <==> r.task !in todo && IsPending(State(), status, r)
        invariant forall i, j :: 0 <= i < j < |pending| ==> pending[i].task != pending[j].task
        decreases |todo|
      {
        var task :| task in todo;
        pending := pending + [RunOf(task, started[task], status)];
        todo := todo - {task};
      }
      assert |started.Keys| == |started|;
    }

    method Snapshot(overall: string) returns (nodeRuns: seq<Run>)
      requires Inv(State())
      ensures IsSnapshot(State(), overall, nodeRuns)
    {
      var pending := PendingRuns(PendingStatus(overall));
      AllDistinct(State(), PendingStatus(overall), pending);
      var ordered := SortRuns(runs + pending);
      var cut := if |ordered| < MAX_NODE_RUNS then |ordered| else MAX_NODE_RUNS;
      assert ordered[..|ordered|] == ordered;
      nodeRuns := ordered[..cut];
    }
  }

  lemma AllDistinct(t: Trace, status: Status, pending: seq<Run>)
    requires Inv(t)
    requires forall r :: r in pending ==> IsPending(t, status, r)
    requires forall i, j :: 0 <= i < j < |pending| ==> pending[i].task != pending[j].task
    ensures DistinctSequences(t.runs + pending)
  {
    var all := t.runs + pending;
    forall i, j | 0 <= i < j < |all| ensures all[i].sequence != all[j].sequence {
      assert j >= |t.runs| ==> all[j] in pending;
      assert i >= |t.runs| ==> all[i] in pending;
      assert i < |t.runs| ==> all[i] in t.runs;
    }
  }
}

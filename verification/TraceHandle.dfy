/** A collector shared with a graph that may outlive its deadline, and sealed at the deadline. */
module TraceHandle {
  import opened Seqs
  import opened NodeRuns

  datatype Call = Observe(step: Step) | Interrupt

  datatype Handle = Handle(trace: Trace, isSealed: bool)

  function Called(h: Handle, call: Call): Handle {
    match call
    case Observe(step) => if h.isSealed then h else Handle(After(h.trace, step), false)
    case Interrupt => Handle(h.trace, true)
  }

  /** The handle after calls in any interleaving of the graph's thread and the coordinator. */
  function Played(calls: seq<Call>): Handle {
    if calls == [] then Handle(EMPTY, false) else Called(Played(calls[..|calls| - 1]), calls[|calls| - 1])
  }

  /** The events observed before the first interrupt. */
  function InTime(calls: seq<Call>): seq<Step> {
    if calls == [] || calls[0].Interrupt? then [] else [calls[0].step] + InTime(calls[1..])
  }

  lemma {:induction false} InTimeAppend(calls: seq<Call>, call: Call)
    ensures InTime(calls + [call])
      == if Interrupt in calls || call.Interrupt? then InTime(calls) else InTime(calls) + [call.step]
  {
    if calls != [] {
      var all := calls + [call];
      assert all[0] == calls[0] && all[1..] == calls[1..] + [call];
      InTimeAppend(calls[1..], call);
      assert calls == [calls[0]] + calls[1..];
    } else {
      assert [call][1..] == [];
    }
  }

  /** What the handle holds is exactly what was observed before the first interrupt, whatever comes later. */
  lemma {:induction false} SealedForGood(calls: seq<Call>)
    ensures Played(calls) == Handle(Observed(InTime(calls)), Interrupt in calls)
  {
    if calls != [] {
      var before, call := calls[..|calls| - 1], calls[|calls| - 1];
      SealedForGood(before);
      assert calls == before + [call];
      InTimeAppend(before, call);
      if call.Observe? {
        ObservedAppend(InTime(before), call.step);
      }
    }
  }

  class GraphTraceHandle {
    const collector: NodeRunCollector?
    var isSealed: bool

    ghost predicate Valid()
      reads this, collector
    {
      collector != null ==> Inv(collector.State())
    }

    constructor (collector: NodeRunCollector?)
      requires collector != null ==> Inv(collector.State())
      ensures this.collector == collector && !isSealed && Valid()
    {
      this.collector := collector;
      isSealed := false;
    }

    method Observe(e: Event)
      requires Valid()
      modifies collector
      ensures Valid()
      ensures collector != null ==>
        Handle(collector.State(), isSealed)
          == Called(Handle(old(collector.State()), isSealed), Call.Observe(Reading(collector.nodeIds, e)))
    {
      if !isSealed && collector != null {
        AfterKeepsInv(collector.State(), Reading(collector.nodeIds, e));
        collector.Observe(e);
      }
    }

    /** Seal the handle and return the snapshot at that time. */
    method Interrupt() returns (nodeRuns: Option<seq<Run>>)
      requires Valid()
      modifies this`isSealed
      ensures isSealed && Valid()
      ensures nodeRuns.Some? <==> collector != null
      ensures collector != null ==>
        IsSnapshot(collector.State(), "interrupted", nodeRuns.value) && collector.State() == old(collector.State())
    {
      isSealed := true;
      if collector == null {
        return None;
      }
      var runs := collector.Snapshot("interrupted");
      nodeRuns := Some(runs);
    }
  }
}

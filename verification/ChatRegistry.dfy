/** The process-wide registry of chat answer jobs; every method is one section under its lock. */
module ChatRegistry {
  import opened Seqs
  import opened ChatEvents
  import opened ChatRuns

  lemma FilterNext(events: seq<Event>, i: nat, p: Event -> bool)
    requires i < |events|
    ensures Filter(events[..i + 1], p) == Filter(events[..i], p) + if p(events[i]) then [events[i]] else []
  {
    assert events[..i + 1] == events[..i] + [events[i]];
    FilterAppend(events[..i], [events[i]], p);
  }

  /** The event comes last, and before it as many of the latest others as the limit allows. */
  predicate IsNewest(before: seq<Event>, event: Event, after: seq<Event>, limit: nat) {
    && |after| == (if |before| < limit then |before| + 1 else limit)
    && limit >= 1
    && after[|after| - 1] == event
    && after[..|after| - 1] == before[|before| + 1 - |after|..]
  }

  lemma NewestAreKept(before: seq<Event>, event: Event, limit: nat)
    requires limit >= 1
    ensures IsNewest(before, event, Kept(before + [event], limit), limit)
  {
  }

  lemma SeparateNext(events: seq<Event>, i: nat, owner: Option<string>)
    requires i < |events|
    ensures var e, before, after := events[i], events[..i], events[..i + 1];
      && Filter(after, OwnedBy(owner))
        == (if e.owner == owner then Filter(before, OwnedBy(owner)) + [e] else Filter(before, OwnedBy(owner)))
      && Filter(after, NotOwnedBy(owner))
        == (if e.owner == owner then Filter(before, NotOwnedBy(owner)) else Filter(before, NotOwnedBy(owner)) + [e])
  {
    FilterNext(events, i, OwnedBy(owner));
    FilterNext(events, i, NotOwnedBy(owner));
  }

  method Separate(events: seq<Event>, owner: Option<string>) returns (taken: seq<Event>, left: seq<Event>)
    ensures taken == Filter(events, OwnedBy(owner)) && left == Filter(events, NotOwnedBy(owner))
  {
    taken, left := [], [];
    for i := 0 to |events|
      invariant taken == Filter(events[..i], OwnedBy(owner)) && left == Filter(events[..i], NotOwnedBy(owner))
    {
      SeparateNext(events, i, owner);
      if events[i].owner == owner {
        taken := taken + [events[i]];
      } else {
        left := left + [events[i]];
      }
    }
    assert events[..|events|] == events;
  }

  // ----- the registry as the shared part of a world -----

  datatype Shared = Shared(running: set<string>, pending: set<string>, events: seq<Event>)

  function Part(w: World): Shared { Shared(w.running, w.pending, w.events) }

  /** Whatever the world around it, every such step takes the registry from `before` to `after`. */
  ghost predicate Performs(before: Shared, after: Shared, limit: nat, step: (World, Step) -> bool) {
    forall w, s :: Part(w) == before && CanStep(w, s) && step(w, s) ==> Part(Next(w, limit, s)) == after
  }

  /** No such step can happen while the registry is in this state. */
  ghost predicate Bars(state: Shared, step: (World, Step) -> bool) {
    forall w, s :: Part(w) == state && step(w, s) ==> !CanStep(w, s)
  }

  /** A job reports its outcome by this event. */
  function Reporting(event: Event): (World, Step) -> bool {
    (w: World, s: Step) => Records(s) && !s.Release? && JobOf(s) in w.jobs && event == EventOf(w, JobOf(s), KindOf(s))
  }

  function Consuming(owner: Option<string>): (World, Step) -> bool { (w: World, s: Step) => s == Step.Consume(owner) }

  function Admitting(job: string, waiting: bool): (World, Step) -> bool {
    (w: World, s: Step) => s.Admit? && s.job == job && s.waiting == waiting
  }

  function Withdrawing(job: string): (World, Step) -> bool {
    (w: World, s: Step) => s == StoringFails(job) || s == ThreadFails(job)
  }

  function Releasing(job: string, progress: Event): (World, Step) -> bool {
    (w: World, s: Step) => s == Release(job) && job in w.jobs && progress == EventOf(w, job, Progress)
  }

  function Leaving(job: string): (World, Step) -> bool { (w: World, s: Step) => s == Step.Leave(job) }

  lemma RecordPerforms(before: Shared, event: Event, limit: nat)
    ensures Performs(before, before.(events := Kept(before.events + [event], limit)), limit, Reporting(event))
  {
  }

  lemma ConsumePerforms(before: Shared, owner: Option<string>, limit: nat)
    ensures Performs(before, before.(events := Filter(before.events, NotOwnedBy(owner))), limit, Consuming(owner))
  {
  }

  lemma AdmitPerforms(before: Shared, job: string, waiting: bool, limit: nat)
    ensures Performs(before,
      before.(running := before.running + {job}, pending := before.pending + if waiting then {job} else {}),
                     limit, Admitting(job, waiting))
    ensures waiting && before.pending != {} ==> Bars(before, Admitting(job, waiting))
  {
  }

  lemma WithdrawPerforms(before: Shared, job: string, limit: nat)
    ensures Performs(before, before.(running := before.running - {job}, pending := before.pending - {job}), limit,
      Withdrawing(job))
  {
  }

  function Unqueued(before: Shared, job: string, progress: Event, limit: nat): Shared {
    if job in before.pending
    then before.(pending := before.pending - {job}, events := Kept(before.events + [progress], limit))
    else before
  }

  lemma ReleasePerforms(before: Shared, job: string, progress: Event, limit: nat)
    ensures Performs(before, Unqueued(before, job, progress, limit), limit, Releasing(job, progress))
  {
  }

  lemma LeavePerforms(before: Shared, job: string, limit: nat)
    ensures Performs(before, before.(running := before.running - {job}), limit, Leaving(job))
  {
  }

  /** A registry that takes the steps of a run stays within what every run keeps. */
  lemma PerformedStepsKeepTheRegistry(
    steps: seq<Step>, w: World, s: Step, after: Shared, limit: nat, step: (World, Step) -> bool)
    requires IsRun(limit, steps, w) && CanStep(w, s) && step(w, s) && Performs(Part(w), after, limit, step)
    ensures |after.pending| <= 1 && after.pending <= after.running && |after.events| <= limit
  {
    OneMoreStep(limit, steps, w, s);
    SetsInEveryRun(limit, steps + [s], Next(w, limit, s));
    RunInv(limit, steps + [s], Next(w, limit, s));
    assert Part(Next(w, limit, s)) == after;
  }

  class Registry {
    var running: set<string>
    var pending: set<string>
    var events: seq<Event>
    const configured: int

    constructor (configured: int)
      ensures State() == Part(START) && this.configured == configured
    {
      running, pending, events := {}, {}, [];
      this.configured := configured;
    }

    function State(): Shared
      reads this
    {
      Shared(running, pending, events)
    }

    /** `_record_chat_job_event` */
    method Record(event: Event)
      modifies this`events
      ensures events == Kept(old(events) + [event], Limit(configured))
      ensures IsNewest(old(events), event, events, Limit(configured))
      ensures Performs(old(State()), State(), Limit(configured), Reporting(event))
    {
      RecordPerforms(State(), event, Limit(configured));
      NewestAreKept(events, event, Limit(configured));
      Append(event);
    }

    method Append(event: Event)
      modifies this`events
      ensures events == Kept(old(events) + [event], Limit(configured))
    {
      events := events + [event];
      var limit := if configured < 1 then 1 else configured;
      if |events| > limit {
        events := events[|events| - limit..];
      }
    }

    /** `consume_chat_job_events` */
    method Consume(owner: Option<string>) returns (taken: seq<Event>)
      modifies this`events
      ensures taken == Filter(old(events), OwnedBy(owner))
      ensures events == Filter(old(events), NotOwnedBy(owner))
      ensures Performs(old(State()), State(), Limit(configured), Consuming(owner))
    {
      ConsumePerforms(State(), owner, Limit(configured));
      var left;
      taken, left := Separate(events, owner);
      events := left;
    }

    /** Admission of a job: at most one may wait for the engine. */
    method Admit(job: string, waiting: bool) returns (admitted: bool)
      modifies this`running, this`pending
      ensures admitted <==> !(waiting && old(pending) != {})
      ensures admitted ==> running == old(running) + {job} && pending == old(pending) + if waiting then {job} else {}
      ensures admitted ==> Performs(old(State()), State(), Limit(configured), Admitting(job, waiting))
      ensures !admitted ==> State() == old(State()) && Bars(State(), Admitting(job, waiting))
    {
      AdmitPerforms(State(), job, waiting, Limit(configured));
      if waiting && pending != {} {
        return false;
      }
      if waiting {
        pending := pending + {job};
      }
      running := running + {job};
      admitted := true;
    }

    /** Undoing an admission when the messages cannot be stored or the thread cannot be started. */
    method Withdraw(job: string)
      modifies this`running, this`pending
      ensures running == old(running) - {job} && pending == old(pending) - {job}
      ensures Performs(old(State()), State(), Limit(configured), Withdrawing(job))
    {
      WithdrawPerforms(State(), job, Limit(configured));
      running := running - {job};
      pending := pending - {job};
    }

    /** The locked part of `release_engine_queue`. */
    method ReleaseEngineQueue(job: string, progress: Event) returns (wasPending: bool)
      modifies this`pending, this`events
      ensures wasPending == (job in old(pending)) && pending == old(pending) - {job}
      ensures events == if wasPending then Kept(old(events) + [progress], Limit(configured)) else old(events)
      ensures Performs(old(State()), State(), Limit(configured), Releasing(job, progress))
    {
      ReleasePerforms(State(), job, progress, Limit(configured));
      wasPending := job in pending;
      if wasPending {
        Append(progress);
      }
      pending := pending - {job};
      assert State() == Unqueued(old(State()), job, progress, Limit(configured));
    }

    /** The last section of every answer job. */
    method Leave(job: string)
      modifies this`running
      ensures running == old(running) - {job}
      ensures Performs(old(State()), State(), Limit(configured), Leaving(job))
    {
      LeavePerforms(State(), job, Limit(configured));
      running := running - {job};
    }
  }
}

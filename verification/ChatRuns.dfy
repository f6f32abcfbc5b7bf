/** Answer jobs, their starters and the sessions reading events, interleaved in every way. */
module ChatRuns {
  import opened Seqs
  import opened ChatEvents

  /**
    Where a job stands: admitted, its messages stored, its thread at work, in the exception
    handler or in `finally`; or its thread could not be started; or over.
   */
  datatype Phase = Admitted | Stored | Working | Handling | Closing | Unstarted | Over

  datatype Job = Job(owner: Option<string>, waiting: bool, phase: Phase, released: bool, reported: bool)

  /**
    `running`, `pending` and `events` are the registry. The rest is history: all events ever
    recorded, those evicted by the limit and those handed to their owners, in order of time.
   */
  datatype World = World(
    jobs: map<string, Job>, running: set<string>, pending: set<string>, events: seq<Event>,
    log: seq<Event>, evicted: seq<Event>, delivered: seq<Event>)

  const START := World(map[], {}, {}, [], [], [], [])

  datatype Step =
    | Admit(job: string, owner: Option<string>, waiting: bool)
    | StoreMessages(job: string)
    | StoringFails(job: string)
    | StartThread(job: string)
    | ThreadFails(job: string)
    | ReportUnstarted(job: string)
    | Release(job: string)
    | Succeed(job: string)
    | Raise(job: string)
    | ReportFailure(job: string)
    | HandlerRaises(job: string)
    | Leave(job: string)
    | Consume(reader: Option<string>)

  predicate InPhase(w: World, job: string, phase: Phase) { job in w.jobs && w.jobs[job].phase == phase }

  /** `release_engine_queue` has nothing left to do. */
  predicate Released(w: World, job: string) { job in w.jobs && (w.jobs[job].waiting ==> w.jobs[job].released) }

  predicate CanStep(w: World, step: Step) {
    match step
    case Admit(job, _, waiting) => job !in w.jobs && !(waiting && w.pending != {})
    case StoreMessages(job) => InPhase(w, job, Admitted)
    case StoringFails(job) => InPhase(w, job, Admitted)
    case StartThread(job) => InPhase(w, job, Stored)
    case ThreadFails(job) => InPhase(w, job, Stored)
    case ReportUnstarted(job) => InPhase(w, job, Unstarted)
    case Release(job) =>
      (InPhase(w, job, Working) || InPhase(w, job, Handling) || InPhase(w, job, Closing)) && !Released(w, job)
    case Succeed(job) => InPhase(w, job, Working) && Released(w, job)
    case Raise(job) => InPhase(w, job, Working)
    case ReportFailure(job) => InPhase(w, job, Handling) && Released(w, job)
    case HandlerRaises(job) => InPhase(w, job, Handling) || InPhase(w, job, Unstarted)
    case Leave(job) => InPhase(w, job, Closing) && Released(w, job)
    case Consume(_) => true
  }

  function SetJob(w: World, job: string, j: Job): World { w.(jobs := w.jobs[job := j]) }

  function ToPhase(w: World, job: string, phase: Phase): World
    requires job in w.jobs
  {
    SetJob(w, job, w.jobs[job].(phase := phase))
  }

  function Withdrawn(w: World, job: string): World { w.(running := w.running - {job}, pending := w.pending - {job}) }

  function EventOf(w: World, job: string, kind: Kind): Event
    requires job in w.jobs
  {
    Event(|w.log|, w.jobs[job].owner, job, kind)
  }

  function Recorded(w: World, limit: nat, job: string, kind: Kind): World
    requires job in w.jobs
  {
    var e := EventOf(w, job, kind);
    var j := w.jobs[job];
    w.(events := Kept(w.events + [e], limit), log := w.log + [e], evicted := w.evicted + Dropped(w.events + [e], limit),
       jobs := w.jobs[job := if kind == Progress then j.(released := true) else j.(reported := true)])
  }

  function ConsumedBy(w: World, reader: Option<string>): World {
    w.(events := Filter(w.events, NotOwnedBy(reader)), delivered := w.delivered + Filter(w.events, OwnedBy(reader)))
  }

  function ReleasedWorld(w: World, limit: nat, job: string): World
    requires job in w.jobs
  {
    if job in w.pending
    then Recorded(w, limit, job, Progress).(pending := w.pending - {job})
    else SetJob(w, job, w.jobs[job].(released := true))
  }

  function Next(w: World, limit: nat, step: Step): World
    requires CanStep(w, step)
  {
    match step
    case Admit(job, owner, waiting) =>
      w.(jobs := w.jobs[job := Job(owner, waiting, Admitted, false, false)], running := w.running + {job},
         pending := w.pending + if waiting then {job} else {})
    case StoreMessages(job) => ToPhase(w, job, Stored)
    case StoringFails(job) => Withdrawn(ToPhase(w, job, Over), job)
    case StartThread(job) => ToPhase(w, job, Working)
    case ThreadFails(job) => Withdrawn(ToPhase(w, job, Unstarted), job)
    case ReportUnstarted(job) => ToPhase(Recorded(w, limit, job, Failed), job, Over)
    case Release(job) => ReleasedWorld(w, limit, job)
    case Succeed(job) => ToPhase(Recorded(w, limit, job, Succeeded), job, Closing)
    case Raise(job) => ToPhase(w, job, Handling)
    case ReportFailure(job) => ToPhase(Recorded(w, limit, job, Failed), job, Closing)
    case HandlerRaises(job) => ToPhase(w, job, if w.jobs[job].phase == Unstarted then Over else Closing)
    case Leave(job) => ToPhase(w, job, Over).(running := w.running - {job})
    case Consume(reader) => ConsumedBy(w, reader)
  }

  /** The worlds of a run: each follows from the one before by a possible step. */
  ghost predicate IsRun(limit: nat, steps: seq<Step>, w: World)
    decreases |steps|
  {
    if steps == [] then w == START
    else
      var n := |steps| - 1;
      exists v ::
        IsRun(limit, steps[..n], v) && CanStep(v, steps[n]) && w == Next(v, limit, steps[n])
  }

  lemma OneMoreStep(limit: nat, steps: seq<Step>, w: World, step: Step)
    requires IsRun(limit, steps, w) && CanStep(w, step)
    ensures IsRun(limit, steps + [step], Next(w, limit, step))
  {
    var all, n := steps + [step], |steps|;
    assert all[..n] == steps && all[n] == step;
  }

  // ----- jobs -----

  predicate Holds(j: Job) { j.phase !in {Unstarted, Over} }

  predicate Waits(j: Job) { Holds(j) && j.waiting && !j.released }

  /** The registry's sets are exactly the jobs under way and, of these, the one that waits for the engine. */
  ghost predicate SetsOk(jobs: map<string, Job>, running: set<string>, pending: set<string>) {
    && (forall k :: k in running <==> k in jobs && Holds(jobs[k]))
    && (forall k :: k in pending <==> k in jobs && Waits(jobs[k]))
    && (forall a, b :: a in pending && b in pending ==> a == b)
  }

  function Put(s: set<string>, job: string, member: bool): set<string> { if member then s + {job} else s - {job} }

  lemma SetsAfterPut(jobs: map<string, Job>, running: set<string>, pending: set<string>, job: string, j: Job)
    requires SetsOk(jobs, running, pending)
    requires Waits(j) ==> pending <= {job}
    ensures SetsOk(jobs[job := j], Put(running, job, Holds(j)), Put(pending, job, Waits(j)))
  {
  }

  function JobOf(step: Step): string
    requires !step.Consume?
  {
    step.job
  }

  /** Whatever a step does, it puts one job and the two sets follow. */
  lemma StepPuts(w: World, limit: nat, step: Step)
    requires SetsOk(w.jobs, w.running, w.pending) && CanStep(w, step) && !step.Consume?
    ensures var u, job := Next(w, limit, step), JobOf(step);
      && job in u.jobs
      && u.jobs == w.jobs[job := u.jobs[job]]
      && u.running == Put(w.running, job, Holds(u.jobs[job]))
      && u.pending == Put(w.pending, job, Waits(u.jobs[job]))
      && (Waits(u.jobs[job]) ==> w.pending <= {job})
  {
  }

  lemma SetsStay(w: World, limit: nat, step: Step)
    requires SetsOk(w.jobs, w.running, w.pending) && CanStep(w, step)
    ensures var u := Next(w, limit, step); SetsOk(u.jobs, u.running, u.pending)
  {
    if !step.Consume? {
      StepPuts(w, limit, step);
      SetsAfterPut(w.jobs, w.running, w.pending, JobOf(step), Next(w, limit, step).jobs[JobOf(step)]);
    }
  }

  // ----- events -----

  predicate Ascending(events: seq<Event>) {
    forall i, j :: 0 <= i < j < |events| ==> events[i].serial < events[j].serial
  }

  /** Every owner receives its events in the order they were recorded. */
  predicate OwnersAscending(events: seq<Event>) {
    forall i, j :: 0 <= i < j < |events| && events[i].owner == events[j].owner ==> events[i].serial < events[j].serial
  }

  ghost predicate AllBefore(a: seq<Event>, b: seq<Event>) { forall e, f :: e in a && f in b ==> e.serial < f.serial }

  ghost predicate OwnersBefore(a: seq<Event>, b: seq<Event>) {
    forall e, f :: e in a && f in b && e.owner == f.owner ==> e.serial < f.serial
  }

  predicate Numbered(log: seq<Event>) { forall i :: 0 <= i < |log| ==> log[i].serial == i }

  /** Each recorded event is queued, evicted or delivered, in one of these places and there once. */
  ghost predicate OneFate(events: seq<Event>, evicted: seq<Event>, delivered: seq<Event>, log: seq<Event>) {
    multiset(events) + multiset(evicted) + multiset(delivered) == multiset(log)
  }

  ghost predicate InSequence(events: seq<Event>, evicted: seq<Event>, delivered: seq<Event>) {
    && Ascending(events)
    && Ascending(evicted)
    && AllBefore(evicted, events)
    && OwnersAscending(delivered)
    && OwnersBefore(delivered, events)
  }

  ghost predicate EventsOk(w: World, limit: nat) {
    && Numbered(w.log)
    && |w.events| <= limit
    && OneFate(w.events, w.evicted, w.delivered, w.log)
    && InSequence(w.events, w.evicted, w.delivered)
  }

  lemma SplitByLimit(events: seq<Event>, limit: nat)
    requires Ascending(events)
    ensures events == Dropped(events, limit) + Kept(events, limit) && |Kept(events, limit)| <= limit
    ensures Ascending(Dropped(events, limit)) && Ascending(Kept(events, limit))
    ensures AllBefore(Dropped(events, limit), Kept(events, limit))
  {
  }

  lemma MembersAreLogged(events: seq<Event>, evicted: seq<Event>, delivered: seq<Event>, log: seq<Event>)
    requires OneFate(events, evicted, delivered, log) && Numbered(log)
    ensures forall e :: e in events || e in evicted || e in delivered ==> e.serial < |log|
  {
    forall e | e in events || e in evicted || e in delivered ensures e.serial < |log| {
      assert e in multiset(log);
    }
  }

  lemma Regroup<T(!new)>(
    queued: multiset<T>, gone: multiset<T>, all: multiset<T>, x: multiset<T>, dropped: multiset<T>, kept: multiset<T>)
    requires queued + gone == all && queued + x == dropped + kept
    ensures kept + dropped + gone == all + x
  {
    forall y ensures (kept + dropped + gone)[y] == (all + x)[y] {
      assert (queued + x)[y] == (dropped + kept)[y] && (queued + gone)[y] == all[y];
    }
  }

  lemma OneFateAfterRecord(
    events: seq<Event>, evicted: seq<Event>, delivered: seq<Event>, log: seq<Event>, e: Event, limit: nat)
    requires OneFate(events, evicted, delivered, log) && Ascending(events + [e])
    ensures OneFate(Kept(events + [e], limit), evicted + Dropped(events + [e], limit), delivered, log + [e])
  {
    var all := events + [e];
    var d, k := Dropped(all, limit), Kept(all, limit);
    SplitByLimit(all, limit);
    assert multiset(d + k) == multiset(d) + multiset(k);
    var gone := multiset(evicted) + multiset(delivered);
    assert multiset(events) + gone == multiset(log);
    Regroup(multiset(events), gone, multiset(log), multiset{e}, multiset(d), multiset(k));
    assert multiset(k) + multiset(evicted + d) + multiset(delivered) == multiset(k) + multiset(d) + gone;
  }

  lemma AscendingAppend(a: seq<Event>, b: seq<Event>)
    requires Ascending(a) && Ascending(b) && AllBefore(a, b)
    ensures Ascending(a + b)
  {
  }

  lemma SequenceAfterRecord(events: seq<Event>, evicted: seq<Event>, delivered: seq<Event>, e: Event, limit: nat)
    requires InSequence(events, evicted, delivered)
    requires forall f :: f in events || f in evicted || f in delivered ==> f.serial < e.serial
    ensures Ascending(events + [e])
    ensures InSequence(Kept(events + [e], limit), evicted + Dropped(events + [e], limit), delivered)
  {
    var all := events + [e];
    assert Ascending(all);
    SplitByLimit(all, limit);
    assert forall f :: f in all <==> f in events || f == e;
    assert forall f :: f in all <==> f in Dropped(all, limit) || f in Kept(all, limit);
    AscendingAppend(evicted, Dropped(all, limit));
  }

  lemma {:induction false} FilterParts(events: seq<Event>, owner: Option<string>)
    ensures multiset(Filter(events, OwnedBy(owner))) + multiset(Filter(events, NotOwnedBy(owner))) == multiset(events)
  {
    if events != [] {
      var first, rest := [events[0]], events[1..];
      FilterParts(rest, owner);
      assert events == first + rest;
      var mine, others := Filter(rest, OwnedBy(owner)), Filter(rest, NotOwnedBy(owner));
      assert multiset(first + mine) == multiset(first) + multiset(mine);
      assert multiset(first + others) == multiset(first) + multiset(others);
      assert multiset(events) == multiset(first) + multiset(rest);
    }
  }

  lemma {:induction false} FilterAscends(events: seq<Event>, p: Event -> bool)
    requires Ascending(events)
    ensures Ascending(Filter(events, p))
  {
    if events != [] {
      var rest := events[1..];
      FilterAscends(rest, p);
      assert forall i :: 0 <= i < |rest| ==> rest[i] == events[i + 1];
      assert AllBefore([events[0]], rest);
      AscendingAppend([events[0]], Filter(rest, p));
    }
  }

  lemma SequenceAfterConsume(events: seq<Event>, evicted: seq<Event>, delivered: seq<Event>, reader: Option<string>)
    requires InSequence(events, evicted, delivered)
    ensures InSequence(Filter(events, NotOwnedBy(reader)), evicted, delivered + Filter(events, OwnedBy(reader)))
  {
    FilterAscends(events, NotOwnedBy(reader));
    FilterAscends(events, OwnedBy(reader));
    var taken := Filter(events, OwnedBy(reader));
    assert forall i :: 0 <= i < |taken| ==> taken[i] in taken;
    assert forall i :: 0 <= i < |delivered| ==> delivered[i] in delivered;
    assert OwnersAscending(delivered + taken);
  }

  lemma EventsAfterRecord(w: World, limit: nat, job: string, kind: Kind)
    requires EventsOk(w, limit) && job in w.jobs
    ensures EventsOk(Recorded(w, limit, job, kind), limit)
  {
    var e := EventOf(w, job, kind);
    MembersAreLogged(w.events, w.evicted, w.delivered, w.log);
    SequenceAfterRecord(w.events, w.evicted, w.delivered, e, limit);
    OneFateAfterRecord(w.events, w.evicted, w.delivered, w.log, e, limit);
  }

  lemma EventsAfterConsume(w: World, limit: nat, reader: Option<string>)
    requires EventsOk(w, limit)
    ensures EventsOk(ConsumedBy(w, reader), limit)
  {
    FilterParts(w.events, reader);
    SequenceAfterConsume(w.events, w.evicted, w.delivered, reader);
  }

  lemma EventsStay(w: World, limit: nat, step: Step)
    requires EventsOk(w, limit) && CanStep(w, step)
    ensures EventsOk(Next(w, limit, step), limit)
  {
    match step
    case ReportUnstarted(job) => EventsAfterRecord(w, limit, job, Failed);
    case Release(job) => EventsAfterRecord(w, limit, job, Progress);
    case Succeed(job) => EventsAfterRecord(w, limit, job, Succeeded);
    case ReportFailure(job) => EventsAfterRecord(w, limit, job, Failed);
    case Consume(reader) => EventsAfterConsume(w, limit, reader);
    case _ =>
  }

  // ----- which events a job records -----

  function ProgressOf(job: string): Event -> bool { (e: Event) => e.job == job && e.kind == Progress }

  function OutcomeOf(job: string): Event -> bool { (e: Event) => e.job == job && e.kind != Progress }

  function Flag(b: bool): nat { if b then 1 else 0 }

  predicate HasReleased(jobs: map<string, Job>, k: string) { k in jobs && jobs[k].released }

  predicate HasReported(jobs: map<string, Job>, k: string) { k in jobs && jobs[k].reported }

  /** One progress event per job released from the queue and one outcome per job that reported. */
  ghost predicate ReportsOk(jobs: map<string, Job>, log: seq<Event>) {
    && (forall k :: |Filter(log, ProgressOf(k))| == Flag(HasReleased(jobs, k)))
    && (forall k :: |Filter(log, OutcomeOf(k))| == Flag(HasReported(jobs, k)))
  }

  /** Only a job about to end has reported. */
  ghost predicate ReportedLast(jobs: map<string, Job>) {
    forall k :: HasReported(jobs, k) ==> jobs[k].phase in {Closing, Over}
  }

  lemma CountsAfterRecord(log: seq<Event>, e: Event, k: string)
    ensures |Filter(log + [e], ProgressOf(k))| == |Filter(log, ProgressOf(k))| + Flag(e.job == k && e.kind == Progress)
    ensures |Filter(log + [e], OutcomeOf(k))| == |Filter(log, OutcomeOf(k))| + Flag(e.job == k && e.kind != Progress)
  {
    FilterAppend(log, [e], ProgressOf(k));
    FilterAppend(log, [e], OutcomeOf(k));
  }

  lemma ReportsAfterRecord(jobs: map<string, Job>, log: seq<Event>, e: Event, j: Job)
    requires ReportsOk(jobs, log) && e.job in jobs
    requires j.released == (jobs[e.job].released || e.kind == Progress)
    requires j.reported == (jobs[e.job].reported || e.kind != Progress)
    requires if e.kind == Progress then !jobs[e.job].released else !jobs[e.job].reported
    ensures ReportsOk(jobs[e.job := j], log + [e])
  {
    forall k
      ensures |Filter(log + [e], ProgressOf(k))| == Flag(HasReleased(jobs[e.job := j], k))
      ensures |Filter(log + [e], OutcomeOf(k))| == Flag(HasReported(jobs[e.job := j], k))
    {
      CountsAfterRecord(log, e, k);
    }
  }

  /** A step that records nothing leaves the flags. */
  lemma ReportsAfterPut(jobs: map<string, Job>, log: seq<Event>, job: string, j: Job)
    requires ReportsOk(jobs, log)
    requires j.released == HasReleased(jobs, job) && j.reported == HasReported(jobs, job)
    ensures ReportsOk(jobs[job := j], log)
  {
    forall k
      ensures HasReleased(jobs[job := j], k) == HasReleased(jobs, k)
      ensures HasReported(jobs[job := j], k) == HasReported(jobs, k)
    {
    }
  }

  predicate Records(step: Step) { step.ReportUnstarted? || step.Release? || step.Succeed? || step.ReportFailure? }

  function KindOf(step: Step): Kind {
    if step.Release? then Progress else if step.Succeed? then Succeeded else Failed
  }

  lemma RecordingStep(w: World, limit: nat, step: Step)
    requires SetsOk(w.jobs, w.running, w.pending) && CanStep(w, step) && Records(step)
    ensures var u, job := Next(w, limit, step), JobOf(step);
      && job in w.jobs && job in u.jobs
      && u.jobs == w.jobs[job := u.jobs[job]]
      && u.jobs[job].released == (w.jobs[job].released || step.Release?)
      && u.jobs[job].reported == (w.jobs[job].reported || !step.Release?)
      && (if step.Release? then !w.jobs[job].released
        else w.jobs[job].phase !in {Closing, Over} && u.jobs[job].phase in {Closing, Over})
      && u.log == w.log + [EventOf(w, job, KindOf(step))]
  {
  }

  lemma SilentStep(w: World, limit: nat, step: Step)
    requires CanStep(w, step) && !Records(step) && !step.Consume?
    ensures var u, job := Next(w, limit, step), JobOf(step);
      && job in u.jobs
      && u.jobs == w.jobs[job := u.jobs[job]]
      && u.jobs[job].released == HasReleased(w.jobs, job)
      && u.jobs[job].reported == HasReported(w.jobs, job)
      && (job in w.jobs && w.jobs[job].phase in {Closing, Over} ==> u.jobs[job].phase in {Closing, Over})
      && u.log == w.log
  {
  }

  lemma ReportsStay(w: World, limit: nat, step: Step)
    requires SetsOk(w.jobs, w.running, w.pending) && CanStep(w, step)
    requires ReportsOk(w.jobs, w.log) && ReportedLast(w.jobs)
    ensures var u := Next(w, limit, step); ReportsOk(u.jobs, u.log)
  {
    var u := Next(w, limit, step);
    if Records(step) {
      RecordingStep(w, limit, step);
      var job := JobOf(step);
      ReportsAfterRecord(w.jobs, w.log, EventOf(w, job, KindOf(step)), u.jobs[job]);
    } else if !step.Consume? {
      SilentStep(w, limit, step);
      ReportsAfterPut(w.jobs, w.log, JobOf(step), u.jobs[JobOf(step)]);
    }
  }

  lemma ReportedLastStays(w: World, limit: nat, step: Step)
    requires SetsOk(w.jobs, w.running, w.pending) && CanStep(w, step) && ReportedLast(w.jobs)
    ensures ReportedLast(Next(w, limit, step).jobs)
  {
    if Records(step) {
      RecordingStep(w, limit, step);
    } else if !step.Consume? {
      SilentStep(w, limit, step);
    }
  }

  // ----- whom events are for -----

  /** Every event names a job and its owner, and progress is reported only of a job that waited. */
  ghost predicate Addressed(jobs: map<string, Job>, log: seq<Event>) {
    forall e :: e in log ==>
      e.job in jobs && e.owner == jobs[e.job].owner && (e.kind == Progress ==> jobs[e.job].waiting)
  }

  lemma OwnersStay(w: World, limit: nat, step: Step)
    requires CanStep(w, step)
    ensures forall k :: k in w.jobs ==> var u := Next(w, limit, step);
      k in u.jobs && u.jobs[k].owner == w.jobs[k].owner && u.jobs[k].waiting == w.jobs[k].waiting
  {
  }

  lemma AddressedStay(w: World, limit: nat, step: Step)
    requires SetsOk(w.jobs, w.running, w.pending) && CanStep(w, step) && Addressed(w.jobs, w.log)
    ensures var u := Next(w, limit, step); Addressed(u.jobs, u.log)
  {
    OwnersStay(w, limit, step);
    if Records(step) {
      RecordingStep(w, limit, step);
    } else if !step.Consume? {
      SilentStep(w, limit, step);
    }
  }

  // ----- every run -----

  ghost predicate Inv(w: World, limit: nat) {
    && SetsOk(w.jobs, w.running, w.pending) && EventsOk(w, limit) && ReportsOk(w.jobs, w.log) && ReportedLast(w.jobs)
    && Addressed(w.jobs, w.log)
  }

  lemma {:induction false} RunInv(limit: nat, steps: seq<Step>, w: World)
    requires IsRun(limit, steps, w)
    ensures Inv(w, limit)
    decreases |steps|
  {
    if steps != [] {
      var n := |steps| - 1;
      var v :| IsRun(limit, steps[..n], v) && CanStep(v, steps[n]) && w == Next(v, limit, steps[n]);
      RunInv(limit, steps[..n], v);
      SetsStay(v, limit, steps[n]);
      EventsStay(v, limit, steps[n]);
      ReportsStay(v, limit, steps[n]);
      ReportedLastStays(v, limit, steps[n]);
      AddressedStay(v, limit, steps[n]);
    }
  }

  lemma LoggedSomewhere(events: seq<Event>, evicted: seq<Event>, delivered: seq<Event>, log: seq<Event>, e: Event)
    requires OneFate(events, evicted, delivered, log) && (e in events || e in evicted || e in delivered)
    ensures e in log
  {
    assert e in multiset(log);
  }

  /** Every event of a run, queued, evicted or delivered, names the owner its job was admitted for. */
  lemma EventsNameTheirOwner(limit: nat, steps: seq<Step>, w: World, e: Event)
    requires IsRun(limit, steps, w) && (e in w.events || e in w.evicted || e in w.delivered)
    ensures e.job in w.jobs && e.owner == w.jobs[e.job].owner && (e.kind == Progress ==> w.jobs[e.job].waiting)
  {
    RunInv(limit, steps, w);
    LoggedSomewhere(w.events, w.evicted, w.delivered, w.log, e);
  }

  /** At most one job waits for the engine, what waits is running, and a job that is over is in neither set. */
  lemma SetsInEveryRun(limit: nat, steps: seq<Step>, w: World)
    requires IsRun(limit, steps, w)
    ensures |w.pending| <= 1 && w.pending <= w.running
    ensures forall k :: InPhase(w, k, Over) || InPhase(w, k, Unstarted) ==> k !in w.running && k !in w.pending
  {
    RunInv(limit, steps, w);
    if a :| a in w.pending {
      assert w.pending == {a};
    }
  }

  /**
    Every recorded event is in exactly one place exactly once, and only events older than all queued ones
    are evicted.
   */
  lemma EventsInEveryRun(limit: nat, steps: seq<Step>, w: World, i: nat)
    requires IsRun(limit, steps, w) && i < |w.log|
    ensures |w.events| <= limit
    ensures multiset(w.events)[w.log[i]] + multiset(w.evicted)[w.log[i]] + multiset(w.delivered)[w.log[i]] == 1
    ensures AllBefore(w.evicted, w.events) && Ascending(w.events)
    ensures OwnersAscending(w.delivered) && OwnersBefore(w.delivered, w.events)
  {
    RunInv(limit, steps, w);
    OnceInLog(w.log, i);
  }

  /** A job announces its release from the queue at most once and its outcome at most once. */
  lemma ReportsInEveryRun(limit: nat, steps: seq<Step>, w: World, job: string)
    requires IsRun(limit, steps, w)
    ensures |Filter(w.log, ProgressOf(job))| == Flag(HasReleased(w.jobs, job))
    ensures |Filter(w.log, OutcomeOf(job))| == Flag(HasReported(w.jobs, job))
  {
    RunInv(limit, steps, w);
  }

  lemma OnceInLog(log: seq<Event>, i: nat)
    requires Numbered(log) && i < |log|
    ensures multiset(log)[log[i]] == 1
  {
    var e, l, r := log[i], log[..i], log[i + 1..];
    assert log == l + [e] + r;
    assert e !in l && e !in r;
  }

  /** Reading takes nothing from other owners. */
  lemma ReadersAreSeparate(w: World, reader: Option<string>, other: Option<string>)
    requires reader != other
    ensures Filter(ConsumedBy(w, reader).events, OwnedBy(other)) == Filter(w.events, OwnedBy(other))
  {
    FiltersNest(w.events, reader, other);
  }

  lemma {:induction false} FiltersNest(events: seq<Event>, reader: Option<string>, other: Option<string>)
    requires reader != other
    ensures Filter(Filter(events, NotOwnedBy(reader)), OwnedBy(other)) == Filter(events, OwnedBy(other))
  {
    if events != [] {
      FiltersNest(events[1..], reader, other);
    }
  }
}

/** Creators publishing fixed snapshots under one root, interleaved in every way and stopping anywhere. */
module SnapshotPublication {
  import opened Seqs
  import opened SnapshotManifest

  /** How far a creator has come with its temporary directory. */
  datatype Phase = Writing | Checked | Renaming | Published | Returned(snapshot: Outcome)

  datatype Creator = Creator(plan: Plan, directory: Directory, phase: Phase)

  /** The directories named by a revision, and the creators at work with their temporary directories. */
  datatype World = World(published: map<string, Directory>, creators: map<nat, Creator>)

  const START := World(map[], map[])

  datatype Step =
    | Begin(creator: nat, plan: Plan)
    | WriteIndex(creator: nat)
    | WriteCatalog(creator: nat)
    | WriteManifest(creator: nat)
    | Check(creator: nat)
    | FindExisting(creator: nat)
    | FindNone(creator: nat)
    | Rename(creator: nat)
    | Reopen(creator: nat)
    | Stop(creator: nat)

  function RevisionOf(p: Plan, h: Hashes): string { h.revision(MaterialOf(p, h)) }

  predicate At(w: World, c: nat, phase: Phase) { c in w.creators && w.creators[c].phase == phase }

  /** The files are written one after the other; the rename is one step. */
  predicate CanStep(w: World, step: Step, h: Hashes) {
    match step
    case Begin(c, plan) => c !in w.creators
    case WriteIndex(c) => At(w, c, Writing) && w.creators[c].directory.index.None?
    case WriteCatalog(c) => At(w, c, Writing) && w.creators[c].directory.index.Some? &&
      w.creators[c].directory.catalog.None?
    case WriteManifest(c) => At(w, c, Writing) && w.creators[c].directory.catalog.Some? &&
      w.creators[c].directory.manifest.None?
    case Check(c) => At(w, c, Writing) && w.creators[c].directory.manifest.Some?
    case FindExisting(c) => At(w, c, Checked) && RevisionOf(w.creators[c].plan, h) in w.published
    case FindNone(c) => At(w, c, Checked) && RevisionOf(w.creators[c].plan, h) !in w.published
    case Rename(c) => At(w, c, Renaming)
    case Reopen(c) => At(w, c, Published)
    case Stop(c) => c in w.creators
  }

  function SetCreator(w: World, c: nat, creator: Creator): World { w.(creators := w.creators[c := creator]) }

  function SetDirectory(w: World, c: nat, directory: Directory): World
    requires c in w.creators
  {
    SetCreator(w, c, w.creators[c].(directory := directory))
  }

  function SetPhase(w: World, c: nat, phase: Phase): World
    requires c in w.creators
  {
    SetCreator(w, c, w.creators[c].(phase := phase))
  }

  /** Open what stands under the creator's revision and return it. */
  function ReturnPublished(w: World, c: nat, h: Hashes): World
    requires c in w.creators && RevisionOf(w.creators[c].plan, h) in w.published
  {
    var p := w.creators[c].plan;
    SetPhase(w, c, Returned(Open(w.published[RevisionOf(p, h)], p.origin.contract, h)))
  }

  function Next(w: World, step: Step, h: Hashes): World
    requires CanStep(w, step, h)
  {
    match step
    case Begin(c, plan) => SetCreator(w, c, Creator(plan, EMPTY, Writing))
    case WriteIndex(c) => SetDirectory(w, c,
      w.creators[c].directory.(index := Some(OfIndex(IndexOf(w.creators[c].plan)))))
    case WriteCatalog(c) => SetDirectory(w, c,
      w.creators[c].directory.(catalog := Some(OfCatalog(CatalogOf(w.creators[c].plan, h)))))
    case WriteManifest(c) => SetDirectory(w, c,
      w.creators[c].directory.(manifest := Some(ManifestOf(w.creators[c].plan, h))))
    case Check(c) =>
      var creator := w.creators[c];
      var outcome := Open(creator.directory, creator.plan.origin.contract, h);
      SetPhase(w, c, if outcome.Opened? then Checked else Returned(outcome))
    case FindExisting(c) => ReturnPublished(w, c, h)
    case FindNone(c) => SetPhase(w, c, Renaming)
    case Rename(c) =>
      var revision := RevisionOf(w.creators[c].plan, h);
      if revision in w.published then ReturnPublished(w, c, h)
      else SetPhase(w, c, Published).(published := w.published[revision := w.creators[c].directory])
    case Reopen(c) =>
      if RevisionOf(w.creators[c].plan, h) in w.published then ReturnPublished(w, c, h)
      else SetPhase(w, c, Returned(Missing))
    case Stop(c) => w.(creators := w.creators - {c})
  }

  ghost predicate IsRun(steps: seq<Step>, w: World, h: Hashes)
    decreases |steps|
  {
    if steps == [] then w == START
    else
      var n := |steps| - 1;
      exists v ::
        IsRun(steps[..n], v, h) && CanStep(v, steps[n], h) && w == Next(v, steps[n], h)
  }

  // ----- what every run keeps -----

  /** The directory holds what the builder has written so far, and all of it once it was checked. */
  predicate DirectoryOk(c: Creator, h: Hashes) {
    var d, b := c.directory, Built(c.plan, h);
    && (d.index.Some? ==> d.index == b.index)
    && (d.catalog.Some? ==> d.catalog == b.catalog && d.index.Some?)
    && (d.manifest.Some? ==> d.manifest == b.manifest && d.catalog.Some?)
    && (!c.phase.Writing? ==> d == b)
  }

  predicate ReturnOk(c: Creator, h: Hashes) {
    c.phase.Returned? ==> c.phase.snapshot == Opened(RevisionOf(c.plan, h), c.plan.chunks, IndexOf(c.plan))
  }

  predicate CreatorOk(c: Creator, h: Hashes) { DirectoryOk(c, h) && ReturnOk(c, h) }

  ghost predicate CreatorsOk(w: World, h: Hashes) {
    forall c :: c in w.creators ==>
      CreatorOk(w.creators[c], h) &&
        (w.creators[c].phase.Published? ==> RevisionOf(w.creators[c].plan, h) in w.published)
  }

  /** Built from some plan whose revision is the name. */
  ghost predicate BuiltAs(d: Directory, name: string, h: Hashes) {
    exists p: Plan :: d == Built(p, h) && name == RevisionOf(p, h)
  }

  ghost predicate AllBuilt(published: map<string, Directory>, h: Hashes) {
    forall name :: name in published ==> BuiltAs(published[name], name, h)
  }

  lemma FinishedIsBuilt(c: Creator, h: Hashes)
    requires CreatorOk(c, h) && c.directory.manifest.Some?
    ensures c.directory == Built(c.plan, h)
  {
  }

  /** What stands under a plan's revision was built to that plan. */
  lemma PublishedIsOwn(w: World, p: Plan, h: Hashes)
    requires Sound(h) && AllBuilt(w.published, h) && RevisionOf(p, h) in w.published
    ensures w.published[RevisionOf(p, h)] == Built(p, h)
    ensures Open(w.published[RevisionOf(p, h)], p.origin.contract, h) == Opened(RevisionOf(p, h), p.chunks, IndexOf(p))
  {
    var d := w.published[RevisionOf(p, h)];
    assert BuiltAs(d, RevisionOf(p, h), h);
    var q: Plan :| d == Built(q, h) && RevisionOf(p, h) == RevisionOf(q, h);
    BuilderIsAccepted(p, h);
    BuilderIsAccepted(q, h);
    SameRevisionSameDirectory(Built(p, h), d, p.origin.contract, q.origin.contract, h);
  }

  lemma WritingStep(c: Creator, h: Hashes)
    requires CreatorOk(c, h) && c.phase.Writing?
    ensures c.directory.index.None? ==>
      CreatorOk(c.(directory := c.directory.(index := Some(OfIndex(IndexOf(c.plan))))), h)
    ensures c.directory.index.Some? ==>
      CreatorOk(c.(directory := c.directory.(catalog := Some(OfCatalog(CatalogOf(c.plan, h))))), h)
    ensures c.directory.catalog.Some? ==>
      CreatorOk(c.(directory := c.directory.(manifest := Some(ManifestOf(c.plan, h)))), h)
  {
  }

  /** Checking never fails for a plan that can be built. */
  lemma CheckPasses(w: World, c: nat, h: Hashes)
    requires Sound(h) && CreatorsOk(w, h) && CanStep(w, Check(c), h)
    ensures Open(w.creators[c].directory, w.creators[c].plan.origin.contract, h).Opened?
  {
    FinishedIsBuilt(w.creators[c], h);
    BuilderIsAccepted(w.creators[c].plan, h);
  }

  ghost predicate Kept(w: World, u: World, c: nat, h: Hashes) {
    && c in u.creators && u.creators == w.creators[c := u.creators[c]] && w.published.Keys <= u.published.Keys
    && CreatorOk(u.creators[c], h)
    && (u.creators[c].phase.Published? ==> RevisionOf(u.creators[c].plan, h) in u.published)
  }

  lemma WriteKept(w: World, step: Step, h: Hashes)
    requires CreatorsOk(w, h) && CanStep(w, step, h) && (step.WriteIndex? || step.WriteCatalog? || step.WriteManifest?)
    ensures Kept(w, Next(w, step, h), step.creator, h)
  {
    WritingStep(w.creators[step.creator], h);
  }

  lemma CheckKept(w: World, c: nat, h: Hashes)
    requires Sound(h) && CreatorsOk(w, h) && CanStep(w, Check(c), h)
    ensures Kept(w, Next(w, Check(c), h), c, h)
  {
    CheckPasses(w, c, h);
    FinishedIsBuilt(w.creators[c], h);
  }

  lemma ReturnKept(w: World, c: nat, h: Hashes)
    requires Sound(h) && AllBuilt(w.published, h) && CreatorsOk(w, h) && c in w.creators
    requires RevisionOf(w.creators[c].plan, h) in w.published
    requires !w.creators[c].phase.Writing?
    ensures Kept(w, ReturnPublished(w, c, h), c, h)
  {
    PublishedIsOwn(w, w.creators[c].plan, h);
  }

  lemma RenameKept(w: World, c: nat, h: Hashes)
    requires Sound(h) && AllBuilt(w.published, h) && CreatorsOk(w, h) && CanStep(w, Rename(c), h)
    ensures Kept(w, Next(w, Rename(c), h), c, h)
  {
    if RevisionOf(w.creators[c].plan, h) in w.published {
      ReturnKept(w, c, h);
    }
  }

  lemma PlainStepKept(w: World, step: Step, h: Hashes)
    requires CreatorsOk(w, h) && CanStep(w, step, h) && (step.Begin? || step.FindNone?)
    ensures Kept(w, Next(w, step, h), step.creator, h)
  {
  }

  lemma CreatorKept(w: World, step: Step, h: Hashes)
    requires Sound(h) && CreatorsOk(w, h) && AllBuilt(w.published, h) && CanStep(w, step, h) && !step.Stop?
    ensures Kept(w, Next(w, step, h), step.creator, h)
  {
    if step.Begin? || step.FindNone? {
      PlainStepKept(w, step, h);
    } else if step.Check? {
      CheckKept(w, step.creator, h);
    } else if step.Rename? {
      RenameKept(w, step.creator, h);
    } else if step.FindExisting? || step.Reopen? {
      ReturnKept(w, step.creator, h);
    } else {
      WriteKept(w, step, h);
    }
  }

  lemma StepKeepsCreators(w: World, step: Step, h: Hashes)
    requires Sound(h) && CreatorsOk(w, h) && AllBuilt(w.published, h) && CanStep(w, step, h)
    ensures CreatorsOk(Next(w, step, h), h)
  {
    if step.Stop? {
      var u := Next(w, step, h);
      assert forall c :: c in u.creators ==> c in w.creators && u.creators[c] == w.creators[c];
    } else {
      CreatorKept(w, step, h);
      OthersKept(w, Next(w, step, h), step.creator, h);
    }
  }

  lemma OthersKept(w: World, u: World, c: nat, h: Hashes)
    requires CreatorsOk(w, h) && Kept(w, u, c, h)
    ensures CreatorsOk(u, h)
  {
  }

  lemma OnlyRenamePublishes(w: World, step: Step, h: Hashes)
    requires CanStep(w, step, h) && !step.Rename?
    ensures Next(w, step, h).published == w.published
  {
  }

  /** Only a rename publishes, and only where nothing was published. */
  lemma PublishedAfter(w: World, step: Step, h: Hashes)
    requires CanStep(w, step, h)
    ensures var p := Next(w, step, h).published;
      || p == w.published
      || (step.Rename? && RevisionOf(w.creators[step.creator].plan, h) !in w.published
          && p == w.published[RevisionOf(w.creators[step.creator].plan, h) := w.creators[step.creator].directory])
  {
    if !step.Rename? {
      OnlyRenamePublishes(w, step, h);
    }
  }

  lemma OneMoreBuilt(published: map<string, Directory>, p: Plan, h: Hashes)
    requires AllBuilt(published, h)
    ensures AllBuilt(published[RevisionOf(p, h) := Built(p, h)], h)
  {
    assert BuiltAs(Built(p, h), RevisionOf(p, h), h);
  }

  lemma StepKeepsPublished(w: World, step: Step, h: Hashes)
    requires CreatorsOk(w, h) && AllBuilt(w.published, h) && CanStep(w, step, h)
    ensures AllBuilt(Next(w, step, h).published, h)
  {
    PublishedAfter(w, step, h);
    if step.Rename? {
      OneMoreBuilt(w.published, w.creators[step.creator].plan, h);
    }
  }

  lemma {:induction false} RunInv(steps: seq<Step>, w: World, h: Hashes)
    requires Sound(h) && IsRun(steps, w, h)
    ensures CreatorsOk(w, h) && AllBuilt(w.published, h)
    decreases |steps|
  {
    if steps != [] {
      var n := |steps| - 1;
      var v :| IsRun(steps[..n], v, h) && CanStep(v, steps[n], h) && w == Next(v, steps[n], h);
      RunInv(steps[..n], v, h);
      StepKeepsCreators(v, steps[n], h);
      StepKeepsPublished(v, steps[n], h);
    }
  }

  /** In every run each published directory opens, under its reader contract, with a revision equal to its name. */
  lemma PublishedOpens(steps: seq<Step>, w: World, name: string, h: Hashes)
    requires Sound(h) && IsRun(steps, w, h) && name in w.published
    ensures w.published[name].manifest.Some?
    ensures var outcome := Open(w.published[name], w.published[name].manifest.value.material.contract, h);
      outcome.Opened? && outcome.revision == name
  {
    RunInv(steps, w, h);
    assert BuiltAs(w.published[name], name, h);
    var p: Plan :| w.published[name] == Built(p, h) && name == RevisionOf(p, h);
    BuilderIsAccepted(p, h);
  }

  /**
    Whoever wins the rename, every creator that returns returns the snapshot of its own revision, and
    what is published under it is, file by file, what the creator built itself.
   */
  lemma EveryReturnIsOwn(steps: seq<Step>, w: World, c: nat, h: Hashes)
    requires Sound(h) && IsRun(steps, w, h) && c in w.creators && w.creators[c].phase.Returned?
    ensures w.creators[c].phase.snapshot
      == Opened(RevisionOf(w.creators[c].plan, h), w.creators[c].plan.chunks, IndexOf(w.creators[c].plan))
    ensures RevisionOf(w.creators[c].plan, h) in w.published ==>
      w.published[RevisionOf(w.creators[c].plan, h)] == w.creators[c].directory
  {
    RunInv(steps, w, h);
    if RevisionOf(w.creators[c].plan, h) in w.published {
      PublishedIsOwn(w, w.creators[c].plan, h);
    }
  }

  /** Some steps lead from one world to another. */
  ghost predicate Leads(w: World, steps: seq<Step>, u: World, h: Hashes)
    decreases |steps|
  {
    if steps == [] then u == w
    else
      var n := |steps| - 1;
      exists v ::
        Leads(w, steps[..n], v, h) && CanStep(v, steps[n], h) && u == Next(v, steps[n], h)
  }

  /** Published directories are never changed or removed, whatever happens later. */
  lemma {:induction false} PublishedStays(w: World, steps: seq<Step>, u: World, name: string, h: Hashes)
    requires Leads(w, steps, u, h) && name in w.published
    ensures name in u.published && u.published[name] == w.published[name]
    decreases |steps|
  {
    if steps != [] {
      var n := |steps| - 1;
      var v :| Leads(w, steps[..n], v, h) && CanStep(v, steps[n], h) && u == Next(v, steps[n], h);
      PublishedStays(w, steps[..n], v, name, h);
      PublishedAfter(v, steps[n], h);
    }
  }
}

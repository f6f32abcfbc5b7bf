/** Launchers and the processes they start, sharing one status file, interleaved in every way. */
module JobRuns {
  import opened Seqs
  import opened JobStatus

  datatype Writer = ByReservation | ByFailedLaunch | ByStart | ByChild

  datatype Write = Write(writer: Writer, status: Status)

  /** A launcher that holds the launch lock: just entered, after its reservation, after its process started. */
  datatype Launcher =
    | Entered
    | Reserving(reservation: Status, initial: Status)
    | Spawned(reservation: Status, initial: Status, pid: int)

  datatype Holder = Nobody | Launching(launcher: nat) | Writing(child: nat)

  /** `used` holds every job id ever drawn and `log` every write of the file, both for the proofs. */
  datatype World = World(
    status: Option<Status>, holder: Holder, launchers: map<nat, Launcher>, children: map<nat, string>,
    used: set<string>, log: seq<Write>)

  const START := World(None, Nobody, map[], map[], {}, [])

  datatype Step =
    | Enter(launcher: nat)
    | Refuse(launcher: nat, alive: bool)
    | Reserve(launcher: nat, alive: bool, jobId: string, initial: Status, parent: int)
    | SpawnFails(launcher: nat, error: string)
    | Spawn(launcher: nat, child: nat, pid: int)
    | Finish(launcher: nat)
    | LauncherDies(launcher: nat)
    | ChildLocks(child: nat)
    | ChildWrites(child: nat, progress: Status)
    | ChildDies(child: nat)

  /** Steps under the lock belong to its holder, and a job id is drawn once. */
  predicate CanStep(w: World, step: Step) {
    match step
    case Enter(l) => w.holder == Nobody && l !in w.launchers
    case Refuse(l, alive) => l in w.launchers && w.launchers[l] == Entered && Active(w.status, alive)
    case Reserve(l, alive, jobId, _, _) =>
      l in w.launchers && w.launchers[l] == Entered && !Active(w.status, alive) && jobId !in w.used
    case SpawnFails(l, _) => l in w.launchers && w.launchers[l].Reserving?
    case Spawn(l, child, _) => l in w.launchers && w.launchers[l].Reserving? && child !in w.children
    case Finish(l) => l in w.launchers && w.launchers[l].Spawned?
    case LauncherDies(l) => l in w.launchers
    case ChildLocks(c) => w.holder == Nobody && c in w.children
    case ChildWrites(c, progress) => w.holder == Writing(c) && c in w.children
    case ChildDies(c) => c in w.children
  }

  function Put(w: World, writer: Writer, status: Status): World {
    w.(status := Some(status), log := w.log + [Write(writer, status)])
  }

  /** The launcher leaves the lock, by returning, by an exception or because it died. */
  function Left(w: World, l: nat): World { w.(holder := Nobody, launchers := w.launchers - {l}) }

  function Finished(w: World, jobId: string, initial: Status, pid: int): World {
    if OwnedBy(w.status, jobId) && w.status.value.phase == "launch"
    then Put(w, ByStart, StartedStatus(initial, jobId, pid)) else w
  }

  function ChildWritten(w: World, jobId: string, progress: Status): World {
    if OwnedBy(w.status, jobId) then Put(w, ByChild, progress.(jobId := jobId)) else w
  }

  function Next(w: World, step: Step): World
    requires CanStep(w, step)
  {
    match step
    case Enter(l) => w.(holder := Launching(l), launchers := w.launchers[l := Entered])
    case Refuse(l, _) => Left(w, l)
    case Reserve(l, _, jobId, initial, parent) =>
      var reservation := Reservation(initial, jobId, parent);
      Put(w, ByReservation, reservation)
        .(launchers := w.launchers[l := Reserving(reservation, initial)], used := w.used + {jobId})
    case SpawnFails(l, error) => Left(Put(w, ByFailedLaunch, FailedStatus(w.launchers[l].reservation, error)), l)
    case Spawn(l, child, pid) =>
      var j := w.launchers[l];
      w.(launchers := w.launchers[l := Spawned(j.reservation, j.initial, pid)],
         children := w.children[child := j.reservation.jobId])
    case Finish(l) =>
      var j := w.launchers[l];
      Left(Finished(w, j.reservation.jobId, j.initial, j.pid), l)
    case LauncherDies(l) => Left(w, l)
    case ChildLocks(c) => w.(holder := Writing(c))
    case ChildWrites(c, progress) => ChildWritten(w, w.children[c], progress).(holder := Nobody)
    case ChildDies(c) => w.(children := w.children - {c}, holder := if w.holder == Writing(c) then Nobody else w.holder)
  }

  ghost predicate IsRun(steps: seq<Step>, w: World)
    decreases |steps|
  {
    if steps == [] then w == START
    else
      var n := |steps| - 1;
      exists v ::
        IsRun(steps[..n], v) && CanStep(v, steps[n]) && w == Next(v, steps[n])
  }

  // ----- the form of the file's history -----

  function IdAt(log: seq<Write>, i: nat): string
    requires i < |log|
  {
    log[i].status.jobId
  }

  predicate Fresh(log: seq<Write>, jobId: string) { forall x :: x in log ==> x.status.jobId != jobId }

  /** What may be written after `log`. */
  predicate MayFollow(log: seq<Write>, x: Write) {
    match x.writer
    case ByReservation => Fresh(log, x.status.jobId)
    case ByFailedLaunch => log != [] && log[|log| - 1].writer == ByReservation && IdAt(log, |log| - 1) == x.status.jobId
    case ByStart => log != [] && log[|log| - 1].writer == ByReservation && IdAt(log, |log| - 1) == x.status.jobId
    case ByChild => log != [] && log[|log| - 1].writer != ByFailedLaunch && IdAt(log, |log| - 1) == x.status.jobId
  }

  /**
    A history is a sequence of blocks, one per job, each opened by a reservation with a new id;
    directly behind it may stand one write of the launcher, and then only the job's child writes.
   */
  predicate InBlocks(log: seq<Write>) { forall i :: 0 <= i < |log| ==> MayFollow(log[..i], log[i]) }

  lemma InBlocksAppend(log: seq<Write>, x: Write)
    requires InBlocks(log) && MayFollow(log, x)
    ensures InBlocks(log + [x])
  {
    var all := log + [x];
    forall i | 0 <= i < |all| ensures MayFollow(all[..i], all[i]) {
      assert i < |log| ==> all[..i] == log[..i];
      assert i == |log| ==> all[..i] == log;
    }
  }

  /** The recorded job changes only when a job is admitted. */
  lemma IdChangesOnlyAtAdmission(log: seq<Write>, i: nat)
    requires InBlocks(log) && 0 < i < |log| && IdAt(log, i) != IdAt(log, i - 1)
    ensures log[i].writer == ByReservation
  {
    assert MayFollow(log[..i], log[i]);
  }

  /** The writes of a job stand together. */
  lemma {:induction false} BlocksAreContiguous(log: seq<Write>, i: nat, j: nat, k: nat)
    requires InBlocks(log) && i <= j <= k < |log|
    ensures IdAt(log, i) == IdAt(log, k) ==> IdAt(log, j) == IdAt(log, i)
    decreases k
  {
    if j < k {
      assert MayFollow(log[..k], log[k]);
      assert log[i] in log[..k];
      BlocksAreContiguous(log, i, j, k - 1);
    }
  }

  /** A job that was superseded never writes again, neither its child nor its launcher. */
  lemma SupersededNeverWrites(log: seq<Write>, i: nat, j: nat, k: nat)
    requires InBlocks(log) && i < j < k < |log| && IdAt(log, i) != IdAt(log, j)
    ensures IdAt(log, k) != IdAt(log, i)
  {
    BlocksAreContiguous(log, i, j, k);
  }

  /** Once its child has written, a job is only written by its child: its launcher never sets it back. */
  lemma LauncherNeverSetsBack(log: seq<Write>, i: nat, j: nat)
    requires InBlocks(log) && i < j < |log| && IdAt(log, i) == IdAt(log, j) && log[i].writer == ByChild
    ensures log[j].writer == ByChild
  {
    assert MayFollow(log[..j], log[j]) && log[i] in log[..j];
    assert MayFollow(log[..j - 1], log[j - 1]);
    assert i < j - 1 ==> log[i] in log[..j - 1];
  }

  /** A failed launch is the last word on its job. */
  lemma NothingAfterAFailedLaunch(log: seq<Write>, i: nat, j: nat)
    requires InBlocks(log) && i < j < |log| && log[i].writer == ByFailedLaunch
    ensures IdAt(log, j) != IdAt(log, i)
  {
    BlocksAreContiguous(log, i, i + 1, j);
    assert MayFollow(log[..i + 1], log[i + 1]);
    assert log[i] in log[..i + 1];
  }

  // ----- what every run keeps -----

  /** The lock is held by exactly the launcher that is inside. */
  ghost predicate LockOk(w: World) { forall l :: l in w.launchers <==> w.holder == Launching(l) }

  /** The file holds what was written last. */
  predicate FileOk(w: World) {
    w.status == if w.log == [] then None else Some(w.log[|w.log| - 1].status)
  }

  predicate IdsUsed(w: World) {
    && (forall x :: x in w.log ==> x.status.jobId in w.used)
    && (forall c :: c in w.children ==> w.children[c] in w.used)
  }

  /** A launcher inside the lock finds its own reservation written last. */
  predicate ReservationStands(w: World) {
    forall l :: l in w.launchers && w.launchers[l] != Entered ==>
      w.log != [] && w.log[|w.log| - 1] == Write(ByReservation, w.launchers[l].reservation) &&
        w.launchers[l].reservation.phase == "launch"
  }

  /** Only a job whose process was started has a child. */
  predicate ChildrenAreStarted(w: World) {
    && (forall c, x :: c in w.children && x in w.log && x.writer == ByFailedLaunch ==> x.status.jobId != w.children[c])
    && (forall c, l :: c in w.children && l in w.launchers && w.launchers[l].Reserving? ==>
      w.launchers[l].reservation.jobId != w.children[c])
  }

  ghost predicate Inv(w: World) {
    LockOk(w) && FileOk(w) && IdsUsed(w) && ReservationStands(w) && ChildrenAreStarted(w) && InBlocks(w.log)
  }

  lemma LockStays(w: World, step: Step)
    requires Inv(w) && CanStep(w, step)
    ensures LockOk(Next(w, step)) && FileOk(Next(w, step))
  {
  }

  /** The reservation of a launcher inside the lock is logged, and its id was logged by nobody else. */
  lemma ReservationIsLogged(w: World, l: nat)
    requires Inv(w) && l in w.launchers && w.launchers[l] != Entered
    ensures w.launchers[l].reservation.jobId in w.used
    ensures forall x :: x in w.log && x.writer != ByReservation ==> x.status.jobId != w.launchers[l].reservation.jobId
  {
    var n := |w.log| - 1;
    assert w.log[n] in w.log && MayFollow(w.log[..n], w.log[n]);
    assert w.log == w.log[..n] + [w.log[n]];
  }

  lemma IdsStay(w: World, step: Step)
    requires Inv(w) && CanStep(w, step)
    ensures IdsUsed(Next(w, step))
  {
    if step.SpawnFails? || step.Spawn? || step.Finish? {
      ReservationIsLogged(w, step.launcher);
    }
  }

  lemma ReservationStays(w: World, step: Step)
    requires Inv(w) && CanStep(w, step)
    ensures ReservationStands(Next(w, step))
  {
  }

  lemma ChildrenStay(w: World, step: Step)
    requires Inv(w) && CanStep(w, step)
    ensures ChildrenAreStarted(Next(w, step))
  {
    if step.Spawn? {
      ReservationIsLogged(w, step.launcher);
    }
  }

  lemma BlocksStay(w: World, step: Step)
    requires Inv(w) && CanStep(w, step)
    ensures InBlocks(Next(w, step).log)
  {
    var u := Next(w, step);
    if u.log != w.log {
      var x := u.log[|w.log|];
      assert u.log == w.log + [x];
      assert MayFollow(w.log, x);
      InBlocksAppend(w.log, x);
    }
  }

  lemma {:induction false} RunInv(steps: seq<Step>, w: World)
    requires IsRun(steps, w)
    ensures Inv(w)
    decreases |steps|
  {
    if steps != [] {
      var n := |steps| - 1;
      var v :| IsRun(steps[..n], v) && CanStep(v, steps[n]) && w == Next(v, steps[n]);
      RunInv(steps[..n], v);
      LockStays(v, steps[n]);
      IdsStay(v, steps[n]);
      ReservationStays(v, steps[n]);
      ChildrenStay(v, steps[n]);
      BlocksStay(v, steps[n]);
    }
  }

  /** In every interleaving the file's history is a sequence of blocks, one per admitted job. */
  lemma HistoryInEveryRun(steps: seq<Step>, w: World)
    requires IsRun(steps, w)
    ensures InBlocks(w.log)
  {
    RunInv(steps, w);
  }

  /** A launch that started its process always hands the file over: neither other outcome can happen. */
  lemma FinishAlwaysHandsOver(steps: seq<Step>, w: World, l: nat)
    requires IsRun(steps, w) && CanStep(w, Finish(l))
    ensures var j := w.launchers[l];
      && OwnedBy(w.status, j.reservation.jobId) && w.status.value.phase == "launch"
      && Next(w, Finish(l)).status == Some(StartedStatus(j.initial, j.reservation.jobId, j.pid))
  {
    RunInv(steps, w);
  }

  /** At most one launcher is inside, and it admits exactly if the recorded job is not alive and running. */
  lemma AdmissionIsExclusive(
    steps: seq<Step>, w: World, l: nat, m: nat, alive: bool, jobId: string, initial: Status, parent: int)
    requires IsRun(steps, w) && l in w.launchers && m in w.launchers
    ensures l == m
    ensures w.launchers[l] == Entered && jobId !in w.used ==>
      (CanStep(w, Reserve(l, alive, jobId, initial, parent)) <==> !CanStep(w, Refuse(l, alive)))
    ensures CanStep(w, Reserve(l, alive, jobId, initial, parent)) ==>
      w.status.Some? && w.status.value.state == "running" ==> w.status.value.pid.Some? && !alive
  {
    RunInv(steps, w);
  }

  /** Once another job was written behind its own, a child changes nothing, however long it lives. */
  lemma SupersededChildIsRefused(steps: seq<Step>, w: World, c: nat, progress: Status, i: nat, j: nat)
    requires IsRun(steps, w) && CanStep(w, ChildWrites(c, progress))
    requires i < j < |w.log| && IdAt(w.log, i) == w.children[c] != IdAt(w.log, j)
    ensures Next(w, ChildWrites(c, progress)).status == w.status
    ensures Next(w, ChildWrites(c, progress)).log == w.log
  {
    var last := |w.log| - 1;
    assert InBlocks(w.log) && FileOk(w) by {
      RunInv(steps, w);
    }
    BlocksAreContiguous(w.log, i, j, last);
    assert w.status == Some(w.log[last].status) && IdAt(w.log, last) != w.children[c];
  }
}

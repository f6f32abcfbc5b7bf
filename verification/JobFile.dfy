/** The status file of data update jobs; every method is one section under the launch lock. */
module JobFile {
  import opened Seqs
  import opened JobStatus
  import opened JobRuns

  /** Whatever the world around it, every such step takes the file from `before` to `after`. */
  ghost predicate Performs(before: Option<Status>, after: Option<Status>, step: (World, Step) -> bool) {
    forall w: World, s: Step :: w.status == before && CanStep(w, s) && step(w, s) ==> Next(w, s).status == after
  }

  /** No such step can happen while the file is like this. */
  ghost predicate Bars(status: Option<Status>, step: (World, Step) -> bool) {
    forall w: World, s: Step :: w.status == status && step(w, s) ==> !CanStep(w, s)
  }

  function Reserves(initial: Status, jobId: string, parent: int, alive: bool): (World, Step) -> bool {
    (w: World, s: Step) => s.Reserve? && s == Step.Reserve(s.launcher, alive, jobId, initial, parent)
  }

  function Refuses(alive: bool): (World, Step) -> bool { (w: World, s: Step) => s.Refuse? && s.alive == alive }

  /** The launcher that made this reservation could not start its process. */
  function FailsLaunch(reservation: Status, error: string): (World, Step) -> bool {
    (w: World, s: Step) =>
      s.SpawnFails? && s.error == error && s.launcher in w.launchers && w.launchers[s.launcher].Reserving?
      && w.launchers[s.launcher].reservation == reservation
  }

  function Finishes(initial: Status, jobId: string, pid: int): (World, Step) -> bool {
    (w: World, s: Step) =>
      s.Finish? && s.launcher in w.launchers && w.launchers[s.launcher].Spawned?
      && w.launchers[s.launcher] == Spawned(w.launchers[s.launcher].reservation, initial, pid)
      && w.launchers[s.launcher].reservation.jobId == jobId
  }

  function WritesFor(jobId: string, progress: Status): (World, Step) -> bool {
    (w: World, s: Step) => s.ChildWrites? && s.progress == progress && s.child in w.children &&
      w.children[s.child] == jobId
  }

  lemma ReservePerforms(before: Option<Status>, initial: Status, jobId: string, parent: int, alive: bool)
    ensures Performs(before, Some(Reservation(initial, jobId, parent)), Reserves(initial, jobId, parent, alive))
    ensures Performs(before, before, Refuses(alive))
    ensures Bars(before, if Active(before, alive) then Reserves(initial, jobId, parent, alive) else Refuses(alive))
  {
  }

  lemma FailPerforms(before: Option<Status>, reservation: Status, error: string)
    ensures Performs(before, Some(FailedStatus(reservation, error)), FailsLaunch(reservation, error))
  {
  }

  lemma FinishPerforms(before: Option<Status>, initial: Status, jobId: string, pid: int)
    ensures Performs(
      before,
      if OwnedBy(before, jobId) && before.value.phase == "launch"
      then Some(StartedStatus(initial, jobId, pid)) else before,
      Finishes(initial, jobId, pid))
  {
  }

  lemma WritePerforms(before: Option<Status>, progress: Status, jobId: string)
    ensures Performs(before, if OwnedBy(before, jobId) then Some(progress.(jobId := jobId)) else before,
      WritesFor(jobId, progress))
  {
  }

  class StatusFile {
    var status: Option<Status>

    constructor ()
      ensures status == START.status
    {
      status := None;
    }

    /** The admission check and the reservation of `_start_detached_job`. */
    method Reserve(initial: Status, jobId: string, parent: int, alive: bool) returns (admitted: bool)
      modifies this
      ensures admitted <==> !Active(old(status), alive)
      ensures status == if admitted then Some(Reservation(initial, jobId, parent)) else old(status)
      ensures Performs(old(status), status,
        if admitted then Reserves(initial, jobId, parent, alive) else Refuses(alive))
      ensures Bars(old(status), if admitted then Refuses(alive) else Reserves(initial, jobId, parent, alive))
    {
      ReservePerforms(status, initial, jobId, parent, alive);
      if status.Some? && status.value.state == "running" {
        if status.value.pid.None? || alive {
          return false;
        }
      }
      status := Some(initial.(jobId := jobId, state := "running", phase := "launch", pid := Some(parent)));
      admitted := true;
    }

    /** The process could not be started: the file still names the job, and the next launch is admitted. */
    method FailLaunch(reservation: Status, error: string)
      modifies this
      ensures OwnedBy(status, reservation.jobId) && forall alive :: !Active(status, alive)
      ensures status == Some(FailedStatus(reservation, error))
      ensures Performs(old(status), status, FailsLaunch(reservation, error))
    {
      FailPerforms(status, reservation, error);
      status := Some(reservation.(state := "failed", phase := "launch", detail := error));
    }

    /** The process was started: hand the file over, unless it is no longer this launch's reservation. */
    method FinishLaunch(initial: Status, jobId: string, pid: int) returns (launch: Launch)
      modifies this
      ensures OwnedBy(old(status), jobId) && old(status).value.phase == "launch" ==>
        status == Some(StartedStatus(initial, jobId, pid)) && launch == Started(StartedStatus(initial, jobId, pid))
      ensures !(OwnedBy(old(status), jobId) && old(status).value.phase == "launch") ==>
        status == old(status) && launch == if OwnedBy(status, jobId) then Overtaken(status.value) else OwnershipLost
      ensures Performs(old(status), status, Finishes(initial, jobId, pid))
    {
      FinishPerforms(status, initial, jobId, pid);
      var started := initial.(jobId := jobId, pid := Some(pid));
      if status.Some? && status.value.jobId == jobId && status.value.phase == "launch" {
        status := Some(started);
        return Started(started);
      }
      if status.Some? && status.value.jobId == jobId {
        return Overtaken(status.value);
      }
      launch := OwnershipLost;
    }

    /** `_write_job_status` of a process that was given a job id */
    method WriteJobStatus(progress: Status, jobId: string) returns (written: bool)
      modifies this
      ensures written <==> OwnedBy(old(status), jobId)
      ensures status == if written then Some(progress.(jobId := jobId)) else old(status)
      ensures Performs(old(status), status, WritesFor(jobId, progress))
    {
      WritePerforms(status, progress, jobId);
      if status.None? || status.value.jobId != jobId {
        return false;
      }
      status := Some(progress.(jobId := jobId));
      written := true;
    }
  }
}

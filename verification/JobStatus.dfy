/** The status of data update jobs, and what is written at the stages of a launch. */
module JobStatus {
  import opened Seqs

  /** `detail` stands for the fields that decide nothing: percent, message, dates, counts. */
  datatype Status = Status(jobId: string, state: string, phase: string, pid: Option<int>, detail: string)

  /** How a launch ends after its process was started. */
  datatype Launch = Started(status: Status) | Overtaken(status: Status) | OwnershipLost

  /** `is_update_job_active`; `alive` is the answer of the operating system for the recorded pid. */
  predicate Active(current: Option<Status>, alive: bool) {
    current.Some? && current.value.state == "running" && (current.value.pid.None? || alive)
  }

  predicate OwnedBy(current: Option<Status>, jobId: string) { current.Some? && current.value.jobId == jobId }

  function Reservation(initial: Status, jobId: string, parent: int): Status {
    initial.(jobId := jobId, state := "running", phase := "launch", pid := Some(parent))
  }

  function StartedStatus(initial: Status, jobId: string, pid: int): Status {
    initial.(jobId := jobId, pid := Some(pid))
  }

  function FailedStatus(reservation: Status, error: string): Status {
    reservation.(state := "failed", phase := "launch", detail := error)
  }
}

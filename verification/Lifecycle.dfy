/** The job state machine: each operation as the record-to-record step that a
    repository update applies under its lock. */
module Lifecycle {
  import opened Records
  import opened Options
  import opened Fairness

  datatype Error = NotFound | InvalidState | RetryLimitExceeded | ValidationFailed

  datatype Result<+T> = Ok(value: T) | Err(error: Error)

  datatype SubmitInput = SubmitInput(
    submissionId: string, payload: Payload, resources: Resources,
    priority: int, preemptible: bool, retryLimit: int)

  const MAX_GPU_COUNT := 64
  const MAX_RETRY_LIMIT := 100

  /** The numeric part of submission validation. */
  predicate Acceptable(input: SubmitInput)
  {
    && input.resources.Valid() && input.resources.gpuCount <= MAX_GPU_COUNT
    && 0 <= input.priority <= MAX_PRIORITY
    && 0 <= input.retryLimit <= MAX_RETRY_LIMIT
  }

  function NewJob(id: string, input: SubmitInput, now: int): Job
  {
    Job(id, input.submissionId, input.payload, input.resources, input.priority, input.preemptible,
        input.retryLimit, 1, Queued, [], "", now, None, None, None)
  }

  function Cancel(j: Job, now: int): Result<Job>
  {
    if j.state.Terminal() || j.state.CancelRequested? then Ok(j)
    else if j.state.Queued? || j.state.Retrying? || j.state.Scheduled? then
      Ok(j.(state := Cancelled, completedAt := Some(now)))
    else if j.state.Running? || j.state.Checkpointing? then Ok(j.(state := CancelRequested))
    else Err(InvalidState)
  }

  function Assign(j: Job, workerIds: seq<string>): Result<Job>
  {
    if !j.state.Queued? then Err(InvalidState)
    else Ok(j.(state := Scheduled, assignedWorkerIds := workerIds))
  }

  function Start(j: Job, now: int): Result<Job>
  {
    if !j.state.Scheduled? then Err(InvalidState)
    else Ok(j.(state := Running, startedAt := Some(now)))
  }

  function Complete(j: Job, now: int): Result<Job>
  {
    if !j.state.Running? then Err(InvalidState)
    else Ok(j.(state := Succeeded, completedAt := Some(now)))
  }

  /** Requeue with one more attempt while the limit allows it, else fail. */
  function FailureOrRetry(j: Job, reason: string, now: int): Job
  {
    if j.currentAttempt < j.retryLimit then
      j.(failureReason := reason, state := Queued, currentAttempt := j.currentAttempt + 1,
         startedAt := None, assignedWorkerIds := [])
    else j.(failureReason := reason, state := Failed, failedAt := Some(now))
  }

  function Fail(j: Job, reason: string, now: int): Result<Job>
  {
    if !j.state.Running? then Err(InvalidState) else Ok(FailureOrRetry(j, reason, now))
  }

  function ReportStopped(j: Job, now: int): Result<Job>
  {
    match j.state
    case CancelRequested => Ok(j.(state := Cancelled, completedAt := Some(now)))
    case Preempted => Ok(j.(state := Queued, startedAt := None, assignedWorkerIds := []))
    case _ => Ok(j)
  }

  function Preempt(j: Job, reason: string): Result<Job>
  {
    if !j.state.Running? then Err(InvalidState)
    else if !j.preemptible then Err(InvalidState)
    else Ok(j.(state := Preempted, failureReason := reason))
  }

  /** What the worker-loss sweep does to a job it reaches. */
  function Recover(j: Job, reason: string, now: int): Result<Job>
  {
    match j.state
    case Scheduled => Ok(FailureOrRetry(j, reason, now))
    case Running => Ok(FailureOrRetry(j, reason, now))
    case CancelRequested => Ok(j.(state := Cancelled, completedAt := Some(now)))
    case Preempted => Ok(j.(state := Queued, startedAt := None, assignedWorkerIds := []))
    case _ => Ok(j)
  }

  function Retry(j: Job): Result<Job>
  {
    if !j.state.Failed? then Err(InvalidState)
    else if j.currentAttempt >= j.retryLimit then Err(RetryLimitExceeded)
    else
      Ok(j.(state := Queued, currentAttempt := j.currentAttempt + 1, failureReason := "",
            startedAt := None, completedAt := None, failedAt := None))
  }

  datatype Op =
    | CancelOp(now: int)
    | AssignOp(workerIds: seq<string>)
    | StartOp(now: int)
    | CompleteOp(now: int)
    | FailOp(reason: string, now: int)
    | StoppedOp(now: int)
    | PreemptOp(reason: string)
    | RecoverOp(reason: string, now: int)
    | RetryOp

  function Transition(op: Op, j: Job): Result<Job>
  {
    match op
    case CancelOp(now) => Cancel(j, now)
    case AssignOp(ids) => Assign(j, ids)
    case StartOp(now) => Start(j, now)
    case CompleteOp(now) => Complete(j, now)
    case FailOp(reason, now) => Fail(j, reason, now)
    case StoppedOp(now) => ReportStopped(j, now)
    case PreemptOp(reason) => Preempt(j, reason)
    case RecoverOp(reason, now) => Recover(j, reason, now)
    case RetryOp => Retry(j)
  }

  function Attempts(j: Job): int { if j.retryLimit < 1 then 1 else j.retryLimit }

  /** What holds of every stored job. */
  predicate JobInv(j: Job)
  {
    && !j.state.Checkpointing? && !j.state.Retrying? && !j.state.Lost?
    && (j.state.Queued? ==> j.assignedWorkerIds == [] && j.startedAt.None?)
    && (j.state.Scheduled? ==> j.startedAt.None?)
    && (j.state.Running? || j.state.CancelRequested? || j.state.Preempted? || j.state.Succeeded? ==> j.startedAt.Some?)
    && (j.state.Failed? ==> j.currentAttempt >= j.retryLimit)
    && (j.completedAt.Some? <==> j.state.Succeeded? || j.state.Cancelled?)
    && (j.failedAt.Some? <==> j.state.Failed?)
    && 1 <= j.currentAttempt <= Attempts(j)
    && j.resources.Valid() && 0 <= j.priority <= MAX_PRIORITY
  }

  /** The fields fixed at submission. */
  predicate SameIdentity(j: Job, k: Job)
  {
    && j.id == k.id && j.submissionId == k.submissionId && j.payload == k.payload
    && j.resources == k.resources && j.priority == k.priority && j.preemptible == k.preemptible
    && j.retryLimit == k.retryLimit && j.createdAt == k.createdAt
  }

  /** The state diagram: submission leads to QUEUED, and these are the moves. */
  predicate LegalEdge(from: State, to: State)
  {
    match from
    case Queued => to.Scheduled? || to.Cancelled?
    case Scheduled => to.Running? || to.Cancelled? || to.Queued? || to.Failed?
    case Running => to.Succeeded? || to.Failed? || to.Queued? || to.CancelRequested? || to.Preempted?
    case CancelRequested => to.Cancelled?
    case Preempted => to.Queued?
    case _ => false
  }

  // Laws of single operations.

  /** The numeric limits of a submission. */
  lemma AcceptableMeans(input: SubmitInput)
    ensures Acceptable(input) <==>
      && 0 <= input.resources.gpuCount <= 64 && 0 <= input.resources.minGpuMemoryBytes
      && 0.0 <= input.resources.cpuCores && 0 <= input.resources.memoryBytes
      && 0 <= input.priority <= 100 && 0 <= input.retryLimit <= 100
  {
  }

  /** A new job is queued for its first attempt, with what was submitted and
      nothing else. */
  lemma NewJobInv(id: string, input: SubmitInput, now: int)
    ensures Acceptable(input) ==> JobInv(NewJob(id, input, now))
    ensures var j := NewJob(id, input, now);
      && j.id == id && j.state.Queued? && j.currentAttempt == 1 && j.createdAt == now
      && j.submissionId == input.submissionId && j.payload == input.payload && j.resources == input.resources
      && j.priority == input.priority && j.preemptible == input.preemptible && j.retryLimit == input.retryLimit
      && j.assignedWorkerIds == [] && j.failureReason == ""
      && j.startedAt.None? && j.completedAt.None? && j.failedAt.None?
  {
  }

  // What each operation accepts, and what it makes of a job it accepts. The
  // fields not mentioned are those of the job before.

  lemma OperationsAre(j: Job, ids: seq<string>, reason: string, now: int)
    ensures Transition(CancelOp(now), j) == Cancel(j, now) && Transition(AssignOp(ids), j) == Assign(j, ids)
    ensures Transition(StartOp(now), j) == Start(j, now) && Transition(CompleteOp(now), j) == Complete(j, now)
    ensures Transition(FailOp(reason, now), j) == Fail(j, reason, now) && Transition(StoppedOp(now), j) == ReportStopped(j, now)
    ensures Transition(PreemptOp(reason), j) == Preempt(j, reason) && Transition(RetryOp, j) == Retry(j)
    ensures Transition(RecoverOp(reason, now), j) == Recover(j, reason, now)
  {
  }

  lemma CancelLaw(j: Job, now: int)
    ensures Cancel(j, now).Err? <==> j.state.Preempted? || j.state.Lost?
    ensures Cancel(j, now).Err? ==> Cancel(j, now).error == InvalidState
    ensures j.state.Queued? || j.state.Scheduled? || j.state.Retrying? ==>
      Cancel(j, now).Ok? && Changed(j, Cancel(j, now).value, Cancelled) && Cancel(j, now).value.completedAt == Some(now)
      && Cancel(j, now).value.assignedWorkerIds == j.assignedWorkerIds
    ensures j.state.Running? || j.state.Checkpointing? ==>
      Cancel(j, now).Ok? && Changed(j, Cancel(j, now).value, CancelRequested) && SameTimes(j, Cancel(j, now).value)
      && Cancel(j, now).value.assignedWorkerIds == j.assignedWorkerIds
    ensures j.state in {CancelRequested, Succeeded, Failed, Cancelled} ==> Cancel(j, now) == Ok(j)
  {
  }

  /** In the given state, with the identity, attempt and reason of before. */
  predicate Changed(j: Job, k: Job, to: State)
  {
    SameIdentity(j, k) && k.state == to && k.currentAttempt == j.currentAttempt && k.failureReason == j.failureReason
  }

  predicate SameTimes(j: Job, k: Job)
  {
    j.startedAt == k.startedAt && j.completedAt == k.completedAt && j.failedAt == k.failedAt
  }

  lemma AssignLaw(j: Job, ids: seq<string>)
    ensures Assign(j, ids).Ok? <==> j.state.Queued?
    ensures Assign(j, ids).Err? ==> Assign(j, ids).error == InvalidState
    ensures Assign(j, ids).Ok? ==> var k := Assign(j, ids).value;
      Changed(j, k, Scheduled) && SameTimes(j, k) && k.assignedWorkerIds == ids
  {
  }

  lemma StartLaw(j: Job, now: int)
    ensures Start(j, now).Ok? <==> j.state.Scheduled?
    ensures Start(j, now).Err? ==> Start(j, now).error == InvalidState
    ensures Start(j, now).Ok? ==> var k := Start(j, now).value;
      && Changed(j, k, Running) && k.assignedWorkerIds == j.assignedWorkerIds
      && k.startedAt == Some(now) && k.completedAt == j.completedAt && k.failedAt == j.failedAt
  {
  }

  lemma CompleteLaw(j: Job, now: int)
    ensures Complete(j, now).Ok? <==> j.state.Running?
    ensures Complete(j, now).Err? ==> Complete(j, now).error == InvalidState
    ensures Complete(j, now).Ok? ==> var k := Complete(j, now).value;
      && Changed(j, k, Succeeded) && k.assignedWorkerIds == j.assignedWorkerIds
      && k.startedAt == j.startedAt && k.completedAt == Some(now) && k.failedAt == j.failedAt
  {
  }

  /** A reported failure leads to the next attempt, unassigned, or ends the job. */
  lemma FailLaw(j: Job, reason: string, now: int)
    ensures Fail(j, reason, now).Ok? <==> j.state.Running?
    ensures Fail(j, reason, now).Err? ==> Fail(j, reason, now).error == InvalidState
    ensures Fail(j, reason, now).Ok? ==> AfterFailure(j, Fail(j, reason, now).value, reason, now)
  {
  }

  predicate AfterFailure(j: Job, k: Job, reason: string, now: int)
  {
    && SameIdentity(j, k) && k.failureReason == reason && k.completedAt == j.completedAt
    && (if j.currentAttempt < j.retryLimit
        then k.state.Queued? && k.currentAttempt == j.currentAttempt + 1 && k.assignedWorkerIds == []
             && k.startedAt.None? && k.failedAt == j.failedAt
        else k.state.Failed? && k.currentAttempt == j.currentAttempt && k.assignedWorkerIds == j.assignedWorkerIds
             && k.startedAt == j.startedAt && k.failedAt == Some(now))
  }

  /** Preemption is for running preemptible jobs, and only asks them to stop. */
  lemma PreemptLaw(j: Job, reason: string)
    ensures Preempt(j, reason).Ok? <==> j.state.Running? && j.preemptible
    ensures Preempt(j, reason).Err? ==> Preempt(j, reason).error == InvalidState
    ensures Preempt(j, reason).Ok? ==> var k := Preempt(j, reason).value;
      && SameIdentity(j, k) && SameTimes(j, k) && k.state.Preempted? && k.failureReason == reason
      && k.currentAttempt == j.currentAttempt && k.assignedWorkerIds == j.assignedWorkerIds
  {
  }

  /** A confirmed stop finishes a cancel and undoes a preempted attempt. */
  lemma StoppedLaw(j: Job, now: int)
    ensures ReportStopped(j, now).Ok?
    ensures var k := ReportStopped(j, now).value;
      && (j.state.CancelRequested? ==>
            Changed(j, k, Cancelled) && k.completedAt == Some(now) && k.assignedWorkerIds == j.assignedWorkerIds
            && k.startedAt == j.startedAt && k.failedAt == j.failedAt)
      && (j.state.Preempted? ==>
            Changed(j, k, Queued) && k.assignedWorkerIds == [] && k.startedAt.None?
            && k.completedAt == j.completedAt && k.failedAt == j.failedAt)
      && (!j.state.CancelRequested? && !j.state.Preempted? ==> k == j)
  {
  }

  /** The sweep fails what was to run or ran, and confirms what was to stop. */
  lemma RecoverLaw(j: Job, reason: string, now: int)
    ensures Recover(j, reason, now).Ok?
    ensures var k := Recover(j, reason, now).value;
      && (j.state.Scheduled? || j.state.Running? ==> AfterFailure(j, k, reason, now))
      && (j.state.CancelRequested? ==> Changed(j, k, Cancelled) && k.completedAt == Some(now))
      && (j.state.Preempted? ==> Changed(j, k, Queued) && k.assignedWorkerIds == [] && k.startedAt.None?)
      && (!j.state.Scheduled? && !j.state.Running? && !j.state.CancelRequested? && !j.state.Preempted? ==> k == j)
  {
  }

  /** Retry is for failed jobs below their limit, and keeps the assignment. */
  lemma RetryLaw(j: Job)
    ensures Retry(j).Ok? <==> j.state.Failed? && j.currentAttempt < j.retryLimit
    ensures Retry(j).Err? ==> Retry(j).error == if j.state.Failed? then RetryLimitExceeded else InvalidState
    ensures Retry(j).Ok? ==> var k := Retry(j).value;
      && SameIdentity(j, k) && k.state.Queued? && k.currentAttempt == j.currentAttempt + 1 && k.failureReason == ""
      && k.assignedWorkerIds == j.assignedWorkerIds && k.startedAt.None? && k.completedAt.None? && k.failedAt.None?
  {
  }

  /** A preempted job that has stopped is queued again as it was first queued for
      this attempt: preemption costs neither the job nor an attempt. */
  lemma PreemptionUndone(j: Job, ids: seq<string>, started: int, reason: string, stopped: int)
    requires j.state.Queued? && j.preemptible && JobInv(j)
    ensures Assign(j, ids).Ok? && Start(Assign(j, ids).value, started).Ok?
    ensures var running := Start(Assign(j, ids).value, started).value;
      && Preempt(running, reason).Ok?
      && var k := ReportStopped(Preempt(running, reason).value, stopped).value;
         k == j.(failureReason := reason)
  {
  }

  /** A job that is assigned, started and completed has succeeded, with the times
      and the workers it was given; one cancelled while it runs ends cancelled
      once its stop is confirmed, whatever is reported before that. */
  lemma LifeLaw(j: Job, ids: seq<string>, started: int, ended: int, stopped: int)
    requires j.state.Queued? && JobInv(j)
    ensures Assign(j, ids).Ok? && Start(Assign(j, ids).value, started).Ok?
    ensures var running := Start(Assign(j, ids).value, started).value;
      && Complete(running, ended) ==
           Ok(j.(state := Succeeded, assignedWorkerIds := ids, startedAt := Some(started), completedAt := Some(ended)))
      && Cancel(running, ended).Ok?
      && var asked := Cancel(running, ended).value;
         Complete(asked, ended).Err? && Fail(asked, "", ended).Err?
         && ReportStopped(asked, stopped).value.state.Cancelled?
         && ReportStopped(asked, stopped).value.completedAt == Some(stopped)
  {
  }

  /** Every operation keeps the invariant and the submitted fields, moves along
      the state diagram, and changes nothing at all if it does not move. */
  lemma TransitionKeeps(op: Op, j: Job)
    requires JobInv(j) && Transition(op, j).Ok?
    ensures JobInv(Transition(op, j).value) && SameIdentity(j, Transition(op, j).value)
    ensures var k := Transition(op, j).value; if k.state == j.state then k == j else LegalEdge(j.state, k.state)
  {
  }

  lemma OpKeepsIdentity(op: Op, j: Job)
    requires Transition(op, j).Ok?
    ensures SameIdentity(j, Transition(op, j).value)
  {
  }

  /** In a reachable state the retry operation always refuses: a job only fails
      once its attempts are used up. */
  lemma RetryNeverSucceeds(j: Job)
    requires JobInv(j)
    ensures Retry(j).Err?
    ensures j.state.Failed? <==> Retry(j) == Err(RetryLimitExceeded)
  {
  }

  /** Were it otherwise, the requeued job would keep its old assignment. */
  lemma RetryWouldKeepAssignment(j: Job)
    requires j.state.Failed? && j.assignedWorkerIds != []
    ensures Retry(j).Ok? <==> j.currentAttempt < j.retryLimit
    ensures Retry(j).Ok? ==> Retry(j).value.state.Queued? && !JobInv(Retry(j).value)
  {
  }

  /** Asking twice is asking once: a repeated cancel or stop report changes
      nothing more, whenever it arrives. */
  lemma CancelIdempotent(j: Job, now: int, later: int)
    requires Cancel(j, now).Ok?
    ensures Cancel(Cancel(j, now).value, later) == Cancel(j, now)
  {
  }

  /** Cancelling any stored job is accepted, save for one that is waiting for a
      preemption to be confirmed; one that runs is only asked to stop. */
  lemma CancelOutcome(j: Job, now: int)
    requires JobInv(j)
    ensures Cancel(j, now).Err? <==> j.state.Preempted?
    ensures Cancel(j, now).Ok? ==> var k := Cancel(j, now).value;
      && (k.state.CancelRequested? || k.state.Terminal())
      && (k.state.CancelRequested? <==> j.state.Running? || j.state.CancelRequested?)
  {
  }

  lemma ReportStoppedIdempotent(j: Job, now: int, later: int)
    ensures ReportStopped(j, now).Ok?
    ensures ReportStopped(ReportStopped(j, now).value, later) == ReportStopped(j, now)
  {
  }

  /** The sweep treats a job as the report it stands in for would have: a
      failure of a running job, or the confirmation of a stop. */
  lemma RecoverAgrees(j: Job, reason: string, now: int)
    ensures j.state.Running? ==> Recover(j, reason, now) == Fail(j, reason, now)
    ensures j.state.Scheduled? ==> Recover(j, reason, now) == Fail(j.(state := Running), reason, now)
    ensures !j.state.Scheduled? && !j.state.Running? ==> Recover(j, reason, now) == ReportStopped(j, now)
  {
  }

  /** Preemption never uses up an attempt; a failure uses up exactly one or
      ends the job. */
  lemma AttemptsAccounted(op: Op, j: Job)
    requires JobInv(j) && Transition(op, j).Ok?
    ensures var k := Transition(op, j).value;
      && (k.currentAttempt == j.currentAttempt || k.currentAttempt == j.currentAttempt + 1)
      && (k.currentAttempt > j.currentAttempt <==>
            (op.FailOp? || op.RecoverOp?) && (j.state.Scheduled? || j.state.Running?) && k.state.Queued?)
      && ((op.FailOp? || op.RecoverOp?) && (j.state.Scheduled? || j.state.Running?) ==>
            (k.state.Queued? <==> j.currentAttempt < j.retryLimit) && (k.state.Failed? <==> j.currentAttempt >= j.retryLimit))
  {
  }

  // The termination measure.

  function Rank(s: State): nat
  {
    match s
    case Queued => 4
    case Scheduled => 3
    case Running => 2
    case Checkpointing => 2
    case Retrying => 2
    case Lost => 2
    case CancelRequested => 1
    case Preempted => 1
    case Succeeded => 0
    case Failed => 0
    case Cancelled => 0
  }

  function Measure(j: Job): int { 3 * (Attempts(j) - j.currentAttempt) + Rank(j.state) }

  /** Every state change lowers the measure, except the requeue that completes
      a preemption, which raises it by three. */
  lemma MeasureFalls(op: Op, j: Job)
    requires JobInv(j) && Transition(op, j).Ok? && Transition(op, j).value.state != j.state
    ensures var k := Transition(op, j).value;
      if j.state.Preempted? then k.state.Queued? && Measure(k) == Measure(j) + 3 else 0 <= Measure(k) < Measure(j)
  {
  }
}

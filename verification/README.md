# OrionQueue, modelled and proved

OrionQueue queues GPU jobs, places them on workers, runs them through Python
agents, retries what fails, preempts what is outranked, and recovers what a dead
worker leaves behind. This project models that core in Dafny and proves what it
guarantees over every snapshot, every request and every run.

`dafny verify dfyconfig.toml` checks everything.

| file | models |
|---|---|
| `Collections.dfy`, `Jobs.dfy` | sequences and orders; the job and worker records |
| `Fairness.dfy`, `Capacity.dfy` | aged priorities; committed and free capacity |
| `Planner.dfy`, `PlannerTheorems.dfy` | the first scheduling pass and what it guarantees |
| `Preemption.dfy`, `PreemptionTheorems.dfy`, `Room.dfy`, `Minimality.dfy` | the preemption pass and what it guarantees |
| `Lifecycle.dfy`, `Trail.dfy` | the job state machine; all runs of it, with the audit trail |
| `Repositories.dfy`, `Paging.dfy` | the job stores, the worker-loss sweep, listings page by page |
| `Scheduler.dfy`, `Safety.dfy` | a pass as it is applied among other clients; capacity safety |
| `Agents.dfy`, `Leases.dfy` | the worker agent protocol; leases, heartbeats and loss detection |

## Main results

- **Capacity is never oversold.** With one active scheduler and any interleaving
  of client, worker and recovery operations between a pass's snapshot and its
  writes, the jobs held on each worker are within its CPU and memory, and there
  are pairwise disjoint devices for them that each meet their own memory bar
  (`Safety.CapacitySafe`; for the pass as the code applies it, `Safety.PassSafe`).
- **One execution at a time.** Under every interleaving of heartbeats, threads,
  reports and user operations, at most one thread executes a job
  (`Agents.OneExecutionAtATime`), agents that crash and the recovery of their
  jobs included. Recovery and unrecorded starts keep the protocol's invariant
  exactly under stated conditions (`RecoverExactly`, `UnrecordedExactly`); runs
  from the start show what happens otherwise (`LossAllowsTwo`, `UnreportedStart`).
- **The plan is canonical, work-conserving, envy-free and stable** under later
  arrivals (`PlanCanonical`, `WorkConserving`, `EnvyFree`, `LaterJobsDoNotDisplace`).
- **Preemption** starts from exactly the accounting the plan ended with, picks
  the shortest sufficing run of the weakest candidates, never the same job twice,
  and its promises, that the job then fits and that no more are stopped than
  necessary, hold exactly under stated conditions (`Room.RoomAfterStops`,
  `Minimality.FewestExactly`).
- **Every run of the job service** keeps the lifecycle invariants, leaves an audit
  trail that is a legal path per job, changes a job's state at most `3R + 1 + 4P`
  times and assigns it at most once per attempt and preemption.
- **No silent death.** A worker shown ACTIVE has a live lease or an expiry on its
  way, in every run.
- **Paging** by offset or by key reads the listing exactly; by key it stays exact
  for what is there throughout, whatever changes meanwhile; an offset survives a
  change exactly under a stated condition (`Paging.OffsetResumesExactly`).

## Where the code and its documentation differ

The model follows the code.

- `docs/adr/0005-preemption-policy.md:23` and `internal/scheduler/plan.go:181-183`
  say that no more jobs are preempted than necessary. The scan takes the weakest
  first, so it can take two where one stronger job would do. What it stops is
  minimal for every request exactly if no stronger candidate holds more of
  anything than a weaker one (`Minimality.FewestExactly`,
  `Minimality.TooManyStopped`).
- The preemption pass counts freed devices on top of a free count cut off at
  zero, so a job can be stopped without making room (`Room.StoppedInVain`). It
  always makes room exactly if as many devices meet the pending job's bar as are
  committed, or no job it may displace holds a device (`Room.RoomAfterStops`).
- `internal/scheduler/plan.go:169-171` says that a preempted job's capacity counts
  as free once its worker confirms the stop. The accounting leaves out PREEMPTED
  and CANCEL_REQUESTED jobs, so it is free on request (`Safety.FreedOnRequest`);
  capacity safety is about the jobs the accounting counts.
- `docs/adr/0002-scheduler-design.md:53-54` says that jobs that can never fit are
  refused on submission. Submission does not look at capacity.
- `internal/jobs/service.go:417-423` describes a retry of a failed job. In every
  reachable state it refuses (`Lifecycle.RetryNeverSucceeds`).
- `internal/jobs/service.go:346-348` says that a lost worker cannot be executing
  anything. A worker can be declared lost while it executes
  (`Agents.LossAllowsTwo`); `Agents.RecoverExactly` says when recovery is safe.
- A heartbeat renews its lease and writes its record in two steps. If the lease
  expires and is noticed in between, the record stays ACTIVE without a lease
  (`Leases.InterruptedHeartbeat`); `DelayedWriteExact` says when it is harmless.
  Registration has the same gap (`InterruptedRegistration`,
  `DelayedRegistrationExact`).
- The worker-loss sweep rechecks a job's state under the lock, not its assignment
  (`internal/jobs/service.go:368-391`), so it can take a job from a worker that is
  not lost (`Repositories.SweepIgnoresReassignment`); `SweepWriteExactly` and
  `SweepTouchesItsOwn` say when it does not.

## Model

| member | source | states |
|---|---|---|
| `TextOrder.LessMeans` | internal/scheduler/plan.go:85-97 | IDs are ordered by their first difference, a proper prefix coming first |
| `Fairness.AgingExact` | internal/scheduler/fairness.go:11-31 | for every submittable priority no 32-bit wrap-around happens: the bonus is one for every full thirty seconds of waiting, from zero up to twenty, also for clocks that run backwards |
| `Fairness.AgingMonotone` | internal/scheduler/fairness.go:21-31 | waiting at least as long with at least the priority never ranks lower |
| `Capacity.CommittedByWorker` | internal/scheduler/capacity.go:28-45 | the nested accumulation has an entry for exactly the workers in use, and it is the sum of what their jobs hold |
| `Capacity.CommittedOneMore` | internal/scheduler/capacity.go:28-45 | in that sum a job counts with its request, once for each mention of the worker, exactly if it is SCHEDULED, RUNNING or CHECKPOINTING |
| `Capacity.CommittedCanonical` | internal/scheduler/capacity.go:28-45 | the sums do not depend on the order of the jobs |
| `Capacity.FreeGpuCount` | internal/scheduler/capacity.go:50-62 | the count is of the devices meeting the bar, less what is committed, never negative |
| `Capacity.QualifyingCounts` | internal/scheduler/capacity.go:50-62 | the counting loop counts a set of devices, so its result can be drawn from it |
| `Planner.QueueOrdered` | internal/scheduler/plan.go:85-97 | the queue has each queued job once: aged priorities never rise along it, among equals the older comes first, among those of one age the smaller ID |
| `Planner.FitsMeans` | internal/scheduler/plan.go:112-133 | a worker fits a request exactly if it is active, load and request are within its CPU and memory, and, if devices are asked for, within the number of its devices that meet the bar |
| `Planner.SelectBestFit` | internal/scheduler/plan.go:105-152 | a worker is selected if and only if some worker fits; and it is one that fits such that no other that fits has fewer free devices meeting the bar, nor as few and a smaller ID |
| `Planner.SelectWorker` | internal/scheduler/plan.go:105-152 | the loop and sort find that worker, or report that none fits |
| `Planner.SelectCanonical` | internal/scheduler/plan.go:105-152 | the choice depends on which workers there are, not on their order |
| `Planner.Plan` | internal/scheduler/plan.go:53-83 | the loop over the sorted queue, charging each placement, computes the specified pass |
| `PlannerTheorems.PlanCanonical` | internal/scheduler/plan.go:53-83 | rearranging the jobs or the workers changes no assignment and no accounting |
| `PlannerTheorems.AssignmentsFromQueue` | internal/scheduler/plan.go:53-83 | every assignment takes a considered job to the active worker that fits it best with what is left at its turn |
| `PlannerTheorems.PlacedIff` | internal/scheduler/plan.go:53-83 | a job is placed exactly if some worker fits it at its turn |
| `PlannerTheorems.AssignedOnce` | internal/scheduler/plan.go:53-83 | no job is assigned twice in a pass |
| `PlannerTheorems.WorkConserving` | internal/scheduler/plan.go:53-83 | a queued job left out fits no worker even in the accounting at the end of the pass |
| `PlannerTheorems.EnvyFree` | internal/scheduler/plan.go:53-97 | a job with at least the priority and age of a placed one (ties by ID), asking for no more of anything, is placed too |
| `PlannerTheorems.LaterJobsDoNotDisplace` | internal/scheduler/plan.go:53-97 | dropping any jobs from the end of the queue leaves the other assignments as they were, as an initial part of the plan |
| `Preemption.JobById` | internal/scheduler/plan.go:321-328 | the first job with the ID is found, if there is one |
| `Preemption.RunningPreemptibleByWorker` | internal/scheduler/plan.go:307-318 | each worker's pool is the running preemptible jobs assigned to it, in the order of the snapshot |
| `Preemption.ScanVictims` | internal/scheduler/plan.go:253-275 | the early-exit loop over the candidates computes the specified scan |
| `Preemption.PlanPreemptions` | internal/scheduler/plan.go:187-302 | the four nested loops with their shared accounting compute the specified pass |
| `PreemptionTheorems.PendingAre` | internal/scheduler/plan.go:209-215 | the pending jobs are the queued ones without an assignment |
| `PreemptionTheorems.PendingOrdered` | internal/scheduler/plan.go:209-215 | and they are considered once each in the order of the first pass |
| `PreemptionTheorems.RankedCandidates` | internal/scheduler/plan.go:243-251 | the candidates on a worker are the running preemptible jobs assigned to it, in rising order of aged priority, then ID |
| `PreemptionTheorems.EnoughMeans` | internal/scheduler/plan.go:227-281 | when freed capacity is enough, in terms of load, request, capacity and devices meeting the bar |
| `PreemptionTheorems.ScanIsShortest` | internal/scheduler/plan.go:187-302 | the scan hands over a shortest sufficing prefix of the jobs that may be displaced, weakest first, or all of them |
| `PreemptionTheorems.TryWorkersOutcome` | internal/scheduler/plan.go:187-302 | workers are settled in order: every worker passed over could not make room even by stopping all it may |
| `PreemptionTheorems.VictimsAreRight` | internal/scheduler/plan.go:187-302 | for each pending job nothing changes, or jobs of one active worker are stopped that are running, preemptible, strictly weaker, not stopped before, and the shortest sufficing prefix |
| `PreemptionTheorems.EmitReports` | internal/scheduler/plan.go:285-298 | each stop names the victim, the worker and the pending job; the victims are marked, and their requests taken off that worker's load and no other |
| `PreemptionTheorems.NeverStoppedTwice` | internal/scheduler/plan.go:187-302 | no job is stopped twice in a pass |
| `Safety.NeverStoppedTwiceInRuns` | internal/scheduler/plan.go:187-302 | and so in every reachable state of the cluster, because every assignment a scheduler writes names one worker |
| `PreemptionTheorems.StartsWherePlanEnded` | internal/scheduler/plan.go:187-215 | the accounting rebuilt from the plan's assignments is the one the plan ended with |
| `PreemptionTheorems.NothingFitsAtFirst` | internal/scheduler/plan.go:187-302 | when the second pass begins no pending job fits any worker |
| `PreemptionTheorems.RoomOnlyAfterAStop` | internal/scheduler/plan.go:187-302 | if a pending job is later found to fit a worker, a job was stopped there earlier in the same pass |
| `PreemptionTheorems.LoadsFall` | internal/scheduler/plan.go:187-302 | the pass only ever takes from a worker's load |
| `Room.RoomAfterStops` | internal/scheduler/plan.go:221-298 | on a worker whose CPU and memory are not oversold, whatever a pending job asks for with a given bar, it fits after the visit that settles its case, if and only if as many devices meet the bar as are committed or no job it may displace holds a device |
| `Room.RescuedJobFits` | internal/scheduler/plan.go:187-302 | under that condition it fits that worker in the accounting of the whole pass |
| `Room.StoppedInVain` | internal/scheduler/plan.go:187-302 | wherever it fails, a whole pass over a snapshot with one queued job stops jobs without making room for it |
| `Minimality.RescueIsFewest` | internal/scheduler/plan.go:175-302 | if weaker candidates hold no less than stronger ones, no choice of victims on that worker is smaller than the one made |
| `Minimality.TooManyStopped` | internal/scheduler/plan.go:175-302 | on any worker with a stronger candidate that holds more of something there is a request for which the visit stops more jobs than necessary |
| `Minimality.FewestExactly` | internal/scheduler/plan.go:175-302 | so what the visit to a worker stops is the fewest possible, whatever is asked for, exactly under that condition |
| `Lifecycle.AcceptableMeans` | internal/jobs/validation.go:88-109 | the numeric limits of a submission |
| `Lifecycle.NewJobInv` | internal/jobs/service.go:73-98 | a new job is queued for its first attempt with exactly what was submitted, and satisfies the invariant if the submission passes validation |
| `Lifecycle.OperationsAre` | internal/jobs/service.go:131-440 | each operation of a run is the service operation of that name, with its own arguments |
| `Lifecycle.CancelLaw` | internal/jobs/service.go:131-148 | cancel is refused exactly for PREEMPTED and LOST; ends what waits, asks what runs to stop, and leaves alone what is finished or already asked |
| `Lifecycle.AssignLaw` | internal/jobs/service.go:161-170 | assignment is accepted exactly for QUEUED jobs and gives SCHEDULED with those workers |
| `Lifecycle.StartLaw` | internal/jobs/service.go:222-232 | start is accepted exactly for SCHEDULED jobs and gives RUNNING with that time |
| `Lifecycle.CompleteLaw` | internal/jobs/service.go:236-246 | completion is accepted exactly for RUNNING jobs and gives SUCCEEDED with that time |
| `Lifecycle.FailLaw` | internal/jobs/service.go:264-271 | failure is accepted exactly for RUNNING jobs and leads to the next attempt, unassigned, below the limit and to FAILED at it, with the reason |
| `Lifecycle.PreemptLaw` | internal/jobs/service.go:323-335 | preemption is accepted exactly for RUNNING preemptible jobs and gives PREEMPTED with the reason, the worker and the attempt unchanged |
| `Lifecycle.StoppedLaw` | internal/jobs/service.go:290-307 | a stop report takes CANCEL_REQUESTED to CANCELLED and PREEMPTED to QUEUED with the same attempt, and changes nothing else |
| `Lifecycle.RecoverLaw` | internal/jobs/service.go:351-415 | recovery fails SCHEDULED and RUNNING jobs, confirms the stop of CANCEL_REQUESTED and PREEMPTED ones, and changes no other |
| `Lifecycle.RetryLaw` | internal/jobs/service.go:424-440 | retry is accepted exactly for FAILED jobs below their limit, and keeps their assignment |
| `Lifecycle.PreemptionUndone` | internal/jobs/service.go:290-335 | a job assigned, started, preempted and stopped is, but for the reason, what it was when queued, at the same attempt |
| `Lifecycle.LifeLaw` | internal/jobs/service.go:131-246 | assign, start and complete succeed in turn with their times; after a cancel of the running job only its stop report is accepted, and ends it CANCELLED |
| `Lifecycle.TransitionKeeps` | internal/jobs/service.go:131-440 | every operation keeps the invariant and the submitted fields, moves along the state diagram, and changes nothing if it does not move |
| `Lifecycle.RetryNeverSucceeds` | internal/jobs/service.go:424-440 | in a reachable state retry refuses, with the limit error exactly for failed jobs |
| `Lifecycle.RetryWouldKeepAssignment` | internal/jobs/service.go:424-440 | were a failed job below its limit, retry would requeue it with its old assignment |
| `Lifecycle.CancelIdempotent` | internal/jobs/service.go:131-148 | cancelling twice is cancelling once, whenever the repeat arrives |
| `Lifecycle.CancelOutcome` | internal/jobs/service.go:131-148 | cancelling is refused exactly while a preemption waits for confirmation, and only asks a running job to stop |
| `Lifecycle.ReportStoppedIdempotent` | internal/jobs/service.go:290-307 | a repeated stop report changes nothing |
| `Lifecycle.RecoverAgrees` | internal/jobs/service.go:351-415 | recovery gives a job what the worker's own failure or stop report would have |
| `Lifecycle.AttemptsAccounted` | internal/jobs/service.go:403-415 | only a failure or loss of an assigned job uses up an attempt, exactly one, and it ends the job exactly at the limit |
| `Lifecycle.MeasureFalls` | internal/jobs/service.go:131-440 | every state change lowers a measure, except the requeue after a preemption |
| `Trail.RunKeeps` | internal/persistence/job_repository.go:212-248 | every run of steps keeps the invariant of jobs and audit trail together |
| `Trail.ReachableJobs` | internal/jobs/service.go:131-440 | in every reachable state: which timestamps, assignments and attempts go with which state, and three of the states never occur |
| `Trail.BoundedChanges` | internal/jobs/service.go:403-415 | in any run a job changes state at most 3R + 1 + 4P times, for retry limit R (at least one) and P preemption requeues |
| `Trail.BoundedAssignments` | internal/jobs/service.go:161-170 | however many schedulers interleave, a job is assigned at most once per attempt and preemption requeue |
| `Trail.TrailIsPath` | internal/persistence/job_repository.go:212-280 | each job's events are a connected legal path from submission to its stored state; unknown jobs have none |
| `Trail.CancelEndsPath` | internal/persistence/job_repository.go:212-280 | on such a path nothing but CANCELLED follows CANCEL_REQUESTED |
| `Trail.CancelSticks` | internal/jobs/service.go:131-148 | after an accepted cancel no later operations take the job anywhere but CANCELLED, and a finished job never changes |
| `Trail.IdentityFixed` | internal/persistence/job_repository.go:212-248 | no run changes what was fixed at submission, or loses a job |
| `Trail.SubmissionNamesOne` | internal/persistence/job_repository.go:91-126 | in every run a submission ID names at most one job |
| `Safety.AllocateOneMore` | internal/scheduler/capacity.go:50-62 | where the free count covers a request, able devices exist for it that none of the jobs already there uses |
| `Safety.CommittedCovers` | internal/scheduler/capacity.go:28-45 | the committed sums cover the claims of the jobs they stand for |
| `Safety.BeginPassSafe` | internal/scheduler/plan.go:53-83 | a plan made on a true snapshot can be honoured in full on top of what is held |
| `Safety.MoveSafe` | internal/scheduler/service.go:94-112 | every write of the plan and every other operation between writes keeps held and planned claims within capacity |
| `Safety.CapacitySafe` | internal/scheduler/service.go:76-130 | in every reachable state of such a cluster each worker's jobs are within its CPU and memory and have pairwise disjoint able devices |
| `Safety.PassSafe` | internal/scheduler/service.go:76-130 | the same of the state that the whole pass, preemption included, leaves behind, whatever happens before each of its writes |
| `Safety.HeldMeans` | internal/scheduler/capacity.go:28-45 | a stored job claims its request on each of its workers exactly while it is SCHEDULED, RUNNING or CHECKPOINTING |
| `Safety.FreedOnRequest` | internal/scheduler/capacity.go:28-45 | a preempted job gives up all its claims on request, while it is still assigned, and nothing else changes |
| `Safety.FreedOnCancel` | internal/scheduler/capacity.go:28-45 | and so does a running job that is asked to cancel |
| `Agents.OneExecutionAtATime` | worker/agent/main.py:120-278 | in every run, with crashes, dropped replies, lost reports and recoveries of unattended jobs, at most one thread in the system executes a job, and none while the server shows it queued, scheduled or finished |
| `Agents.RunningJobsExact` | worker/agent/main.py:116-170 | an agent's tables list exactly its live threads, one per job, so offers are not taken twice and stops reach their thread |
| `Agents.OffersMean` | internal/api/worker_server.go:56-95 | an agent is offered exactly the scheduled jobs assigned to it, and asked to stop exactly its jobs that are to stop |
| `Agents.ReportReaches` | worker/agent/main.py:233-266 | completion, failure and stop are each reported as what they are, and do to that job what they call for |
| `Agents.OutcomeArrives` | worker/agent/main.py:227-266 | what a thread ends with is what it reports and what the server acts on |
| `Agents.StopReaches` | worker/agent/main.py:151-157 | a stop request signals exactly the agent's thread on that job |
| `Agents.HeartbeatDelivers` | worker/agent/main.py:147-167 | an agent that has worked off its reply has a thread for every job it was offered, and every thread of its own on a job to stop has been told |
| `Agents.NoStopUnasked` | worker/agent/main.py:227-231 | in every run no thread reports a stop it was not told to make |
| `Agents.RecoverExactly` | internal/jobs/service.go:351-396 | recovering a job keeps the protocol's invariant exactly if no thread executes it or has its outcome to report |
| `Agents.CrashThenRecover` | internal/jobs/service.go:351-396 | after a crash every job that only the crashed agent was engaged with can be recovered |
| `Agents.UnrecordedExactly` | worker/agent/main.py:200-231 | executing although the start report got lost keeps the invariant exactly if the server shows the job running or stopping and no other thread is engaged with it |
| `Agents.UnreportedStart` | worker/agent/main.py:200-231 | in a run from the start, such a thread executes a job that the server has cancelled |
| `Agents.LossAllowsTwo` | internal/jobs/service.go:351-396 | in a run from the start, recovery of a job whose worker still executes it leads to two executions at once |
| `Leases.LeaseKeyRoundTrip` | internal/workers/service.go:32-47 | a key yields a worker ID if and only if it is that worker's key and the ID is not empty |
| `Leases.FakeManager.Grant` | internal/leases/fake.go:26-32 | a new lease has a new ID and its key |
| `Leases.FakeManager.Renew` | internal/leases/fake.go:34-41 | renewal succeeds exactly for live leases |
| `Leases.FakeManager.Expire` | internal/leases/fake.go:95-109 | the lease is gone and every watcher is sent its key once; nothing happens for an unknown lease |
| `Leases.FakeManager.WatchExpirations` | internal/leases/fake.go:60-64 | a new empty channel is added, and the others are left alone |
| `Leases.FakeManager.StopWatching` | internal/leases/fake.go:66-77 | at the end of a watch exactly its channel is removed |
| `Leases.WorkerService.Register` | internal/workers/service.go:109-136 | a registered worker is active with a lease of its own, and the fleet invariant is kept |
| `Leases.WorkerService.Heartbeat` | internal/workers/service.go:145-185 | a heartbeat renews or replaces the lease and updates what was reported, keeping the invariant; unknown workers change nothing |
| `Leases.WorkerService.MarkLost` | internal/workers/service.go:190-199 | exactly a known worker is marked, and loses its lease |
| `Leases.WorkerService.WatchExpirations` | internal/workers/service.go:226-248 | after the loop the active workers are exactly those with a live lease, and the known workers among the expired keys were announced in order |
| `Leases.AnnouncedAre` | internal/workers/service.go:226-248 | a worker is announced exactly if it is known and its key is among the expired ones |
| `Leases.NoSilentDeath` | internal/workers/service.go:226-248 | in every run LOST means having no lease, and an active worker has a live lease or an expiry on its way |
| `Leases.CaughtUp` | internal/workers/service.go:226-248 | once the watcher has caught up, active is the same as holding a live lease |
| `Leases.HeartbeatHeals` | internal/workers/service.go:145-185 | whatever happened before, a heartbeat leaves its worker active with a live lease of its own |
| `Leases.InterruptedHeartbeat` | internal/workers/service.go:145-185 | an expiry noticed between renewal and write leaves a worker active with no lease and no event to come |
| `Leases.DelayedWriteExact` | internal/workers/service.go:145-185 | exactly when the late write of a heartbeat keeps the fleet invariant |
| `Leases.InterruptedRegistration` | internal/workers/service.go:109-136 | an expiry noticed between grant and record leaves a worker active with no lease and no event to come |
| `Leases.DelayedRegistrationExact` | internal/workers/service.go:109-136 | exactly when the late record of a registration keeps the fleet invariant |
| `Repositories.MemoryRepository.constructor` | internal/jobs/memory_repository.go:31-36 | the store and its index start empty and agree |
| `Repositories.MemoryRepository.Create` | internal/jobs/memory_repository.go:38-53 | creation is idempotent on the submission ID, a repeat returning the job already there; and exactly when the index stays right |
| `Repositories.MemoryRepository.Update` | internal/jobs/memory_repository.go:114-128 | an update applies the operation to the stored job or leaves the store as it was, and keeps the index right |
| `Repositories.OneJobPerSubmission` | internal/jobs/memory_repository.go:38-53 | no two stored jobs share a submission ID |
| `Repositories.JobTable.Submit` | internal/persistence/job_repository.go:91-126 | submission is the specified step with its event; for a submission ID in use it returns the one job that has it, and IDs stay unique |
| `Repositories.JobTable.Update` | internal/persistence/job_repository.go:212-248 | one locked update is one step, with an event exactly if the state changed |
| `Repositories.JobTable.ListActive` | internal/persistence/job_repository.go:250-269 | every job that is not finished, once, by priority, age and ID |
| `Repositories.ListAssignedToWorker` | internal/jobs/service.go:186-198 | exactly the scheduled jobs assigned to the worker, each once |
| `Repositories.ListStoppableForWorker` | internal/jobs/service.go:205-218 | exactly the worker's jobs that are asked to stop, each once |
| `Repositories.LoseWorker` | internal/jobs/service.go:351-396 | whatever others do before each write, the sweep is a run of job operations with one write for each job assigned to the worker and SCHEDULED, RUNNING, CANCEL_REQUESTED or PREEMPTED at its snapshot, and counts them; undisturbed, it recovers exactly those jobs, with the worker named in the reason, and changes no other |
| `Repositories.SweepLeavesNone` | internal/jobs/service.go:351-396 | afterwards no job assigned to that worker is SCHEDULED, RUNNING, CANCEL_REQUESTED or PREEMPTED |
| `Repositories.SweepStandsIn` | internal/jobs/service.go:351-396 | each swept job is what the report the sweep stands in for would have made it |
| `Repositories.SweepWriteExactly` | internal/jobs/service.go:368-391 | a write of the sweep spares the jobs in flight on other workers only, exactly if its own job is not one of them by then |
| `Repositories.SweepTouchesItsOwn` | internal/jobs/service.go:351-396 | as long as nobody assigns a swept job elsewhere between snapshot and write, the write finds it on the lost worker or out of flight |
| `Repositories.SweepIgnoresReassignment` | internal/jobs/service.go:351-396 | otherwise, in a run of the sweep, a job failed by its worker and assigned elsewhere after the snapshot is taken from the worker that has it now |
| `Scheduler.PlaceOne` | internal/scheduler/service.go:94-112 | a planned assignment is recorded as a decision exactly if the job is still queued when it is written |
| `Scheduler.ApplyPlan` | internal/scheduler/service.go:94-112 | the loop writes the plan in order among the steps of others, and records what was won |
| `Scheduler.ApplyStops` | internal/scheduler/service.go:114-128 | the loop stops what is still stoppable and counts it |
| `Scheduler.RunOnce` | internal/scheduler/service.go:76-130 | whatever others do, a pass is a run of job operations, so all that holds of runs holds after it; every assignment is placed or conflicted; the decisions added are those placed; preemptions come last, planned on the pass's snapshot |
| `Scheduler.WriteOutcome` | internal/scheduler/service.go:94-112 | a write takes a job that is still queued to that one worker, and otherwise changes nothing |
| `Scheduler.StopOutcome` | internal/scheduler/service.go:114-128 | a stop takes a job that is still running and preemptible to PREEMPTED with its reason, and otherwise changes nothing |
| `Scheduler.EveryWriteTallied` | internal/scheduler/service.go:94-112 | placed and conflicted add up to the plan |
| `Scheduler.DecisionMatchesTrail` | internal/scheduler/service.go:94-112 | a decision is recorded exactly when its own write added a QUEUED to SCHEDULED event |
| `Scheduler.SecondWriteLoses` | internal/jobs/service.go:161-170 | of two schedulers writing an assignment of the same job, the second changes nothing |
| `Paging.ListingMeans` | internal/jobs/memory_repository.go:70-84 | a listing has exactly the stored jobs in the state asked for, or all of them, oldest first and by ID among jobs of one age |
| `Paging.PageSize` | internal/jobs/memory_repository.go:96-99 | sizes from 1 to 200 are honoured, all others mean 50 |
| `Paging.ListInMemory` | internal/jobs/memory_repository.go:66-112 | the page is cut from the one listing of the matching jobs by age and ID; a token that cannot be read yields no page |
| `Paging.ListInTable` | internal/persistence/job_repository.go:150-210 | the rows selected after the key and limited to one extra give the page that the whole ordered listing would |
| `Paging.TokensRoundTrip` | internal/persistence/job_repository.go:367-386 | a key survives its token whatever characters the ID has, an offset survives its own, and no token is empty |
| `Paging.OffsetWalkReads` | internal/jobs/memory_repository.go:66-112 | following offsets over an unchanging listing, or one that only grows at the end, reads it in order, ends after at most one page per job and one, and has then read all of it |
| `Paging.KeyWalkReads` | internal/persistence/job_repository.go:150-210 | following keys over an unchanging listing does the same |
| `Paging.OffsetWalkCompletes` | internal/jobs/memory_repository.go:66-112 | every walk by offset over an unchanging listing can be continued to its end, where it has delivered the listing |
| `Paging.KeyWalkCompletes` | internal/persistence/job_repository.go:150-210 | and so can every walk by key |
| `Paging.WalksAgree` | internal/persistence/job_repository.go:360-386 | both schemes, with any page sizes, deliver the listing itself |
| `Paging.MovingWalkOrdered` | internal/persistence/job_repository.go:150-210 | whatever changes between the pages, jobs come in strictly increasing order of age and ID |
| `Paging.MovingWalkComplete` | internal/persistence/job_repository.go:150-210 | a key that the listing contains throughout the walk is read by the time it is done |
| `Paging.NoneTwiceWhileRunning` | internal/persistence/job_repository.go:150-210 | listing all jobs while the system runs on returns no job twice |
| `Paging.AllReadWhileRunning` | internal/persistence/job_repository.go:150-210 | and every job there was when the walk began has been returned when it is done |
| `Paging.OffsetResumesExactly` | internal/jobs/memory_repository.go:66-112 | after any change of the listing, the next page by offset is the one by key exactly if as many jobs come up to the key reached as were read, or as there are |
| `Paging.OffsetSoundExactly` | internal/jobs/memory_repository.go:66-112 | if jobs were only removed or only inserted, the same condition says exactly when no job of both listings is skipped or read twice |
| `Paging.MixedChangesHide` | internal/jobs/memory_repository.go:66-112 | with a removal and an insertion at once the condition can fail although no job of both listings is affected |
| `Paging.OffsetSkips` | internal/jobs/memory_repository.go:66-112 | an offset walk misses a job that was there throughout when one leaves the front of the listing |

## Left out

- gRPC and REST adapters, authentication, configuration, logging, metrics and deployment: they carry the modelled operations and add no rule of their own.
- PostgreSQL, etcd and leader election: a transaction is one step, the row lock makes updates atomic, and one active scheduler is the premise of capacity safety.
- Base64, decimal and timestamp texts in page tokens: library functions, taken as parameters that invert each other.
- Floating point: CPU counts are real numbers, so rounding in the committed sums is not modelled.
- 64-bit sums of memory: they are unbounded here; `CapacitySafe` keeps them within the workers' capacity.
- Clocks, job and worker ID generation and lease durations: parameters; a fresh ID is the premise of `Leases.WorkerService.Register`.
- Database failures in the middle of a pass, including a failed decision record, which ends the pass: they would add prefixes of the runs that are covered.
- The buffer of 16 events per expiration watcher.
- Submission validation of names, images, commands, environments and timeouts: only the numeric limits the scheduler relies on are modelled (`internal/jobs/validation.go:88-109`).
- Checkpoints, job output, execution timeouts and resource enforcement inside the agent.
- Liveness: nothing says that an agent eventually sends a heartbeat or that a pass eventually runs.
- The paging of workers, which repeats the scheme of the job table.
- OneExecutionAtATime: recovery is a step only for unattended jobs and an unrecorded start only for busy ones; `RecoverExactly` and `UnrecordedExactly` show that neither condition can be weakened, and nothing in the code enforces them.
- SweepTouchesItsOwn: one direction, because an assignment elsewhere may be undone before the write; `SweepWriteExactly` is exact at the write.
- Register: lease and record are one step here; `DelayedRegistrationExact` covers what can happen in between.
- RescuedJobFits: one direction only over the whole pass, because later stops on the same worker can also make room; `RoomAfterStops` is exact for the visit.
- NeverStoppedTwice: requires that no job lists the same worker twice; `NeverStoppedTwiceInRuns` discharges it for every run.

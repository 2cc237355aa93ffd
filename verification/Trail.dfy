/** Every run of the job service: the stored jobs together with the audit trail
    written in the same transactions, under any interleaving of operations by
    clients, schedulers, workers and the worker-loss sweep. */
module Trail {
  import opened Records
  import opened Sorting
  import opened Lifecycle

  datatype Event = Submitted(jobId: string, to: State) | StateChanged(jobId: string, from: State, to: State)

  datatype System = System(jobs: map<string, Job>, trail: seq<Event>)

  datatype Step =
    | Submit(id: string, input: SubmitInput, now: int)
    | Apply(id: string, op: Op)

  const EMPTY := System(map[], [])

  ghost predicate HasSubmission(jobs: map<string, Job>, submissionId: string)
  {
    submissionId != "" && exists id :: id in jobs && jobs[id].submissionId == submissionId
  }

  /** A submission ID, if there is one, names one job. */
  ghost predicate OneJobEach(jobs: map<string, Job>)
  {
    forall a, b :: a in jobs && b in jobs && jobs[a].submissionId == jobs[b].submissionId != "" ==> a == b
  }

  /** Insertion of a job, with the event that records it. */
  function Insert(sys: System, j: Job): System
  {
    System(sys.jobs[j.id := j], sys.trail + [Submitted(j.id, j.state)])
  }

  /** Replacement of a job's record, with an event if its state changed. */
  function Store(sys: System, id: string, k: Job): System
    requires id in sys.jobs
  {
    System(sys.jobs[id := k],
           if k.state == sys.jobs[id].state then sys.trail
           else sys.trail + [StateChanged(id, sys.jobs[id].state, k.state)])
  }

  ghost function Next(sys: System, step: Step): System
  {
    match step
    case Submit(id, input, now) =>
      if !Acceptable(input) || id in sys.jobs || HasSubmission(sys.jobs, input.submissionId) then sys
      else Insert(sys, NewJob(id, input, now))
    case Apply(id, op) =>
      if id in sys.jobs && Transition(op, sys.jobs[id]).Ok?
      then Store(sys, id, Transition(op, sys.jobs[id]).value) else sys
  }

  ghost function Run(sys: System, steps: seq<Step>): System
  {
    if steps == [] then sys else Next(Run(sys, steps[..|steps| - 1]), steps[|steps| - 1])
  }

  lemma RunSnoc(sys: System, steps: seq<Step>, step: Step)
    ensures Run(sys, steps + [step]) == Next(Run(sys, steps), step)
  {
    assert (steps + [step])[..|steps|] == steps;
  }

  lemma {:induction false} RunConcat(sys: System, a: seq<Step>, b: seq<Step>)
    ensures Run(sys, a + b) == Run(Run(sys, a), b)
  {
    if b == [] {
      assert a + b == a;
    } else {
      var n := |b| - 1;
      RunConcat(sys, a, b[..n]);
      assert a + b == (a + b[..n]) + [b[n]];
      RunSnoc(sys, a + b[..n], b[n]);
    }
  }

  // Reading the trail.

  function About(id: string): Event -> bool { (e: Event) => e.jobId == id }

  function IsChange(id: string): Event -> bool { (e: Event) => e.jobId == id && e.StateChanged? }

  function IsMove(id: string, from: State, to: State): Event -> bool
  {
    (e: Event) => e == StateChanged(id, from, to)
  }

  function Changes(trail: seq<Event>, id: string): nat { |Filter(trail, IsChange(id))| }

  function Requeues(trail: seq<Event>, id: string): nat { |Filter(trail, IsMove(id, Preempted, Queued))| }

  function Assignments(trail: seq<Event>, id: string): nat { |Filter(trail, IsMove(id, Queued, Scheduled))| }

  function History(trail: seq<Event>, id: string): seq<Event> { Filter(trail, About(id)) }

  /** A connected path from submission to `state`, along the state diagram. */
  ghost predicate IsPath(history: seq<Event>, state: State)
  {
    && history != []
    && history[0].Submitted? && history[0].to.Queued?
    && (forall i :: 1 <= i < |history| ==>
          history[i].StateChanged? && history[i].from == history[i - 1].to && LegalEdge(history[i].from, history[i].to))
    && history[|history| - 1].to == state
  }

  /** What holds of one job and the part of the trail about it. */
  ghost predicate Accounted(j: Job, trail: seq<Event>, id: string)
  {
    && j.id == id && JobInv(j)
    && IsPath(History(trail, id), j.state)
    && Measure(j) + Changes(trail, id) <= 3 * Attempts(j) + 1 + 4 * Requeues(trail, id)
    && Assignments(trail, id) + (if j.state.Queued? then 1 else 0) <= j.currentAttempt + Requeues(trail, id)
  }

  ghost predicate AllAccounted(jobs: map<string, Job>, trail: seq<Event>)
  {
    forall id :: id in jobs ==> Accounted(jobs[id], trail, id)
  }

  ghost predicate EventsBelong(jobs: map<string, Job>, trail: seq<Event>)
  {
    forall e :: e in trail ==> e.jobId in jobs
  }

  ghost predicate SysInv(sys: System)
  {
    AllAccounted(sys.jobs, sys.trail) && EventsBelong(sys.jobs, sys.trail)
  }

  // How one event moves the counts.

  lemma CountsAppend(trail: seq<Event>, e: Event, id: string)
    ensures History(trail + [e], id) == History(trail, id) + if e.jobId == id then [e] else []
    ensures Changes(trail + [e], id) == Changes(trail, id) + if e.jobId == id && e.StateChanged? then 1 else 0
    ensures Requeues(trail + [e], id)
         == Requeues(trail, id) + if e == StateChanged(id, Preempted, Queued) then 1 else 0
    ensures Assignments(trail + [e], id)
         == Assignments(trail, id) + if e == StateChanged(id, Queued, Scheduled) then 1 else 0
  {
    FilterAppend(trail, e, About(id));
    FilterAppend(trail, e, IsChange(id));
    FilterAppend(trail, e, IsMove(id, Preempted, Queued));
    FilterAppend(trail, e, IsMove(id, Queued, Scheduled));
  }

  lemma {:induction false} SilentId(trail: seq<Event>, id: string)
    requires forall e :: e in trail ==> e.jobId != id
    ensures History(trail, id) == [] && Changes(trail, id) == Requeues(trail, id) == Assignments(trail, id) == 0
  {
    if trail != [] {
      var n := |trail| - 1;
      assert trail == trail[..n] + [trail[n]];
      SilentId(trail[..n], id);
      CountsAppend(trail[..n], trail[n], id);
    }
  }

  lemma OtherJobKept(j: Job, trail: seq<Event>, e: Event, id: string)
    requires Accounted(j, trail, id) && e.jobId != id
    ensures Accounted(j, trail + [e], id)
  {
    CountsAppend(trail, e, id);
  }

  lemma NewJobAccounted(j: Job, trail: seq<Event>)
    requires JobInv(j) && j.state.Queued? && j.currentAttempt == 1
    requires forall e :: e in trail ==> e.jobId != j.id
    ensures Accounted(j, trail + [Submitted(j.id, j.state)], j.id)
  {
    SilentId(trail, j.id);
    CountsAppend(trail, Submitted(j.id, j.state), j.id);
  }

  lemma MovedJobAccounted(j: Job, trail: seq<Event>, id: string, op: Op)
    requires Accounted(j, trail, id) && Transition(op, j).Ok? && Transition(op, j).value.state != j.state
    ensures var k := Transition(op, j).value;
      Accounted(k, trail + [StateChanged(id, j.state, k.state)], id)
  {
    var k := Transition(op, j).value;
    var e := StateChanged(id, j.state, k.state);
    TransitionKeeps(op, j);
    MeasureFalls(op, j);
    AttemptsAccounted(op, j);
    CountsAppend(trail, e, id);
    var h := History(trail, id);
    assert (h + [e])[|h|] == e && (h + [e])[|h| - 1] == h[|h| - 1];
  }

  /** One job's record and one event about it, in place of or beside others. */
  lemma UpdateKeeps(jobs: map<string, Job>, trail: seq<Event>, id: string, k: Job, e: Event)
    requires AllAccounted(jobs, trail) && e.jobId == id && Accounted(k, trail + [e], id)
    ensures AllAccounted(jobs[id := k], trail + [e])
  {
    var updated := jobs[id := k];
    forall other | other in updated ensures Accounted(updated[other], trail + [e], other) {
      if other != id { OtherJobKept(jobs[other], trail, e, other); }
    }
  }

  lemma InsertKeeps(sys: System, j: Job)
    requires SysInv(sys) && j.id !in sys.jobs
    requires JobInv(j) && j.state.Queued? && j.currentAttempt == 1
    ensures SysInv(Insert(sys, j))
  {
    NewJobAccounted(j, sys.trail);
    UpdateKeeps(sys.jobs, sys.trail, j.id, j, Submitted(j.id, j.state));
  }

  lemma StoreKeeps(sys: System, id: string, k: Job)
    requires SysInv(sys) && id in sys.jobs && Accounted(k, Store(sys, id, k).trail, id)
    ensures SysInv(Store(sys, id, k))
  {
    if k.state != sys.jobs[id].state {
      UpdateKeeps(sys.jobs, sys.trail, id, k, StateChanged(id, sys.jobs[id].state, k.state));
    }
  }

  lemma StepKeeps(sys: System, step: Step)
    requires SysInv(sys)
    ensures SysInv(Next(sys, step))
  {
    if Next(sys, step) != sys {
      match step {
        case Submit(id, input, now) =>
          NewJobInv(id, input, now);
          InsertKeeps(sys, NewJob(id, input, now));
        case Apply(id, op) =>
          var j := sys.jobs[id];
          assert Accounted(j, sys.trail, id);
          var k := Transition(op, j).value;
          TransitionKeeps(op, j);
          if k.state != j.state { MovedJobAccounted(j, sys.trail, id, op); }
          StoreKeeps(sys, id, k);
      }
    }
  }

  lemma ReachedJob(sys: System, id: string)
    requires SysInv(sys) && id in sys.jobs
    ensures JobInv(sys.jobs[id]) && sys.jobs[id].id == id
  {
    assert Accounted(sys.jobs[id], sys.trail, id);
  }

  /** What one step may do to a job that is already there. */
  lemma StepMovesJob(sys: System, step: Step, id: string)
    requires id in sys.jobs && JobInv(sys.jobs[id])
    ensures id in Next(sys, step).jobs
    ensures SameIdentity(sys.jobs[id], Next(sys, step).jobs[id])
    ensures var j, k := sys.jobs[id], Next(sys, step).jobs[id]; k == j || LegalEdge(j.state, k.state)
  {
    if step.Apply? && step.id == id && Transition(step.op, sys.jobs[id]).Ok? {
      TransitionKeeps(step.op, sys.jobs[id]);
    }
  }

  lemma StepKeepsIds(sys: System, step: Step)
    ensures sys.jobs.Keys <= Next(sys, step).jobs.Keys
  {
  }

  /** Every run from any state that satisfies the invariant keeps it. */
  lemma {:induction false} RunKeeps(sys: System, steps: seq<Step>)
    requires SysInv(sys)
    ensures SysInv(Run(sys, steps))
  {
    if steps != [] {
      var n := |steps| - 1;
      RunKeeps(sys, steps[..n]);
      StepKeeps(Run(sys, steps[..n]), steps[n]);
    }
  }

  /** Every reachable state: the lifecycle invariants of each stored job. */
  lemma ReachableJobs(steps: seq<Step>, id: string)
    requires id in Run(EMPTY, steps).jobs
    ensures JobInv(Run(EMPTY, steps).jobs[id]) && Run(EMPTY, steps).jobs[id].id == id
    ensures Retry(Run(EMPTY, steps).jobs[id]).Err?
  {
    RunKeeps(EMPTY, steps);
    RetryNeverSucceeds(Run(EMPTY, steps).jobs[id]);
  }

  /** A job with `P` completed preemption requeues changes state at most
      `3R + 1 + 4P` times in any run, where `R` is its retry limit, at least one. */
  lemma BoundedChanges(steps: seq<Step>, id: string)
    requires id in Run(EMPTY, steps).jobs
    ensures var sys := Run(EMPTY, steps);
      Changes(sys.trail, id) <= 3 * Attempts(sys.jobs[id]) + 1 + 4 * Requeues(sys.trail, id)
  {
    RunKeeps(EMPTY, steps);
    assert Accounted(Run(EMPTY, steps).jobs[id], Run(EMPTY, steps).trail, id);
  }

  /** However many schedulers interleave, a job is successfully assigned at most
      once per attempt and per preemption requeue. */
  lemma BoundedAssignments(steps: seq<Step>, id: string)
    requires id in Run(EMPTY, steps).jobs
    ensures var sys := Run(EMPTY, steps);
      Assignments(sys.trail, id) <= sys.jobs[id].currentAttempt + Requeues(sys.trail, id)
  {
    RunKeeps(EMPTY, steps);
    assert Accounted(Run(EMPTY, steps).jobs[id], Run(EMPTY, steps).trail, id);
  }

  /** Each job's audit trail is a connected path of legal edges from its
      submission to its stored state, and every event belongs to a stored job. */
  lemma TrailIsPath(steps: seq<Step>, id: string)
    ensures var sys := Run(EMPTY, steps);
      if id in sys.jobs then IsPath(History(sys.trail, id), sys.jobs[id].state)
      else History(sys.trail, id) == []
  {
    RunKeeps(EMPTY, steps);
    var sys := Run(EMPTY, steps);
    if id in sys.jobs {
      assert Accounted(sys.jobs[id], sys.trail, id);
    } else {
      SilentId(sys.trail, id);
    }
  }

  /** A path ends where it reaches a final state. */
  lemma NothingAfterTheEnd(history: seq<Event>, state: State, i: nat)
    requires IsPath(history, state) && i < |history| && history[i].to.Terminal()
    ensures i == |history| - 1
  {
    assert i + 1 < |history| ==> LegalEdge(history[i + 1].from, history[i + 1].to);
  }

  /** On such a path nothing but its confirmation follows a cancel request. */
  lemma CancelEndsPath(history: seq<Event>, state: State, i: nat)
    requires IsPath(history, state) && i < |history| && history[i].to.CancelRequested?
    ensures |history| <= i + 2 && (i + 1 < |history| ==> history[i + 1].to.Cancelled?)
  {
    if i + 1 < |history| {
      assert LegalEdge(history[i + 1].from, history[i + 1].to);
      NothingAfterTheEnd(history, state, i + 1);
    }
  }

  /** Once cancellation is accepted, no later operation of any kind takes the
      job elsewhere; and a finished job stays as it finished. */
  lemma {:induction false} CancelSticks(sys: System, steps: seq<Step>, id: string)
    requires SysInv(sys) && id in sys.jobs
    requires sys.jobs[id].state.CancelRequested? || sys.jobs[id].state.Terminal()
    ensures id in Run(sys, steps).jobs
    ensures var k := Run(sys, steps).jobs[id];
      k == sys.jobs[id] || (sys.jobs[id].state.CancelRequested? && k.state.Cancelled?)
  {
    if steps != [] {
      var n := |steps| - 1;
      CancelSticks(sys, steps[..n], id);
      RunKeeps(sys, steps[..n]);
      ReachedJob(Run(sys, steps[..n]), id);
      StepMovesJob(Run(sys, steps[..n]), steps[n], id);
    }
  }

  /** What is fixed at submission never changes. */
  lemma {:induction false} IdentityFixed(sys: System, steps: seq<Step>, id: string)
    requires SysInv(sys) && id in sys.jobs
    ensures id in Run(sys, steps).jobs && SameIdentity(sys.jobs[id], Run(sys, steps).jobs[id])
  {
    if steps != [] {
      var n := |steps| - 1;
      IdentityFixed(sys, steps[..n], id);
      RunKeeps(sys, steps[..n]);
      ReachedJob(Run(sys, steps[..n]), id);
      StepMovesJob(Run(sys, steps[..n]), steps[n], id);
    }
  }

  lemma StepKeepsOneEach(sys: System, step: Step)
    requires OneJobEach(sys.jobs)
    ensures OneJobEach(Next(sys, step).jobs)
  {
    if step.Apply? && step.id in sys.jobs && Transition(step.op, sys.jobs[step.id]).Ok? {
      OpKeepsIdentity(step.op, sys.jobs[step.id]);
      ReplaceKeepsOneEach(sys.jobs, step.id, Transition(step.op, sys.jobs[step.id]).value);
    }
  }

  lemma ReplaceKeepsOneEach(jobs: map<string, Job>, id: string, k: Job)
    requires OneJobEach(jobs) && id in jobs && k.submissionId == jobs[id].submissionId
    ensures OneJobEach(jobs[id := k])
  {
  }

  lemma {:induction false} RunKeepsOneEach(sys: System, steps: seq<Step>)
    requires OneJobEach(sys.jobs)
    ensures OneJobEach(Run(sys, steps).jobs)
  {
    if steps != [] {
      RunKeepsOneEach(sys, steps[..|steps| - 1]);
      StepKeepsOneEach(Run(sys, steps[..|steps| - 1]), steps[|steps| - 1]);
    }
  }

  /** In every run, however often a submission is repeated and whatever happens
      to its job, its ID names one job only. */
  lemma SubmissionNamesOne(steps: seq<Step>, a: string, b: string)
    requires a in Run(EMPTY, steps).jobs && b in Run(EMPTY, steps).jobs
    requires Run(EMPTY, steps).jobs[a].submissionId == Run(EMPTY, steps).jobs[b].submissionId != ""
    ensures a == b
  {
    RunKeepsOneEach(EMPTY, steps);
  }
}

/** The protocol between the server and the worker agents: heartbeats that hand
    out work and stop requests, job threads that report back, agents that crash
    and the recovery of their jobs, as interleaved steps. */
module Agents {
  import opened Records
  import opened Options
  import opened Lifecycle

  datatype Outcome = Completed | Stopped | Broke(reason: string)

  /** A job thread: asking to start, executing, with its outcome to report, past
      its report but still registered with its agent, or gone. */
  datatype Phase = Starting | Executing | Reporting(outcome: Outcome) | Closing | Gone

  datatype Thread = Thread(jobId: string, agent: string, phase: Phase, signalled: bool)
  {
    predicate Engaged() { phase.Executing? || phase.Reporting? }
  }

  /** A heartbeat's reply: the jobs to start are listed first, the jobs to stop
      at a later moment; once complete it is worked off item by item. */
  datatype Reply = Reply(offers: seq<string>, stops: seq<string>, complete: bool)

  datatype Agent = Agent(
    runningJobs: map<string, nat>, cancelEvents: map<string, nat>, reply: Option<Reply>)

  datatype World = World(jobs: map<string, Job>, threads: map<nat, Thread>, agents: map<string, Agent>)

  datatype Step =
    | NewJob(job: Job)
    | ServerOp(id: string, op: Op)
    | RecoverJob(id: string, reason: string, now: int)
    | Crash(agent: string)
    | ListOffers(agent: string, offers: seq<string>)
    | ListStops(agent: string, stops: seq<string>)
    | TakeOffer(agent: string, thread: nat)
    | TakeStop(agent: string)
    | EndReply(agent: string)
    | DropReply(agent: string)
    | StartAccepted(thread: nat, now: int)
    | StartRefused(thread: nat)
    | StartUnrecorded(thread: nat)
    | Finish(thread: nat, outcome: Outcome)
    | Report(thread: nat, now: int)
    | ReportLost(thread: nat)
    | Close(thread: nat)

  predicate Offered(w: World, agent: string, id: string)
  {
    id in w.jobs && w.jobs[id].state.Scheduled? && agent in w.jobs[id].assignedWorkerIds
  }

  predicate StopWanted(w: World, agent: string, id: string)
  {
    && id in w.jobs && (w.jobs[id].state.CancelRequested? || w.jobs[id].state.Preempted?)
    && agent in w.jobs[id].assignedWorkerIds
  }

  /** What users and schedulers do to jobs. */
  predicate OutsideOp(op: Op) { op.CancelOp? || op.AssignOp? || op.PreemptOp? || op.RetryOp? }

  predicate HasReply(w: World, agent: string)
  {
    agent in w.agents && w.agents[agent].reply.Some? && w.agents[agent].reply.value.complete
  }

  predicate InPhase(w: World, t: nat, p: Phase)
  {
    t in w.threads && w.threads[t].phase == p && w.threads[t].agent in w.agents && w.threads[t].jobId in w.jobs
  }

  /** No thread executes the job or has its outcome to report. */
  predicate Unattended(w: World, id: string)
  {
    forall t :: t in w.threads && w.threads[t].Engaged() ==> w.threads[t].jobId != id
  }

  /** A job some thread is engaged with: running, or asked to stop. */
  predicate Busy(s: State) { s.Running? || s.CancelRequested? || s.Preempted? }

  /** A job is recovered, and a thread whose start report got lost executes
      anyway, under the conditions that `RecoverExactly` and
      `UnrecordedExactly` show to be exact. */
  predicate Enabled(w: World, s: Step)
  {
    match s
    case NewJob(job) => job.id !in w.jobs && job.state.Queued?
    case ServerOp(id, op) => id in w.jobs && OutsideOp(op)
    case RecoverJob(id, _, _) => id in w.jobs && Unattended(w, id)
    case Crash(agent) => agent in w.agents
    case ListOffers(agent, offers) =>
      agent in w.agents && w.agents[agent].reply.None? && forall id :: id in offers ==> Offered(w, agent, id)
    case ListStops(agent, stops) =>
      && agent in w.agents && w.agents[agent].reply.Some? && !w.agents[agent].reply.value.complete
      && forall id :: id in stops ==> StopWanted(w, agent, id)
    case TakeOffer(agent, thread) =>
      HasReply(w, agent) && w.agents[agent].reply.value.offers != [] && thread !in w.threads
    case TakeStop(agent) =>
      HasReply(w, agent) && w.agents[agent].reply.value.offers == [] && w.agents[agent].reply.value.stops != []
    case EndReply(agent) => HasReply(w, agent) && w.agents[agent].reply.value == Reply([], [], true)
    case DropReply(agent) => agent in w.agents && w.agents[agent].reply.Some? && !w.agents[agent].reply.value.complete
    case StartAccepted(t, now) => InPhase(w, t, Starting) && Start(w.jobs[w.threads[t].jobId], now).Ok?
    case StartRefused(t) => InPhase(w, t, Starting) && Start(w.jobs[w.threads[t].jobId], 0).Err?
    case StartUnrecorded(t) =>
      InPhase(w, t, Starting) && Busy(w.jobs[w.threads[t].jobId].state) && Unattended(w, w.threads[t].jobId)
    case Finish(t, outcome) => InPhase(w, t, Executing) && (outcome.Stopped? ==> w.threads[t].signalled)
    case Report(t, now) => t in w.threads && w.threads[t].phase.Reporting? && InPhase(w, t, w.threads[t].phase)
    case ReportLost(t) => t in w.threads && w.threads[t].phase.Reporting? && InPhase(w, t, w.threads[t].phase)
    case Close(t) => InPhase(w, t, Closing)
  }

  function SetPhase(w: World, t: nat, p: Phase): World
    requires t in w.threads
  {
    w.(threads := w.threads[t := w.threads[t].(phase := p)])
  }

  function Apply(jobs: map<string, Job>, id: string, op: Op): map<string, Job>
    requires id in jobs
  {
    match Transition(op, jobs[id])
    case Ok(k) => jobs[id := k]
    case Err(_) => jobs
  }

  function ReportOp(outcome: Outcome, now: int): Op
  {
    match outcome
    case Completed => CompleteOp(now)
    case Stopped => StoppedOp(now)
    case Broke(reason) => FailOp(reason, now)
  }

  function Spawn(w: World, a: string, id: string, t: nat): World
    requires a in w.agents
  {
    var agent := w.agents[a];
    w.(threads := w.threads[t := Thread(id, a, Starting, false)],
       agents := w.agents[a := agent.(runningJobs := agent.runningJobs[id := t],
                                      cancelEvents := agent.cancelEvents[id := t])])
  }

  function Signal(w: World, a: string, id: string): World
    requires a in w.agents
  {
    if id in w.agents[a].cancelEvents && w.agents[a].cancelEvents[id] in w.threads then
      var t := w.agents[a].cancelEvents[id];
      w.(threads := w.threads[t := w.threads[t].(signalled := true)])
    else w
  }

  function SetReply(w: World, a: string, r: Option<Reply>): World
    requires a in w.agents
  {
    w.(agents := w.agents[a := w.agents[a].(reply := r)])
  }

  function Unregister(w: World, t: nat): World
    requires t in w.threads && w.threads[t].agent in w.agents
  {
    var id, a := w.threads[t].jobId, w.threads[t].agent;
    var agent := w.agents[a];
    w.(agents := w.agents[a := agent.(runningJobs := agent.runningJobs - {id}, cancelEvents := agent.cancelEvents - {id})])
  }

  /** The process is gone, with its threads and its tables. */
  function Crashed(w: World, a: string): World
    requires a in w.agents
  {
    w.(threads := map t | t in w.threads ::
                    if w.threads[t].agent == a then w.threads[t].(phase := Gone) else w.threads[t],
       agents := w.agents[a := Agent(map[], map[], None)])
  }

  function Recovered(w: World, id: string, reason: string, now: int): World
    requires id in w.jobs
  {
    w.(jobs := Apply(w.jobs, id, RecoverOp(reason, now)))
  }

  function Next(w: World, s: Step): World
    requires Enabled(w, s)
  {
    match s
    case NewJob(job) => w.(jobs := w.jobs[job.id := job])
    case ServerOp(id, op) => w.(jobs := Apply(w.jobs, id, op))
    case RecoverJob(id, reason, now) => Recovered(w, id, reason, now)
    case Crash(a) => Crashed(w, a)
    case ListOffers(a, offers) => SetReply(w, a, Some(Reply(offers, [], false)))
    case ListStops(a, stops) => SetReply(w, a, Some(w.agents[a].reply.value.(stops := stops, complete := true)))
    case TakeOffer(a, t) =>
      var r := w.agents[a].reply.value;
      var v := SetReply(w, a, Some(r.(offers := r.offers[1..])));
      if r.offers[0] in w.agents[a].runningJobs then v else Spawn(v, a, r.offers[0], t)
    case TakeStop(a) =>
      var r := w.agents[a].reply.value;
      Signal(SetReply(w, a, Some(r.(stops := r.stops[1..]))), a, r.stops[0])
    case EndReply(a) => SetReply(w, a, None)
    case DropReply(a) => SetReply(w, a, None)
    case StartAccepted(t, now) =>
      SetPhase(w, t, Executing).(jobs := Apply(w.jobs, w.threads[t].jobId, StartOp(now)))
    case StartRefused(t) => SetPhase(w, t, Closing)
    case StartUnrecorded(t) => SetPhase(w, t, Executing)
    case Finish(t, outcome) => SetPhase(w, t, Reporting(outcome))
    case Report(t, now) =>
      SetPhase(w, t, Closing).(jobs := Apply(w.jobs, w.threads[t].jobId, ReportOp(w.threads[t].phase.outcome, now)))
    case ReportLost(t) => SetPhase(w, t, Closing)
    case Close(t) => Unregister(SetPhase(w, t, Gone), t)
  }

  // The invariant.

  ghost predicate EngagedBusy(w: World)
  {
    forall t :: t in w.threads && w.threads[t].Engaged() ==>
      w.threads[t].jobId in w.jobs && Busy(w.jobs[w.threads[t].jobId].state)
  }

  ghost predicate EngagedAlone(w: World)
  {
    forall t, u :: t in w.threads && u in w.threads && t != u && w.threads[t].Engaged() && w.threads[u].Engaged() ==>
      w.threads[t].jobId != w.threads[u].jobId
  }

  /** An agent's tables list exactly its threads that are not gone. */
  ghost predicate Registered(w: World)
  {
    && (forall a :: a in w.agents ==> w.agents[a].cancelEvents == w.agents[a].runningJobs)
    && (forall a, id :: a in w.agents && id in w.agents[a].runningJobs ==>
          var t := w.agents[a].runningJobs[id];
          t in w.threads && w.threads[t].jobId == id && w.threads[t].agent == a && !w.threads[t].phase.Gone?)
    && (forall t :: t in w.threads && !w.threads[t].phase.Gone? ==>
          var th := w.threads[t];
          th.agent in w.agents && th.jobId in w.agents[th.agent].runningJobs && w.agents[th.agent].runningJobs[th.jobId] == t)
  }

  ghost predicate Inv(w: World) { EngagedBusy(w) && EngagedAlone(w) && Registered(w) }

  /** Users and schedulers never take a job out of its thread's hands. */
  lemma OutsideOpsKeepBusy(op: Op, j: Job)
    requires OutsideOp(op) && Transition(op, j).Ok? && Busy(j.state)
    ensures Busy(Transition(op, j).value.state)
  {
  }

  lemma JobsStepKeeps(w: World, jobs: map<string, Job>)
    requires Inv(w)
    requires forall id :: id in w.jobs && Busy(w.jobs[id].state) ==> id in jobs && Busy(jobs[id].state)
    ensures Inv(w.(jobs := jobs))
  {
  }

  /** What happens to a job no thread is engaged with disturbs nothing. */
  lemma UnattendedKeeps(w: World, id: string, jobs: map<string, Job>)
    requires Inv(w) && Unattended(w, id)
    requires w.jobs.Keys <= jobs.Keys && forall k :: k in w.jobs && k != id ==> jobs[k] == w.jobs[k]
    ensures Inv(w.(jobs := jobs))
  {
  }

  lemma SetReplyKeeps(w: World, a: string, r: Option<Reply>)
    requires Inv(w) && a in w.agents
    ensures Inv(SetReply(w, a, r))
  {
  }

  lemma SpawnKeeps(w: World, a: string, id: string, t: nat)
    requires Inv(w) && a in w.agents && t !in w.threads && id !in w.agents[a].runningJobs
    ensures Inv(Spawn(w, a, id, t))
  {
    var v := Spawn(w, a, id, t);
    assert Registered(v) by {
      forall b, k | b in v.agents && k in v.agents[b].runningJobs
        ensures var u := v.agents[b].runningJobs[k];
          u in v.threads && v.threads[u].jobId == k && v.threads[u].agent == b && !v.threads[u].phase.Gone?
      {
        if !(b == a && k == id) { assert k in w.agents[b].runningJobs; }
      }
    }
  }

  lemma SignalKeeps(w: World, a: string, id: string)
    requires Inv(w) && a in w.agents
    ensures Inv(Signal(w, a, id))
  {
  }

  /** A thread that leaves its engaged phase frees nothing but itself. */
  lemma DisengageKeeps(w: World, t: nat, p: Phase)
    requires Inv(w) && t in w.threads && !w.threads[t].phase.Gone? && (p.Closing? || (p.Reporting? && w.threads[t].Engaged()))
    ensures Inv(SetPhase(w, t, p))
  {
  }

  lemma StartKeeps(w: World, t: nat, now: int)
    requires Inv(w) && Enabled(w, StartAccepted(t, now))
    ensures Inv(Next(w, StartAccepted(t, now)))
  {
    var v := Next(w, StartAccepted(t, now));
    var id := w.threads[t].jobId;
    assert !Busy(w.jobs[id].state) && v.jobs[id].state.Running?;
    assert forall u :: u in w.threads && w.threads[u].Engaged() ==> w.threads[u].jobId != id;
    assert EngagedBusy(v);
    assert EngagedAlone(v);
  }

  lemma ReportKeeps(w: World, t: nat, now: int)
    requires Inv(w) && Enabled(w, Report(t, now))
    ensures Inv(Next(w, Report(t, now)))
  {
    var v := SetPhase(w, t, Closing);
    DisengageKeeps(w, t, Closing);
    assert Unattended(v, w.threads[t].jobId);
    UnattendedKeeps(v, w.threads[t].jobId, Apply(w.jobs, w.threads[t].jobId, ReportOp(w.threads[t].phase.outcome, now)));
  }

  lemma CloseKeeps(w: World, t: nat)
    requires Inv(w) && Enabled(w, Close(t))
    ensures Inv(Next(w, Close(t)))
  {
    var v := Next(w, Close(t));
    var id, a := w.threads[t].jobId, w.threads[t].agent;
    forall u | u in v.threads && !v.threads[u].phase.Gone?
      ensures var th := v.threads[u];
        th.agent in v.agents && th.jobId in v.agents[th.agent].runningJobs && v.agents[th.agent].runningJobs[th.jobId] == u
    {
      assert u != t && v.threads[u] == w.threads[u];
      assert !(w.threads[u].agent == a && w.threads[u].jobId == id);
    }
    assert EngagedAlone(v);
  }

  lemma CrashSpares(w: World, a: string, t: nat)
    requires a in w.agents && t in w.threads
    ensures var v := Crashed(w, a);
      && t in v.threads && v.threads[t].jobId == w.threads[t].jobId && v.threads[t].agent == w.threads[t].agent
      && (if w.threads[t].agent == a then v.threads[t].phase.Gone? else v.threads[t] == w.threads[t])
  {
  }

  lemma CrashRegistered(w: World, a: string)
    requires Registered(w) && a in w.agents
    ensures Registered(Crashed(w, a))
  {
    var v := Crashed(w, a);
    forall b, id | b in v.agents && id in v.agents[b].runningJobs
      ensures var t := v.agents[b].runningJobs[id];
        t in v.threads && v.threads[t].jobId == id && v.threads[t].agent == b && !v.threads[t].phase.Gone?
    {
      assert b != a && v.agents[b] == w.agents[b];
      CrashSpares(w, a, w.agents[b].runningJobs[id]);
    }
    forall t | t in v.threads && !v.threads[t].phase.Gone?
      ensures var th := v.threads[t];
        th.agent in v.agents && th.jobId in v.agents[th.agent].runningJobs && v.agents[th.agent].runningJobs[th.jobId] == t
    {
      CrashSpares(w, a, t);
    }
  }

  lemma CrashKeeps(w: World, a: string)
    requires Inv(w) && a in w.agents
    ensures Inv(Crashed(w, a))
  {
    CrashRegistered(w, a);
    forall t | t in w.threads ensures Crashed(w, a).threads[t].Engaged() ==> Crashed(w, a).threads[t] == w.threads[t] {
      CrashSpares(w, a, t);
    }
  }

  /** Recovering a job keeps the protocol's invariant exactly if no thread is
      still engaged with it. */
  lemma RecoverExactly(w: World, id: string, reason: string, now: int)
    requires Inv(w) && id in w.jobs
    ensures Inv(Recovered(w, id, reason, now)) <==> Unattended(w, id)
  {
    var v := Recovered(w, id, reason, now);
    assert !Busy(v.jobs[id].state);
    if Unattended(w, id) {
      UnattendedKeeps(w, id, v.jobs);
    } else {
      var t :| t in w.threads && w.threads[t].Engaged() && w.threads[t].jobId == id;
      assert t in v.threads && v.threads[t].Engaged();
    }
  }

  /** A thread that executes without a record of its start keeps it exactly if
      the server shows its job as running or stopping, and no other thread is
      engaged with it. */
  lemma UnrecordedExactly(w: World, t: nat)
    requires Inv(w) && InPhase(w, t, Starting)
    ensures var id := w.threads[t].jobId;
      Inv(SetPhase(w, t, Executing)) <==> Busy(w.jobs[id].state) && Unattended(w, id)
  {
    var id, v := w.threads[t].jobId, SetPhase(w, t, Executing);
    assert v.threads[t].Engaged();
    if Busy(w.jobs[id].state) && Unattended(w, id) {
      assert EngagedBusy(v);
      assert EngagedAlone(v);
      assert Registered(v);
    } else if Busy(w.jobs[id].state) {
      var u :| u in w.threads && w.threads[u].Engaged() && w.threads[u].jobId == id;
      assert u != t && u in v.threads && v.threads[u] == w.threads[u];
    }
  }

  lemma StepKeeps(w: World, s: Step)
    requires Inv(w) && Enabled(w, s)
    ensures Inv(Next(w, s))
  {
    match s {
      case NewJob(job) => JobsStepKeeps(w, w.jobs[job.id := job]);
      case ServerOp(id, op) =>
        if Busy(w.jobs[id].state) && Transition(op, w.jobs[id]).Ok? { OutsideOpsKeepBusy(op, w.jobs[id]); }
        JobsStepKeeps(w, Apply(w.jobs, id, op));
      case RecoverJob(id, reason, now) => RecoverExactly(w, id, reason, now);
      case Crash(a) => CrashKeeps(w, a);
      case ListOffers(a, offers) => SetReplyKeeps(w, a, Some(Reply(offers, [], false)));
      case ListStops(a, stops) => SetReplyKeeps(w, a, Some(w.agents[a].reply.value.(stops := stops, complete := true)));
      case TakeOffer(a, t) =>
        var r := w.agents[a].reply.value;
        var v := SetReply(w, a, Some(r.(offers := r.offers[1..])));
        SetReplyKeeps(w, a, Some(r.(offers := r.offers[1..])));
        if r.offers[0] !in w.agents[a].runningJobs { SpawnKeeps(v, a, r.offers[0], t); }
      case TakeStop(a) =>
        var r := w.agents[a].reply.value;
        SetReplyKeeps(w, a, Some(r.(stops := r.stops[1..])));
        SignalKeeps(SetReply(w, a, Some(r.(stops := r.stops[1..]))), a, r.stops[0]);
      case EndReply(a) => SetReplyKeeps(w, a, None);
      case DropReply(a) => SetReplyKeeps(w, a, None);
      case StartAccepted(t, now) => StartKeeps(w, t, now);
      case StartRefused(t) => DisengageKeeps(w, t, Closing);
      case StartUnrecorded(t) => UnrecordedExactly(w, t);
      case Finish(t, outcome) => DisengageKeeps(w, t, Reporting(outcome));
      case Report(t, now) => ReportKeeps(w, t, now);
      case ReportLost(t) => DisengageKeeps(w, t, Closing);
      case Close(t) => CloseKeeps(w, t);
    }
  }

  ghost predicate LegalRun(w: World, steps: seq<Step>)
    decreases |steps|
  {
    steps == [] || (Enabled(w, steps[0]) && LegalRun(Next(w, steps[0]), steps[1..]))
  }

  ghost function Run(w: World, steps: seq<Step>): World
    requires LegalRun(w, steps)
    decreases |steps|
  {
    if steps == [] then w else Run(Next(w, steps[0]), steps[1..])
  }

  lemma {:induction false} RunKeeps(w: World, steps: seq<Step>)
    requires Inv(w) && LegalRun(w, steps)
    ensures Inv(Run(w, steps))
    decreases |steps|
  {
    if steps != [] {
      StepKeeps(w, steps[0]);
      RunKeeps(Next(w, steps[0]), steps[1..]);
    }
  }

  /** No jobs, no threads, agents that have just registered. */
  ghost predicate Initial(w: World)
  {
    w.jobs == map[] && w.threads == map[]
    && forall a :: a in w.agents ==> w.agents[a] == Agent(map[], map[], None)
  }

  /** At most one thread in the whole system executes a given job, and none does
      while the server shows the job queued, scheduled or finished. */
  lemma OneExecutionAtATime(w: World, steps: seq<Step>, t: nat)
    requires Initial(w) && LegalRun(w, steps)
    requires t in Run(w, steps).threads && Run(w, steps).threads[t].phase.Executing?
    ensures var v := Run(w, steps); var id := v.threads[t].jobId;
      && id in v.jobs && !v.jobs[id].state.Queued? && !v.jobs[id].state.Scheduled? && !v.jobs[id].state.Terminal()
      && forall u :: u in v.threads && v.threads[u].phase.Executing? && v.threads[u].jobId == id ==> u == t
  {
    RunKeeps(w, steps);
  }

  /** An agent's table of running jobs is exact in every reachable state: one
      entry for each of its threads that has not gone, so no two of them are on
      the same job, and a stop request reaches the thread it is meant for. */
  lemma RunningJobsExact(w: World, steps: seq<Step>, a: string, id: string)
    requires Initial(w) && LegalRun(w, steps) && a in Run(w, steps).agents
    ensures var v := Run(w, steps); var agent := v.agents[a];
      && agent.cancelEvents == agent.runningJobs
      && forall t :: t in v.threads && v.threads[t].agent == a && v.threads[t].jobId == id && !v.threads[t].phase.Gone? <==>
           id in agent.runningJobs && agent.runningJobs[id] == t
  {
    RunKeeps(w, steps);
  }

  /** Threads that report having stopped were told to. */
  ghost predicate StoppedWereTold(w: World)
  {
    forall t :: t in w.threads && w.threads[t].phase == Reporting(Stopped) ==> w.threads[t].signalled
  }

  lemma StepKeepsTold(w: World, s: Step)
    requires StoppedWereTold(w) && Enabled(w, s)
    ensures StoppedWereTold(Next(w, s))
  {
  }

  lemma {:induction false} RunKeepsTold(w: World, steps: seq<Step>)
    requires StoppedWereTold(w) && LegalRun(w, steps)
    ensures StoppedWereTold(Run(w, steps))
    decreases |steps|
  {
    if steps != [] {
      StepKeepsTold(w, steps[0]);
      RunKeepsTold(Next(w, steps[0]), steps[1..]);
    }
  }

  /** In every run no thread reports a stop it was not told to make. */
  lemma NoStopUnasked(w: World, steps: seq<Step>, t: nat)
    requires Initial(w) && LegalRun(w, steps) && t in Run(w, steps).threads
    ensures Run(w, steps).threads[t].phase == Reporting(Stopped) ==> Run(w, steps).threads[t].signalled
  {
    RunKeepsTold(w, steps);
  }

  // What the messages bring about.

  /** The agent is offered what the server lists for it: the scheduled jobs
      assigned to it; and asked to stop its jobs that are to be stopped. */
  lemma OffersMean(w: World, a: string, id: string)
    ensures Offered(w, a, id) <==> id in w.jobs && w.jobs[id].state == Scheduled && a in w.jobs[id].assignedWorkerIds
    ensures StopWanted(w, a, id) <==>
      id in w.jobs && w.jobs[id].state in {CancelRequested, Preempted} && a in w.jobs[id].assignedWorkerIds
  {
  }

  /** A report does to the thread's job what the outcome calls for, and nothing
      to other jobs. */
  lemma ReportReaches(w: World, t: nat, now: int)
    requires Enabled(w, Report(t, now))
    ensures var id, outcome := w.threads[t].jobId, w.threads[t].phase.outcome;
      var j, k := w.jobs[id], Next(w, Report(t, now)).jobs[id];
      && (outcome.Completed? && j.state.Running? ==> k.state.Succeeded? && k.completedAt == Some(now))
      && (outcome.Broke? && j.state.Running? ==> AfterFailure(j, k, outcome.reason, now))
      && (outcome.Stopped? && j.state.CancelRequested? ==> k.state.Cancelled? && k.completedAt == Some(now))
      && (outcome.Stopped? && j.state.Preempted? ==> k.state.Queued? && k.currentAttempt == j.currentAttempt)
      && (!outcome.Stopped? && !j.state.Running? ==> k == j)
      && forall other :: other in w.jobs && other != id ==> Next(w, Report(t, now)).jobs[other] == w.jobs[other]
  {
  }

  /** What a thread ends with is what it reports, and what the server acts on. */
  lemma OutcomeArrives(w: World, t: nat, outcome: Outcome, now: int)
    requires Enabled(w, Finish(t, outcome))
    ensures Enabled(Next(w, Finish(t, outcome)), Report(t, now))
    ensures var id := w.threads[t].jobId;
      var j, k := w.jobs[id], Next(Next(w, Finish(t, outcome)), Report(t, now)).jobs[id];
      && (outcome.Completed? && j.state.Running? ==> k.state.Succeeded?)
      && (outcome.Broke? && j.state.Running? ==> AfterFailure(j, k, outcome.reason, now))
      && (outcome.Stopped? && j.state.CancelRequested? ==> k.state.Cancelled?)
      && (outcome.Stopped? && j.state.Preempted? ==> k.state.Queued? && k.currentAttempt == j.currentAttempt)
      && (outcome.Stopped? && j.state.Running? ==> k == j)
  {
    ReportReaches(Next(w, Finish(t, outcome)), t, now);
  }

  /** In every reachable state a stop request is put to the agent's thread on
      that job, if it has one, and to no other. */
  lemma StopReaches(w: World, a: string, t: nat)
    requires Inv(w) && Enabled(w, TakeStop(a)) && t in w.threads
    ensures var id := w.agents[a].reply.value.stops[0];
      Next(w, TakeStop(a)).threads[t] ==
        if w.threads[t].jobId == id && w.threads[t].agent == a && !w.threads[t].phase.Gone?
        then w.threads[t].(signalled := true) else w.threads[t]
  {
  }

  // A heartbeat's reply is worked off completely.

  lemma {:induction false} Unused(s: set<nat>) returns (t: nat)
    ensures forall x :: x in s ==> x < t
  {
    t := 0;
    if s != {} {
      var x :| x in s;
      var u := Unused(s - {x});
      t := if u <= x then x + 1 else u;
      assert forall y :: y in s ==> y == x || y in s - {x};
    }
  }

  /** `v` has the threads of `w`, perhaps told to stop, and their tables. */
  ghost predicate Grown(w: World, v: World, a: string)
  {
    && a in w.agents && a in v.agents && v.jobs == w.jobs
    && (forall t :: t in w.threads ==> t in v.threads && v.threads[t].(signalled := w.threads[t].signalled) == w.threads[t]
                                       && (w.threads[t].signalled ==> v.threads[t].signalled))
    && (forall id :: id in w.agents[a].runningJobs ==>
          id in v.agents[a].runningJobs && v.agents[a].runningJobs[id] == w.agents[a].runningJobs[id])
  }

  ghost predicate Told(w: World, a: string, id: string)
  {
    a in w.agents && (id in w.agents[a].runningJobs ==>
      w.agents[a].runningJobs[id] in w.threads && w.threads[w.agents[a].runningJobs[id]].signalled)
  }

  lemma TakeOfferGrows(w: World, a: string, t: nat)
    requires Inv(w) && Enabled(w, TakeOffer(a, t))
    ensures var v, r := Next(w, TakeOffer(a, t)), w.agents[a].reply.value;
      && Grown(w, v, a) && r.offers[0] in v.agents[a].runningJobs && v.agents[a].reply == Some(r.(offers := r.offers[1..]))
  {
  }

  lemma TakeStopGrows(w: World, a: string)
    requires Inv(w) && Enabled(w, TakeStop(a))
    ensures var v, r := Next(w, TakeStop(a)), w.agents[a].reply.value;
      && Grown(w, v, a) && v.agents[a].runningJobs == w.agents[a].runningJobs && Told(v, a, r.stops[0])
      && v.agents[a].reply == Some(r.(stops := r.stops[1..]))
  {
  }

  lemma GrownTrans(w: World, v: World, u: World, a: string)
    requires Grown(w, v, a) && Grown(v, u, a)
    ensures Grown(w, u, a)
  {
  }

  lemma {:induction false} OffersWorkedOff(w: World, a: string) returns (steps: seq<Step>)
    requires Inv(w) && HasReply(w, a)
    ensures LegalRun(w, steps) && Grown(w, Run(w, steps), a)
    ensures Run(w, steps).agents[a].reply == Some(w.agents[a].reply.value.(offers := []))
    ensures forall id :: id in w.agents[a].reply.value.offers ==> id in Run(w, steps).agents[a].runningJobs
    decreases |w.agents[a].reply.value.offers|
  {
    var offers := w.agents[a].reply.value.offers;
    steps := [];
    if offers != [] {
      var t := Unused(w.threads.Keys);
      assert t !in w.threads;
      var s := TakeOffer(a, t);
      var v := Next(w, s);
      StepKeeps(w, s);
      TakeOfferGrows(w, a, t);
      var rest := OffersWorkedOff(v, a);
      RunCons(w, s, rest);
      steps := [s] + rest;
      GrownTrans(w, v, Run(v, rest), a);
      assert offers == [offers[0]] + offers[1..];
    }
  }

  lemma {:induction false} StopsWorkedOff(w: World, a: string) returns (steps: seq<Step>)
    requires Inv(w) && HasReply(w, a) && w.agents[a].reply.value.offers == []
    ensures LegalRun(w, steps) && Grown(w, Run(w, steps), a) && Run(w, steps).agents[a].reply.None?
    ensures Run(w, steps).agents[a].runningJobs == w.agents[a].runningJobs
    ensures forall id :: id in w.agents[a].reply.value.stops ==> Told(Run(w, steps), a, id)
    decreases |w.agents[a].reply.value.stops|
  {
    var stops := w.agents[a].reply.value.stops;
    if stops == [] {
      RunCons(w, EndReply(a), []);
      steps := [EndReply(a)] + [];
    } else {
      var s := TakeStop(a);
      var v := Next(w, s);
      StepKeeps(w, s);
      TakeStopGrows(w, a);
      var rest := StopsWorkedOff(v, a);
      RunCons(w, s, rest);
      steps := [s] + rest;
      GrownTrans(w, v, Run(v, rest), a);
      assert stops == [stops[0]] + stops[1..];
    }
  }

  /** Nothing of a reply gets lost: when an agent has worked off what the server
      listed for it, it has a thread for every job it was offered, and every
      thread of its own on a job to stop has been told. */
  lemma HeartbeatDelivers(w: World, a: string, offers: seq<string>, stops: seq<string>) returns (steps: seq<Step>)
    requires Inv(w) && Enabled(w, ListOffers(a, offers)) && forall id :: id in stops ==> StopWanted(w, a, id)
    ensures LegalRun(w, [ListOffers(a, offers), ListStops(a, stops)] + steps)
    ensures var v := Run(w, [ListOffers(a, offers), ListStops(a, stops)] + steps);
      && Grown(w, v, a) && v.agents[a].reply.None?
      && (forall id :: id in offers ==> id in v.agents[a].runningJobs)
      && (forall id :: id in stops ==> Told(v, a, id))
  {
    var s0, s1 := ListOffers(a, offers), ListStops(a, stops);
    var w1 := Next(w, s0);
    StepKeeps(w, s0);
    var w2 := Next(w1, s1);
    StepKeeps(w1, s1);
    assert Grown(w, w2, a);
    var first := OffersWorkedOff(w2, a);
    RunKeeps(w2, first);
    var second := StopsWorkedOff(Run(w2, first), a);
    RunConcat(w2, first, second);
    steps := first + second;
    RunCons(w1, s1, steps);
    RunCons(w, s0, [s1] + steps);
    assert [s0, s1] + steps == [s0] + ([s1] + steps);
    GrownTrans(w, w2, Run(w2, first), a);
    GrownTrans(w, Run(w2, first), Run(Run(w2, first), second), a);
  }

  // Why the two conditions are there.

  lemma RunCons(w: World, s: Step, rest: seq<Step>)
    requires Enabled(w, s) && LegalRun(Next(w, s), rest)
    ensures LegalRun(w, [s] + rest) && Run(w, [s] + rest) == Run(Next(w, s), rest)
  {
    assert ([s] + rest)[1..] == rest;
  }

  /** An agent with nothing on its hands can be brought to start a queued job. */
  lemma CanOffer(w: World, id: string, a: string, t: nat) returns (steps: seq<Step>)
    requires id in w.jobs && w.jobs[id].state.Queued? && t !in w.threads
    requires a in w.agents && w.agents[a].reply.None? && id !in w.agents[a].runningJobs
    ensures LegalRun(w, steps)
    ensures var v := Run(w, steps);
      && v.threads == w.threads[t := Thread(id, a, Starting, false)]
      && v.jobs == w.jobs[id := w.jobs[id].(state := Scheduled, assignedWorkerIds := [a])]
      && v.agents.Keys == w.agents.Keys && forall b :: b in w.agents && b != a ==> v.agents[b] == w.agents[b]
  {
    var s0, s1, s2, s3 := ServerOp(id, AssignOp([a])), ListOffers(a, [id]), ListStops(a, []), TakeOffer(a, t);
    var w1 := Next(w, s0);
    var w2 := Next(w1, s1);
    var w3 := Next(w2, s2);
    RunCons(w3, s3, []);
    RunCons(w2, s2, [s3] + []);
    RunCons(w1, s1, [s2] + ([s3] + []));
    RunCons(w, s0, [s1] + ([s2] + ([s3] + [])));
    steps := [s0] + ([s1] + ([s2] + ([s3] + [])));
  }

  lemma {:induction false} RunConcat(w: World, a: seq<Step>, b: seq<Step>)
    requires LegalRun(w, a) && LegalRun(Run(w, a), b)
    ensures LegalRun(w, a + b) && Run(w, a + b) == Run(Run(w, a), b)
    decreases |a|
  {
    if a == [] {
      assert a + b == b;
    } else {
      RunConcat(Next(w, a[0]), a[1..], b);
      assert a == [a[0]] + a[1..] && a + b == [a[0]] + (a[1..] + b);
      RunCons(w, a[0], a[1..] + b);
    }
  }

  lemma CanStart(w: World, id: string, a: string, t: nat, now: int) returns (steps: seq<Step>)
    requires id in w.jobs && w.jobs[id].state.Queued? && t !in w.threads
    requires a in w.agents && w.agents[a].reply.None? && id !in w.agents[a].runningJobs
    ensures LegalRun(w, steps)
    ensures var v := Run(w, steps);
      && v.threads == w.threads[t := Thread(id, a, Executing, false)]
      && v.jobs == w.jobs[id := w.jobs[id].(state := Running, assignedWorkerIds := [a], startedAt := Some(now))]
      && v.agents.Keys == w.agents.Keys && forall b :: b in w.agents && b != a ==> v.agents[b] == w.agents[b]
  {
    var offered := CanOffer(w, id, a, t);
    var v, s := Run(w, offered), StartAccepted(t, now);
    RunCons(v, s, []);
    RunConcat(w, offered, [s] + []);
    steps := offered + ([s] + []);
  }

  /** In a run from the very start: a thread whose start report got lost
      executes a job that the server shows as scheduled, and a cancel then
      finishes the job under its hands. */
  lemma UnreportedStart(w: World, job: Job, a: string, t: nat, now: int) returns (steps: seq<Step>)
    requires Initial(w) && a in w.agents && job.state.Queued?
    ensures LegalRun(w, steps) && InPhase(Run(w, steps), t, Starting)
    ensures var v := SetPhase(Run(w, steps), t, Executing);
      && Enabled(v, ServerOp(job.id, CancelOp(now)))
      && var u := Next(v, ServerOp(job.id, CancelOp(now)));
      && u.threads[t].phase.Executing? && u.threads[t].jobId == job.id && u.jobs[job.id].state.Cancelled?
  {
    var s := NewJob(job);
    var offered := CanOffer(Next(w, s), job.id, a, t);
    RunCons(w, s, offered);
    steps := [s] + offered;
  }

  /** In a run from the very start: if a job is recovered while its thread still
      executes, a second thread can execute it elsewhere at the same time. */
  lemma LossAllowsTwo(w: World, job: Job, a: string, b: string, t: nat, u: nat, reason: string, now: int)
    returns (before: seq<Step>, after: seq<Step>)
    requires Initial(w) && a in w.agents && b in w.agents && a != b && t != u
    requires job.state.Queued? && job.currentAttempt < job.retryLimit
    ensures LegalRun(w, before) && job.id in Run(w, before).jobs
    ensures var lost := Recovered(Run(w, before), job.id, reason, now);
      && LegalRun(lost, after)
      && var v := Run(lost, after);
      && t in v.threads && u in v.threads && v.threads[t].jobId == v.threads[u].jobId == job.id
      && v.threads[t].phase.Executing? && v.threads[u].phase.Executing?
  {
    var s := NewJob(job);
    var started := CanStart(Next(w, s), job.id, a, t, now);
    RunCons(w, s, started);
    before := [s] + started;
    after := CanStart(Recovered(Run(w, before), job.id, reason, now), job.id, b, u, now);
  }

  /** What recovery is for: when an agent crashes, every job it alone was engaged
      with can be recovered, and executed again elsewhere. */
  lemma CrashThenRecover(w: World, a: string, id: string, reason: string, now: int)
    requires Inv(w) && a in w.agents && id in w.jobs
    requires forall t :: t in w.threads && w.threads[t].Engaged() && w.threads[t].jobId == id ==> w.threads[t].agent == a
    ensures Enabled(Next(w, Crash(a)), RecoverJob(id, reason, now))
    ensures Inv(Next(Next(w, Crash(a)), RecoverJob(id, reason, now)))
  {
    CrashKeeps(w, a);
    RecoverExactly(Crashed(w, a), id, reason, now);
  }
}

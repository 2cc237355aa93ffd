/** One scheduling pass as it is carried out: a snapshot, a plan, and one locked
    write per decision, with other clients acting in between. */
module Scheduler {
  import opened Records
  import opened Sorting
  import opened Planner
  import opened Preemption
  import opened Lifecycle
  import opened Trail
  import opened Repositories

  datatype PassResult = PassResult(considered: nat, placed: nat, conflicted: nat, preempted: nat)

  /** A pass in progress: the store, the decisions recorded, the conflicts
      counted, and every step taken by anyone since it began. */
  datatype Tally = Tally(sys: System, decisions: seq<Assignment>, conflicted: nat, steps: seq<Step>)

  function WriteOf(a: Assignment): Step { Apply(a.jobId, AssignOp([a.workerId])) }

  ghost predicate StillQueued(sys: System, id: string) { id in sys.jobs && sys.jobs[id].state.Queued? }

  ghost function Write(t: Tally, a: Assignment, meanwhile: seq<Step>): Tally
  {
    var sys := Run(t.sys, meanwhile);
    Tally(Next(sys, WriteOf(a)),
          if StillQueued(sys, a.jobId) then t.decisions + [a] else t.decisions,
          if StillQueued(sys, a.jobId) then t.conflicted else t.conflicted + 1,
          t.steps + meanwhile + [WriteOf(a)])
  }

  ghost function WriteAll(t: Tally, plan: seq<Assignment>, env: Interference): Tally
  {
    if plan == [] then t
    else Write(WriteAll(t, plan[..|plan| - 1], env), plan[|plan| - 1], env(|plan| - 1))
  }

  class DecisionLog {
    var decisions: seq<Assignment>

    constructor ()
      ensures decisions == []
    {
      decisions := [];
    }

    method Record(a: Assignment)
      modifies this
      ensures decisions == old(decisions) + [a]
    {
      decisions := decisions + [a];
    }
  }

  /** One planned assignment, written if the job is still queued. */
  method PlaceOne(repo: JobTable, log: DecisionLog, a: Assignment, meanwhile: seq<Step>) returns (won: bool)
    modifies repo, log
    ensures repo.View() == Next(Run(old(repo.View()), meanwhile), WriteOf(a))
    ensures won <==> StillQueued(Run(old(repo.View()), meanwhile), a.jobId)
    ensures log.decisions == old(log.decisions) + if won then [a] else []
  {
    repo.Interfere(meanwhile);
    var r := repo.Update(a.jobId, AssignOp([a.workerId]));
    won := r.Ok?;
    if won { log.Record(a); }
  }

  /** Applying the plan: each decision is won or lost, and what is won is
      recorded, in order. */
  method ApplyPlan(repo: JobTable, log: DecisionLog, plan: seq<Assignment>, env: Interference)
    returns (placed: nat, conflicted: nat)
    modifies repo, log
    ensures var t := WriteAll(Tally(old(repo.View()), [], 0, []), plan, env);
      && repo.View() == t.sys && conflicted == t.conflicted && placed == |t.decisions|
      && log.decisions == old(log.decisions) + t.decisions
  {
    placed, conflicted := 0, 0;
    ghost var start := Tally(repo.View(), [], 0, []);
    for i := 0 to |plan|
      invariant repo.View() == WriteAll(start, plan[..i], env).sys
      invariant conflicted == WriteAll(start, plan[..i], env).conflicted
      invariant placed == |WriteAll(start, plan[..i], env).decisions|
      invariant log.decisions == old(log.decisions) + WriteAll(start, plan[..i], env).decisions
    {
      assert plan[..i + 1][..i] == plan[..i];
      var won := PlaceOne(repo, log, plan[i], env(i));
      if won { placed := placed + 1; } else { conflicted := conflicted + 1; }
    }
    assert plan[..|plan|] == plan;
  }

  // The second pass, applied the same way.

  datatype StopTally = StopTally(sys: System, preempted: nat, steps: seq<Step>)

  function StopOf(s: Stop): Step { Apply(s.jobId, PreemptOp(s.reason)) }

  ghost predicate StillStoppable(sys: System, id: string) { id in sys.jobs && Stoppable(sys.jobs[id]) }

  ghost function StopOne(t: StopTally, s: Stop, meanwhile: seq<Step>): StopTally
  {
    var sys := Run(t.sys, meanwhile);
    StopTally(Next(sys, StopOf(s)),
              if StillStoppable(sys, s.jobId) then t.preempted + 1 else t.preempted,
              t.steps + meanwhile + [StopOf(s)])
  }

  ghost function StopAll(t: StopTally, stops: seq<Stop>, env: Interference, base: nat): StopTally
  {
    if stops == [] then t
    else StopOne(StopAll(t, stops[..|stops| - 1], env, base), stops[|stops| - 1], env(base + |stops| - 1))
  }

  lemma StopAllSnoc(t: StopTally, stops: seq<Stop>, i: nat, env: Interference, base: nat)
    requires i < |stops|
    ensures StopAll(t, stops[..i + 1], env, base) == StopOne(StopAll(t, stops[..i], env, base), stops[i], env(base + i))
  {
    assert stops[..i + 1][..i] == stops[..i];
    assert base + |stops[..i + 1]| - 1 == base + i;
  }

  method PreemptOne(repo: JobTable, s: Stop, meanwhile: seq<Step>) returns (won: bool)
    modifies repo
    ensures repo.View() == Next(Run(old(repo.View()), meanwhile), StopOf(s))
    ensures won <==> StillStoppable(Run(old(repo.View()), meanwhile), s.jobId)
  {
    repo.Interfere(meanwhile);
    var r := repo.Update(s.jobId, PreemptOp(s.reason));
    won := r.Ok?;
  }

  method ApplyStops(repo: JobTable, stops: seq<Stop>, env: Interference, base: nat) returns (preempted: nat)
    modifies repo
    ensures var t := StopAll(StopTally(old(repo.View()), 0, []), stops, env, base);
      repo.View() == t.sys && preempted == t.preempted
  {
    preempted := 0;
    ghost var start := StopTally(repo.View(), 0, []);
    for i := 0 to |stops|
      invariant repo.View() == StopAll(start, stops[..i], env, base).sys
      invariant preempted == StopAll(start, stops[..i], env, base).preempted
    {
      StopAllSnoc(start, stops, i, env, base);
      var won := PreemptOne(repo, stops[i], env(base + i));
      if won { preempted := preempted + 1; }
    }
    assert stops[..|stops|] == stops;
  }

  lemma {:induction false} StopsAreRun(t: StopTally, stops: seq<Stop>, env: Interference, base: nat)
    requires t.steps == []
    ensures StopAll(t, stops, env, base).sys == Run(t.sys, StopAll(t, stops, env, base).steps)
  {
    if stops != [] {
      var n := |stops| - 1;
      var u, meanwhile := StopAll(t, stops[..n], env, base), env(base + |stops| - 1);
      StopsAreRun(t, stops[..n], env, base);
      assert StopAll(t, stops, env, base) == StopOne(u, stops[n], meanwhile);
      RunConcat(t.sys, u.steps, meanwhile);
      RunSnoc(t.sys, u.steps + meanwhile, StopOf(stops[n]));
    }
  }

  // A whole pass.

  method CountQueued(snapshot: seq<Job>) returns (considered: nat)
    ensures considered == |Filter(snapshot, IsQueued)|
  {
    considered := 0;
    for i := 0 to |snapshot|
      invariant considered == |Filter(snapshot[..i], IsQueued)|
    {
      FilterSnoc(snapshot, i, IsQueued);
      if snapshot[i].state.Queued? { considered := considered + 1; }
    }
    assert snapshot[..|snapshot|] == snapshot;
  }

  lemma StoredUnderId(sys: System)
    requires SysInv(sys)
    ensures Keyed(sys.jobs)
  {
    forall id | id in sys.jobs ensures sys.jobs[id].id == id { ReachedJob(sys, id); }
  }

  /** The end of a pass: the preemptions planned on the same snapshot, if enabled. */
  ghost function Finish(sys: System, snapshot: seq<Job>, workers: seq<Worker>, plan: seq<Assignment>, now: int,
                        preemption: bool, env: Interference): StopTally
  {
    var t := StopTally(sys, 0, []);
    if preemption then StopAll(t, PreemptionPass(snapshot, workers, plan, now).stops, env, |plan|) else t
  }

  /** Whatever the others do, the result is a run of job operations, so all that
      holds of every run holds after it; every planned assignment is counted as
      placed or conflicted; exactly those placed are added to the decisions; and the
      preemptions come last, planned on the pass's own snapshot. */
  method RunOnce(repo: JobTable, log: DecisionLog, workers: seq<Worker>, now: int, preemption: bool, env: Interference)
    returns (result: PassResult, ghost snapshot: seq<Job>, ghost steps: seq<Step>)
    requires SysInv(repo.View())
    modifies repo, log
    ensures repo.View() == Run(old(repo.View()), steps) && SysInv(repo.View())
    ensures Lists(snapshot, old(repo.rows), IsActive) && result.considered == |Filter(snapshot, IsQueued)|
    ensures var plan := Planned(snapshot, workers, now).assignments;
      var t := WriteAll(Tally(old(repo.View()), [], 0, []), plan, env);
      && result.placed + result.conflicted == |plan|
      && result.placed == |t.decisions| && log.decisions == old(log.decisions) + t.decisions
      && (!preemption ==> repo.View() == t.sys && result.preempted == 0)
      && (preemption ==>
            var stops := PreemptionPass(snapshot, workers, plan, now).stops;
            var u := StopAll(StopTally(t.sys, 0, []), stops, env, |plan|);
            repo.View() == u.sys && result.preempted == u.preempted)
      && repo.View() == Finish(t.sys, snapshot, workers, plan, now, preemption, env).sys
  {
    ghost var start := Tally(repo.View(), [], 0, []);
    StoredUnderId(repo.View());
    var active := repo.ListActive();
    snapshot := active;
    var considered := CountQueued(active);
    var assignments := Plan(active, workers, now);
    var placed, conflicted := ApplyPlan(repo, log, assignments, env);
    ghost var t := WriteAll(start, assignments, env);
    EveryWriteTallied(start, assignments, env);
    TallyIsRun(start, assignments, env);
    steps := t.steps;
    var preempted := 0;
    if preemption {
      var stops := PlanPreemptions(active, workers, assignments, now);
      ghost var u := StopAll(StopTally(t.sys, 0, []), stops, env, |assignments|);
      StopsAreRun(StopTally(t.sys, 0, []), stops, env, |assignments|);
      RunConcat(start.sys, t.steps, u.steps);
      preempted := ApplyStops(repo, stops, env, |assignments|);
      steps := t.steps + u.steps;
    }
    RunKeeps(start.sys, steps);
    result := PassResult(considered, placed, conflicted, preempted);
  }

  /** No planned assignment goes uncounted. */
  lemma {:induction false} EveryWriteTallied(t: Tally, plan: seq<Assignment>, env: Interference)
    ensures var u := WriteAll(t, plan, env);
      |u.decisions| + u.conflicted == |t.decisions| + t.conflicted + |plan|
  {
    if plan != [] { EveryWriteTallied(t, plan[..|plan| - 1], env); }
  }

  lemma {:induction false} TallyIsRun(t: Tally, plan: seq<Assignment>, env: Interference)
    requires t.steps == []
    ensures WriteAll(t, plan, env).sys == Run(t.sys, WriteAll(t, plan, env).steps)
  {
    if plan != [] {
      var n := |plan| - 1;
      var u := WriteAll(t, plan[..n], env);
      TallyIsRun(t, plan[..n], env);
      RunConcat(t.sys, u.steps, env(n));
      RunSnoc(t.sys, u.steps + env(n), WriteOf(plan[n]));
    }
  }

  /** A write takes a job that is still queued to its worker, and otherwise does
      nothing. */
  lemma WriteOutcome(sys: System, a: Assignment)
    ensures Next(sys, WriteOf(a)) ==
      if a.jobId in sys.jobs && sys.jobs[a.jobId].state == Queued
      then Store(sys, a.jobId, sys.jobs[a.jobId].(state := Scheduled, assignedWorkerIds := [a.workerId]))
      else sys
  {
  }

  /** A stop asks a job to stop, with its reason, if it is still running, and
      otherwise does nothing. */
  lemma StopOutcome(sys: System, s: Stop)
    ensures Next(sys, StopOf(s)) ==
      if s.jobId in sys.jobs && sys.jobs[s.jobId].state == Running && sys.jobs[s.jobId].preemptible
      then Store(sys, s.jobId, sys.jobs[s.jobId].(state := Preempted, failureReason := s.reason))
      else sys
  {
  }

  /** A decision is recorded exactly when its own write took the job from QUEUED
      to SCHEDULED, as the audit trail shows. */
  lemma DecisionMatchesTrail(t: Tally, a: Assignment, meanwhile: seq<Step>)
    ensures var sys, u := Run(t.sys, meanwhile), Write(t, a, meanwhile);
      Assignments(u.sys.trail, a.jobId) - Assignments(sys.trail, a.jobId) == |u.decisions| - |t.decisions|
  {
    var sys := Run(t.sys, meanwhile);
    WriteOutcome(sys, a);
    if StillQueued(sys, a.jobId) {
      CountsAppend(sys.trail, StateChanged(a.jobId, Queued, Scheduled), a.jobId);
    }
  }

  /** Two writes of the same decision, by whichever schedulers: the second
      always loses until the job is queued again. */
  lemma SecondWriteLoses(sys: System, a: Assignment, b: Assignment)
    requires SysInv(sys) && a.jobId == b.jobId
    ensures Next(Next(sys, WriteOf(a)), WriteOf(b)) == Next(sys, WriteOf(a))
  {
  }
}

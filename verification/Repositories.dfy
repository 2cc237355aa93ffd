/** Where jobs are kept: in memory with a submission index, or in a table with
    an audit trail; and the service operations that work on many jobs at once. */
module Repositories {
  import opened Records
  import opened Sorting
  import opened Lifecycle
  import opened Trail
  import TextOrder

  // Oldest first, by ID among jobs of the same age.

  datatype Key = Key(createdAt: int, id: string)

  function KeyOf(j: Job): Key { Key(j.createdAt, j.id) }

  predicate Before(a: Key, b: Key)
  {
    a.createdAt < b.createdAt || (a.createdAt == b.createdAt && TextOrder.Less(a.id, b.id))
  }

  lemma BeforeIrreflexive(a: Key)
    ensures !Before(a, a)
  {
    TextOrder.LessIrreflexive(a.id);
  }

  lemma BeforeTransitive(a: Key, b: Key, c: Key)
    requires Before(a, b) && Before(b, c)
    ensures Before(a, c)
  {
    if a.createdAt == b.createdAt == c.createdAt { TextOrder.LessTransitive(a.id, b.id, c.id); }
  }

  lemma BeforeTotal(a: Key, b: Key)
    requires a != b
    ensures Before(a, b) || Before(b, a)
  {
    if a.createdAt == b.createdAt { TextOrder.LessTotal(a.id, b.id); }
  }

  // Listings.

  /** `out` holds each stored job that satisfies `keep` once. */
  ghost predicate Lists(out: seq<Job>, jobs: map<string, Job>, keep: Job -> bool)
  {
    && DistinctBy(out, JobId)
    && forall j :: j in out <==> j.id in jobs && jobs[j.id] == j && keep(j)
  }

  ghost predicate Keyed(jobs: map<string, Job>) { forall id :: id in jobs ==> jobs[id].id == id }

  /** Collecting from the store, in whatever order it yields its entries. */
  method Collect(jobs: map<string, Job>, keep: Job -> bool) returns (out: seq<Job>)
    requires Keyed(jobs)
    ensures Lists(out, jobs, keep)
  {
    out := [];
    var rest := jobs.Keys;
    while rest != {}
      invariant rest <= jobs.Keys && DistinctBy(out, JobId)
      invariant forall j :: j in out <==> j.id in jobs && j.id !in rest && jobs[j.id] == j && keep(j)
      decreases rest
    {
      var id :| id in rest;
      rest := rest - {id};
      if keep(jobs[id]) { out := out + [jobs[id]]; }
    }
  }

  lemma ListsSorted(out: seq<Job>, jobs: map<string, Job>, keep: Job -> bool, less: (Job, Job) -> bool)
    requires Lists(out, jobs, keep)
    ensures Lists(Sort(out, less), jobs, keep)
  {
    RearrangedDistinct(out, Sort(out, less), JobId);
    SameElements(Sort(out, less), out);
  }

  /** Two listings of the same store are rearrangements of each other. */
  lemma {:induction false} ListingsAgree(a: seq<Job>, b: seq<Job>, jobs: map<string, Job>, keep: Job -> bool)
    requires Lists(a, jobs, keep) && Lists(b, jobs, keep)
    ensures multiset(a) == multiset(b)
  {
    forall j: Job ensures multiset(a)[j] == multiset(b)[j] {
      if j in a {
        assert j in b;
        var i :| 0 <= i < |a| && a[i] == j;
        var k :| 0 <= k < |b| && b[k] == j;
        CountsOnce(a, i, JobId);
        CountsOnce(b, k, JobId);
      } else {
        assert j !in b;
      }
    }
  }

  // In memory.

  /** The index names, for each submission ID in use, the one job that has it. */
  ghost predicate IndexAgrees(jobs: map<string, Job>, index: map<string, string>)
  {
    && (forall sub :: sub in index ==> sub != "" && index[sub] in jobs && jobs[index[sub]].submissionId == sub)
    && (forall id :: id in jobs && jobs[id].submissionId != "" ==>
          jobs[id].submissionId in index && index[jobs[id].submissionId] == id)
  }

  lemma OneJobPerSubmission(jobs: map<string, Job>, index: map<string, string>, a: string, b: string)
    requires IndexAgrees(jobs, index) && a in jobs && b in jobs
    requires jobs[a].submissionId == jobs[b].submissionId != ""
    ensures a == b
  {
  }

  class MemoryRepository {
    var jobsById: map<string, Job>
    var idBySubmission: map<string, string>

    ghost predicate Valid()
      reads this
    {
      Keyed(jobsById) && IndexAgrees(jobsById, idBySubmission)
    }

    constructor ()
      ensures Valid() && jobsById == map[] && idBySubmission == map[]
    {
      jobsById, idBySubmission := map[], map[];
    }

    /** Idempotent on the submission ID: a repeat returns the job already there
        and stores nothing. Job IDs are generated, so none is reused; a reused one
        would break the index exactly if its job carried a submission ID. */
    method Create(job: Job) returns (result: Job, created: bool)
      requires Valid()
      modifies this
      ensures Valid() <==>
        (created && job.id in old(jobsById) ==> old(jobsById)[job.id].submissionId == "")
      ensures created <==> !HasSubmission(old(jobsById), job.submissionId)
      ensures created ==> result == job && jobsById == old(jobsById)[job.id := job]
      ensures !created ==> jobsById == old(jobsById) && idBySubmission == old(idBySubmission)
      ensures !created ==> result.id in jobsById && jobsById[result.id] == result && result.submissionId == job.submissionId
    {
      if job.submissionId != "" && job.submissionId in idBySubmission {
        return jobsById[idBySubmission[job.submissionId]], false;
      }
      ghost var sub := if job.id in jobsById then jobsById[job.id].submissionId else "";
      assert sub != "" ==> sub in idBySubmission && idBySubmission[sub] == job.id && sub != job.submissionId;
      jobsById := jobsById[job.id := job];
      if job.submissionId != "" { idBySubmission := idBySubmission[job.submissionId := job.id]; }
      assert sub != "" ==> sub in idBySubmission && jobsById[idBySubmission[sub]].submissionId != sub;
      return job, true;
    }

    method Update(id: string, op: Op) returns (r: Result<Job>)
      requires Valid()
      modifies this`jobsById
      ensures Valid()
      ensures r == if id in old(jobsById) then Transition(op, old(jobsById)[id]) else Err(NotFound)
      ensures jobsById == if r.Ok? then old(jobsById)[id := r.value] else old(jobsById)
    {
      if id !in jobsById { return Err(NotFound); }
      r := Transition(op, jobsById[id]);
      if r.Ok? {
        OpKeepsIdentity(op, jobsById[id]);
        jobsById := jobsById[id := r.value];
      }
    }
  }

  // In a table.

  /** Highest priority first, then the oldest. */
  function ActiveOrder(): (Job, Job) -> bool
  {
    (a: Job, b: Job) =>
      if a.priority != b.priority then a.priority > b.priority else Before(KeyOf(a), KeyOf(b))
  }

  lemma ActiveIsOrder(js: seq<Job>)
    requires DistinctBy(js, JobId)
    ensures StrictOrderOn(ActiveOrder(), js)
  {
    forall a | a in js ensures !ActiveOrder()(a, a) { BeforeIrreflexive(KeyOf(a)); }
    forall a, b, c | a in js && b in js && c in js && ActiveOrder()(a, b) && ActiveOrder()(b, c)
      ensures ActiveOrder()(a, c)
    {
      if a.priority == b.priority == c.priority { BeforeTransitive(KeyOf(a), KeyOf(b), KeyOf(c)); }
    }
    forall a, b | a in js && b in js && a != b ensures ActiveOrder()(a, b) || ActiveOrder()(b, a) {
      assert JobId(a) != JobId(b);
      BeforeTotal(KeyOf(a), KeyOf(b));
    }
  }

  /** By priority, then age, then ID. */
  ghost predicate MostUrgentFirst(js: seq<Job>)
  {
    forall i, k :: 0 <= i < k < |js| ==>
      && js[i].priority >= js[k].priority
      && (js[i].priority == js[k].priority ==> js[i].createdAt <= js[k].createdAt)
      && (js[i].priority == js[k].priority && js[i].createdAt == js[k].createdAt ==> TextOrder.Less(js[i].id, js[k].id))
  }

  lemma SortedMostUrgentFirst(js: seq<Job>)
    requires DistinctBy(js, JobId) && Sorted(js, ActiveOrder())
    ensures MostUrgentFirst(js)
  {
    forall i, k | 0 <= i < k < |js| ensures ActiveOrder()(js[i], js[k]) {
      assert JobId(js[i]) != JobId(js[k]) && !ActiveOrder()(js[k], js[i]);
      BeforeTotal(KeyOf(js[i]), KeyOf(js[k]));
    }
  }

  class JobTable {
    var rows: map<string, Job>
    var events: seq<Event>

    ghost function View(): System
      reads this
    {
      System(rows, events)
    }

    constructor ()
      ensures View() == EMPTY
    {
      rows, events := map[], [];
    }

    /** Submission: validation, insertion unless the submission ID is taken, and
        the event row in the same transaction. */
    method Submit(id: string, input: SubmitInput, now: int) returns (r: Result<Job>)
      modifies this
      ensures View() == Next(old(View()), Trail.Submit(id, input, now))
      ensures !Acceptable(input) ==> r == Err(ValidationFailed) && View() == old(View())
      ensures Acceptable(input) && id !in old(rows) && !HasSubmission(old(rows), input.submissionId) ==>
        rows == old(rows)[id := NewJob(id, input, now)] && events == old(events) + [Submitted(id, Queued)]
      ensures Acceptable(input) && HasSubmission(old(rows), input.submissionId) ==>
        r.Ok? && r.value.submissionId == input.submissionId && exists k :: k in rows && rows[k] == r.value
      ensures View() != old(View()) ==> r == Ok(rows[id]) && rows[id] == NewJob(id, input, now)
      ensures OneJobEach(old(rows)) ==> OneJobEach(rows)
      ensures OneJobEach(old(rows)) && r.Ok? && input.submissionId != "" ==>
        forall k :: k in rows && rows[k].submissionId == input.submissionId ==> rows[k] == r.value
    {
      if !Acceptable(input) { return Err(ValidationFailed); }
      var same := set k | k in rows && rows[k].submissionId == input.submissionId;
      assert HasSubmission(rows, input.submissionId) ==> same != {} by {
        if HasSubmission(rows, input.submissionId) {
          var k :| k in rows && rows[k].submissionId == input.submissionId;
          assert k in same;
        }
      }
      if input.submissionId != "" && same != {} {
        var k :| k in same;
        return Ok(rows[k]);
      }
      if id in rows { return Err(InvalidState); }
      var job := NewJob(id, input, now);
      rows := rows[id := job];
      events := events + [Submitted(id, job.state)];
      return Ok(job);
    }

    /** One locked read-modify-write, with its event if the state changed. */
    method Update(id: string, op: Op) returns (r: Result<Job>)
      modifies this
      ensures View() == Next(old(View()), Apply(id, op))
      ensures r == if id in old(rows) then Transition(op, old(rows)[id]) else Err(NotFound)
      ensures rows == if r.Ok? then old(rows)[id := r.value] else old(rows)
    {
      if id !in rows { return Err(NotFound); }
      var current := rows[id];
      r := Transition(op, current);
      if r.Err? { return; }
      rows := rows[id := r.value];
      if current.state != r.value.state {
        events := events + [StateChanged(id, current.state, r.value.state)];
      }
    }

    method ListActive() returns (active: seq<Job>)
      requires Keyed(rows)
      ensures Lists(active, rows, IsActive)
      ensures forall j :: j in active <==> j.id in rows && rows[j.id] == j && j.state !in {Succeeded, Failed, Cancelled}
      ensures MostUrgentFirst(active)
    {
      var found := Collect(rows, IsActive);
      ActiveIsOrder(found);
      SortSorted(found, ActiveOrder());
      RearrangedDistinct(found, Sort(found, ActiveOrder()), JobId);
      SortedMostUrgentFirst(Sort(found, ActiveOrder()));
      ListsSorted(found, rows, IsActive, ActiveOrder());
      return Sort(found, ActiveOrder());
    }

    /** What other clients do meanwhile. */
    method Interfere(steps: seq<Step>)
      modifies this
      ensures View() == Run(old(View()), steps)
    {
      for i := 0 to |steps|
        invariant View() == Run(old(View()), steps[..i])
      {
        assert steps[..i + 1][..i] == steps[..i];
        match steps[i] {
          case Submit(id, input, now) => var r := this.Submit(id, input, now);
          case Apply(id, op) => var r := Update(id, op);
        }
      }
      assert steps[..|steps|] == steps;
    }
  }

  // Operations over all active jobs.

  predicate Waiting(j: Job, workerId: string) { j.state.Scheduled? && workerId in j.assignedWorkerIds }

  predicate Stopping(j: Job, workerId: string)
  {
    (j.state.CancelRequested? || j.state.Preempted?) && workerId in j.assignedWorkerIds
  }

  /** The jobs a worker agent should start: exactly the scheduled ones assigned
      to it, each once. */
  method ListAssignedToWorker(repo: JobTable, workerId: string) returns (found: seq<Job>)
    requires Keyed(repo.rows)
    ensures DistinctBy(found, JobId)
    ensures forall j :: j in found <==>
      j.id in repo.rows && repo.rows[j.id] == j && j.state == Scheduled && workerId in j.assignedWorkerIds
  {
    var active := repo.ListActive();
    found := Select(active, (j: Job) => Waiting(j, workerId));
  }

  method ListStoppableForWorker(repo: JobTable, workerId: string) returns (found: seq<Job>)
    requires Keyed(repo.rows)
    ensures DistinctBy(found, JobId)
    ensures forall j :: j in found <==>
      j.id in repo.rows && repo.rows[j.id] == j && j.state in {CancelRequested, Preempted} && workerId in j.assignedWorkerIds
  {
    var active := repo.ListActive();
    found := Select(active, (j: Job) => Stopping(j, workerId));
  }

  method Select(active: seq<Job>, keep: Job -> bool) returns (found: seq<Job>)
    requires DistinctBy(active, JobId)
    ensures DistinctBy(found, JobId) && forall j :: j in found <==> j in active && keep(j)
  {
    found := [];
    for i := 0 to |active|
      invariant found == Filter(active[..i], keep)
    {
      FilterSnoc(active, i, keep);
      if keep(active[i]) { found := found + [active[i]]; }
    }
    assert active[..|active|] == active;
    FilterDistinct(active, keep, JobId);
    FilterElements(active, keep);
  }

  // The worker-loss sweep.

  predicate InFlightOn(j: Job, workerId: string)
  {
    && (j.state.Scheduled? || j.state.Running? || j.state.CancelRequested? || j.state.Preempted?)
    && workerId in j.assignedWorkerIds
  }

  function LossReason(workerId: string): string { "worker " + workerId + " was lost" }

  function Recovered(j: Job, workerId: string, now: int): Job
  {
    if InFlightOn(j, workerId) then Recover(j, LossReason(workerId), now).value else j
  }

  /** The jobs that are assigned to the worker and not yet done with. */
  ghost function Affected(jobs: map<string, Job>, workerId: string): set<string>
  {
    set id | id in jobs && workerId in jobs[id].assignedWorkerIds
             && jobs[id].state in {Scheduled, Running, CancelRequested, Preempted}
  }

  /** The store after a sweep that nothing interrupts. */
  ghost predicate SweptFrom(before: map<string, Job>, after: map<string, Job>, workerId: string, now: int)
  {
    && after.Keys == before.Keys
    && forall id :: id in before ==>
         if id in Affected(before, workerId)
         then Ok(after[id]) == Recover(before[id], "worker " + workerId + " was lost", now)
         else after[id] == before[id]
  }

  ghost function DoneIds(active: seq<Job>, i: nat, workerId: string): set<string>
    requires i <= |active|
  {
    set k | 0 <= k < i && InFlightOn(active[k], workerId) :: active[k].id
  }

  /** Half-way through: the first `i` active jobs are dealt with. */
  ghost predicate Sweeping(start: map<string, Job>, rows: map<string, Job>, active: seq<Job>, i: nat, workerId: string, now: int)
    requires i <= |active|
  {
    && rows.Keys == start.Keys
    && forall id :: id in start ==>
         rows[id] == if id in DoneIds(active, i, workerId) then Recovered(start[id], workerId, now) else start[id]
  }

  lemma DoneIdsNext(active: seq<Job>, i: nat, workerId: string)
    requires i < |active| && DistinctBy(active, JobId)
    ensures var added := if InFlightOn(active[i], workerId) then {active[i].id} else {};
      DoneIds(active, i + 1, workerId) == DoneIds(active, i, workerId) + added && active[i].id !in DoneIds(active, i, workerId)
  {
    forall k | 0 <= k < i ensures active[k].id != active[i].id { assert JobId(active[k]) != JobId(active[i]); }
  }

  lemma SweepStep(start: map<string, Job>, rows: map<string, Job>, active: seq<Job>, i: nat, workerId: string, now: int)
    requires i < |active| && Lists(active, start, IsActive) && Sweeping(start, rows, active, i, workerId, now)
    ensures active[i].id in rows && rows[active[i].id] == active[i]
    ensures var after := if InFlightOn(active[i], workerId)
                         then rows[active[i].id := Recovered(active[i], workerId, now)] else rows;
      Sweeping(start, after, active, i + 1, workerId, now)
  {
    assert active[i] in active;
    DoneIdsNext(active, i, workerId);
  }

  lemma AllDone(start: map<string, Job>, active: seq<Job>, workerId: string)
    requires Keyed(start) && Lists(active, start, IsActive)
    ensures DoneIds(active, |active|, workerId) == Affected(start, workerId)
  {
    forall id | id in Affected(start, workerId) ensures id in DoneIds(active, |active|, workerId) {
      assert start[id] in active;
      var k :| 0 <= k < |active| && active[k] == start[id];
    }
    forall id | id in DoneIds(active, |active|, workerId) ensures id in Affected(start, workerId) {
      var k :| 0 <= k < |active| && InFlightOn(active[k], workerId) && active[k].id == id;
      assert active[k] in active;
    }
  }

  // The sweep among other clients.

  /** What other clients do before each write. */
  type Interference = nat -> seq<Step>

  function SweepWrite(id: string, workerId: string, now: int): Step { Apply(id, RecoverOp(LossReason(workerId), now)) }

  /** Everyone's steps from the snapshot until the first `|active|` jobs of it
      are dealt with. */
  ghost function SweepSteps(active: seq<Job>, env: Interference, workerId: string, now: int): seq<Step>
  {
    if active == [] then []
    else
      var n := |active| - 1;
      SweepSteps(active[..n], env, workerId, now)
      + if InFlightOn(active[n], workerId) then env(n) + [SweepWrite(active[n].id, workerId, now)] else []
  }

  lemma SweepStepsNext(sys: System, active: seq<Job>, i: nat, env: Interference, workerId: string, now: int)
    requires i < |active|
    ensures var s := Run(sys, SweepSteps(active[..i], env, workerId, now));
      Run(sys, SweepSteps(active[..i + 1], env, workerId, now)) ==
        if InFlightOn(active[i], workerId) then Next(Run(s, env(i)), SweepWrite(active[i].id, workerId, now)) else s
  {
    var before, write := SweepSteps(active[..i], env, workerId, now), SweepWrite(active[i].id, workerId, now);
    assert active[..i + 1][..i] == active[..i] && active[..i + 1][i] == active[i];
    if InFlightOn(active[i], workerId) {
      assert SweepSteps(active[..i + 1], env, workerId, now) == before + (env(i) + [write]);
      assert before + (env(i) + [write]) == (before + env(i)) + [write];
      RunConcat(sys, before, env(i));
      RunSnoc(sys, before + env(i), write);
    } else {
      assert SweepSteps(active[..i + 1], env, workerId, now) == before;
    }
  }

  lemma {:induction false} RunKeepsIds(sys: System, steps: seq<Step>)
    ensures sys.jobs.Keys <= Run(sys, steps).jobs.Keys
  {
    if steps != [] {
      RunKeepsIds(sys, steps[..|steps| - 1]);
      StepKeepsIds(Run(sys, steps[..|steps| - 1]), steps[|steps| - 1]);
    }
  }

  lemma WriteRecovers(sys: System, j: Job, workerId: string, now: int)
    requires j.id in sys.jobs && sys.jobs[j.id] == j && InFlightOn(j, workerId)
    ensures Next(sys, SweepWrite(j.id, workerId, now)).jobs == sys.jobs[j.id := Recovered(j, workerId, now)]
  {
  }

  lemma {:induction false} UndisturbedSweep(sys: System, active: seq<Job>, i: nat, env: Interference, workerId: string, now: int)
    requires Lists(active, sys.jobs, IsActive) && i <= |active| && forall k :: 0 <= k < i ==> env(k) == []
    ensures Sweeping(sys.jobs, Run(sys, SweepSteps(active[..i], env, workerId, now)).jobs, active, i, workerId, now)
  {
    if i > 0 {
      UndisturbedSweep(sys, active, i - 1, env, workerId, now);
      var s := Run(sys, SweepSteps(active[..i - 1], env, workerId, now));
      SweepStep(sys.jobs, s.jobs, active, i - 1, workerId, now);
      SweepStepsNext(sys, active, i - 1, env, workerId, now);
      if InFlightOn(active[i - 1], workerId) {
        assert Run(s, env(i - 1)) == s;
        WriteRecovers(s, active[i - 1], workerId, now);
      }
    }
  }

  lemma UndisturbedEnd(sys: System, active: seq<Job>, env: Interference, workerId: string, now: int)
    requires Keyed(sys.jobs) && Lists(active, sys.jobs, IsActive) && forall k :: env(k) == []
    ensures SweptFrom(sys.jobs, Run(sys, SweepSteps(active, env, workerId, now)).jobs, workerId, now)
  {
    assert active[..|active|] == active;
    UndisturbedSweep(sys, active, |active|, env, workerId, now);
    AllDone(sys.jobs, active, workerId);
  }

  lemma StillThere(sys: System, active: seq<Job>, i: nat, env: Interference, workerId: string, now: int)
    requires Lists(active, sys.jobs, IsActive) && i < |active|
    ensures active[i].id in Run(Run(sys, SweepSteps(active[..i], env, workerId, now)), env(i)).jobs
  {
    var before := SweepSteps(active[..i], env, workerId, now);
    RunKeepsIds(sys, before);
    RunKeepsIds(Run(sys, before), env(i));
    assert active[i] in active;
  }

  method SweepOne(repo: JobTable, id: string, workerId: string, now: int, meanwhile: seq<Step>)
    requires id in Run(repo.View(), meanwhile).jobs
    modifies repo
    ensures repo.View() == Next(Run(old(repo.View()), meanwhile), SweepWrite(id, workerId, now))
  {
    repo.Interfere(meanwhile);
    var r := repo.Update(id, RecoverOp(LossReason(workerId), now));
    assert r.Ok?;
  }

  /** The sweep writes once for each job that was in flight on the lost worker
      when it took its snapshot, and counts those writes, whatever others do
      before each of them. If they do nothing, it gives each such job the record
      a failure or a confirmed stop would have given it and changes nothing else. */
  method LoseWorker(repo: JobTable, workerId: string, now: int, env: Interference)
    returns (recovered: nat, ghost active: seq<Job>)
    requires Keyed(repo.rows)
    modifies repo
    ensures Lists(active, old(repo.rows), IsActive)
    ensures repo.View() == Run(old(repo.View()), SweepSteps(active, env, workerId, now))
    ensures recovered == |Affected(old(repo.rows), workerId)|
    ensures (forall k :: env(k) == []) ==> SweptFrom(old(repo.rows), repo.rows, workerId, now)
  {
    var jobs := repo.ListActive();
    active := jobs;
    ghost var start := repo.View();
    recovered := 0;
    for i := 0 to |jobs|
      invariant repo.View() == Run(start, SweepSteps(jobs[..i], env, workerId, now))
      invariant recovered == |DoneIds(jobs, i, workerId)|
    {
      SweepStepsNext(start, jobs, i, env, workerId, now);
      DoneIdsNext(jobs, i, workerId);
      if !InFlightOn(jobs[i], workerId) { continue; }
      StillThere(start, jobs, i, env, workerId, now);
      SweepOne(repo, jobs[i].id, workerId, now, env(i));
      recovered := recovered + 1;
    }
    assert jobs[..|jobs|] == jobs;
    AllDone(start.jobs, jobs, workerId);
    if forall k :: env(k) == [] { UndisturbedEnd(start, jobs, env, workerId, now); }
  }

  /** Nothing of the lost worker's is left in flight. */
  lemma SweepLeavesNone(before: map<string, Job>, after: map<string, Job>, workerId: string, now: int)
    requires SweptFrom(before, after, workerId, now)
    ensures Affected(after, workerId) == {}
    ensures forall id :: id in after && workerId in after[id].assignedWorkerIds ==>
      after[id].state !in {Scheduled, Running, CancelRequested, Preempted}
  {
    forall id | id in after && workerId in after[id].assignedWorkerIds
      ensures after[id].state !in {Scheduled, Running, CancelRequested, Preempted}
    {
      RecoverLaw(before[id], "worker " + workerId + " was lost", now);
    }
  }

  /** Swept jobs get what the reports they stand in for would have produced. */
  lemma SweepStandsIn(j: Job, workerId: string, now: int)
    requires InFlightOn(j, workerId)
    ensures var k := Recovered(j, workerId, now);
      && (j.state.Running? ==> Ok(k) == Fail(j, "worker " + workerId + " was lost", now))
      && (j.state.Scheduled? ==> AfterFailure(j, k, "worker " + workerId + " was lost", now))
      && (j.state.CancelRequested? || j.state.Preempted? ==> Ok(k) == ReportStopped(j, now))
      && SameIdentity(j, k)
  {
  }

  /** The job is in flight, and not on that worker. */
  ghost predicate ElsewhereNow(sys: System, id: string, workerId: string)
  {
    && id in sys.jobs && workerId !in sys.jobs[id].assignedWorkerIds
    && (sys.jobs[id].state.Scheduled? || sys.jobs[id].state.Running?
        || sys.jobs[id].state.CancelRequested? || sys.jobs[id].state.Preempted?)
  }

  /** The recheck under the lock looks at the state and not at the assignment:
      the write spares every job that is in flight elsewhere exactly if its own
      job is not one of them by now. */
  lemma SweepWriteExactly(sys: System, id: string, workerId: string, now: int)
    ensures !ElsewhereNow(sys, id, workerId) <==>
      forall k :: ElsewhereNow(sys, k, workerId) ==> Next(sys, SweepWrite(id, workerId, now)).jobs[k] == sys.jobs[k]
  {
    if ElsewhereNow(sys, id, workerId) {
      assert Next(sys, SweepWrite(id, workerId, now)).jobs[id].state != sys.jobs[id].state;
    }
  }

  /** Assigns the job, and not to that worker. */
  predicate Reassigns(step: Step, id: string, workerId: string)
  {
    step.Apply? && step.id == id && step.op.AssignOp? && workerId !in step.op.workerIds
  }

  /** Out of flight, or on that worker. No operation leads to CHECKPOINTING. */
  ghost predicate NotElsewhere(sys: System, id: string, workerId: string)
  {
    id in sys.jobs && !sys.jobs[id].state.Checkpointing? && !ElsewhereNow(sys, id, workerId)
  }

  lemma StepMovesByAssignment(sys: System, step: Step, id: string, workerId: string)
    requires NotElsewhere(sys, id, workerId) && !Reassigns(step, id, workerId)
    ensures NotElsewhere(Next(sys, step), id, workerId)
  {
  }

  lemma {:induction false} OnlyAssignmentMoves(sys: System, steps: seq<Step>, id: string, workerId: string)
    requires NotElsewhere(sys, id, workerId)
    requires forall s :: s in steps ==> !Reassigns(s, id, workerId)
    ensures NotElsewhere(Run(sys, steps), id, workerId)
  {
    if steps != [] {
      var n := |steps| - 1;
      assert steps == steps[..n] + [steps[n]];
      OnlyAssignmentMoves(sys, steps[..n], id, workerId);
      StepMovesByAssignment(Run(sys, steps[..n]), steps[n], id, workerId);
    }
  }

  lemma {:induction false} SweepReassignsNothing(active: seq<Job>, env: Interference, id: string, workerId: string, now: int)
    requires forall k, s :: 0 <= k < |active| && s in env(k) ==> !Reassigns(s, id, workerId)
    ensures forall s :: s in SweepSteps(active, env, workerId, now) ==> !Reassigns(s, id, workerId)
  {
    if active != [] { SweepReassignsNothing(active[..|active| - 1], env, id, workerId, now); }
  }

  /** As long as nobody assigns a swept job elsewhere before it is written, the
      write finds it on the lost worker or out of flight. */
  lemma SweepTouchesItsOwn(sys: System, active: seq<Job>, i: nat, env: Interference, workerId: string, now: int)
    requires Lists(active, sys.jobs, IsActive) && i < |active| && InFlightOn(active[i], workerId)
    requires forall k, s :: 0 <= k <= i && s in env(k) ==> !Reassigns(s, active[i].id, workerId)
    ensures !ElsewhereNow(Run(Run(sys, SweepSteps(active[..i], env, workerId, now)), env(i)), active[i].id, workerId)
  {
    var id, before := active[i].id, SweepSteps(active[..i], env, workerId, now);
    assert active[i] in active;
    SweepReassignsNothing(active[..i], env, id, workerId, now);
    OnlyAssignmentMoves(sys, before, id, workerId);
    OnlyAssignmentMoves(Run(sys, before), env(i), id, workerId);
  }

  /** Otherwise it can take a job from the worker that has it now: its own worker
      reports a failure after the snapshot, a scheduler assigns it elsewhere, and
      the write then fails or requeues it there. */
  lemma SweepIgnoresReassignment(sys: System, active: seq<Job>, i: nat, env: Interference, workerId: string, other: string, now: int)
    requires Lists(active, sys.jobs, IsActive) && i < |active| && InFlightOn(active[i], workerId) && other != workerId
    requires active[i].state.Running? && active[i].currentAttempt < active[i].retryLimit
    requires forall k :: 0 <= k < i ==> env(k) == []
    requires env(i) == [Apply(active[i].id, FailOp("", now)), Apply(active[i].id, AssignOp([other]))]
    ensures var s := Run(Run(sys, SweepSteps(active[..i], env, workerId, now)), env(i));
      var v := Run(sys, SweepSteps(active[..i + 1], env, workerId, now));
      var id := active[i].id;
      && id in s.jobs && s.jobs[id].state.Scheduled? && s.jobs[id].assignedWorkerIds == [other]
      && id in v.jobs && (v.jobs[id].state.Queued? || v.jobs[id].state.Failed?)
      && s.jobs[id].currentAttempt == active[i].currentAttempt + 1
      && (v.jobs[id].state.Queued? ==> v.jobs[id].currentAttempt == active[i].currentAttempt + 2)
  {
    var id, s0 := active[i].id, Run(sys, SweepSteps(active[..i], env, workerId, now));
    StillAsListed(sys, active, i, env, workerId, now);
    FailedAndReassigned(s0, id, env(i), other, now);
    SweepStepsNext(sys, active, i, env, workerId, now);
    SweepsScheduled(Run(s0, env(i)), id, workerId, now);
  }

  lemma StillAsListed(sys: System, active: seq<Job>, i: nat, env: Interference, workerId: string, now: int)
    requires Lists(active, sys.jobs, IsActive) && i < |active| && forall k :: 0 <= k < i ==> env(k) == []
    ensures var s := Run(sys, SweepSteps(active[..i], env, workerId, now));
      active[i].id in s.jobs && s.jobs[active[i].id] == active[i]
  {
    UndisturbedSweep(sys, active, i, env, workerId, now);
    SweepStep(sys.jobs, Run(sys, SweepSteps(active[..i], env, workerId, now)).jobs, active, i, workerId, now);
  }

  lemma SweepsScheduled(sys: System, id: string, workerId: string, now: int)
    requires id in sys.jobs && sys.jobs[id].state.Scheduled?
    ensures var v := Next(sys, SweepWrite(id, workerId, now));
      && id in v.jobs && (v.jobs[id].state.Queued? || v.jobs[id].state.Failed?)
      && (v.jobs[id].state.Queued? ==> v.jobs[id].currentAttempt == sys.jobs[id].currentAttempt + 1)
  {
  }

  lemma FailedAndReassigned(sys: System, id: string, steps: seq<Step>, other: string, now: int)
    requires id in sys.jobs && sys.jobs[id].state.Running? && sys.jobs[id].currentAttempt < sys.jobs[id].retryLimit
    requires steps == [Apply(id, FailOp("", now)), Apply(id, AssignOp([other]))]
    ensures var s := Run(sys, steps);
      && id in s.jobs && s.jobs[id].state.Scheduled? && s.jobs[id].assignedWorkerIds == [other]
      && s.jobs[id].currentAttempt == sys.jobs[id].currentAttempt + 1
  {
    assert steps[..1] == [steps[0]] && steps[..1][..0] == [];
    assert Run(sys, steps[..1]) == Next(sys, steps[0]);
    assert Run(sys, steps) == Next(Next(sys, steps[0]), steps[1]);
  }
}

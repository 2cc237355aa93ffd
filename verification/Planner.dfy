/** The first scheduling pass: queued jobs in order of aged priority, each
    placed on the best-fitting worker with what is left of its capacity. */
module Planner {
  import opened Records
  import opened Options
  import opened Sorting
  import opened Capacity
  import opened Fairness
  import TextOrder

  const PLACED_REASON: string := "eligible worker found"

  datatype Assignment = Assignment(jobId: string, workerId: string, reason: string)

  datatype Candidate = Candidate(workerId: string, surplus: int)

  datatype Progress = Progress(assignments: seq<Assignment>, ledger: Ledger)

  function Aged(j: Job, now: int): int { EffectivePriority(j.priority, j.createdAt, now) }

  // Order of consideration.

  predicate Precedes(a: Job, b: Job, now: int)
  {
    if Aged(a, now) != Aged(b, now) then Aged(a, now) > Aged(b, now)
    else if a.createdAt != b.createdAt then a.createdAt < b.createdAt
    else TextOrder.Less(a.id, b.id)
  }

  function ByPriority(now: int): (Job, Job) -> bool { (a: Job, b: Job) => Precedes(a, b, now) }

  lemma PriorityIsOrder(js: seq<Job>, now: int)
    requires DistinctBy(js, JobId)
    ensures StrictOrderOn(ByPriority(now), js)
  {
    forall a | a in js ensures !Precedes(a, a, now) { TextOrder.LessIrreflexive(a.id); }
    forall a, b, c | a in js && b in js && c in js && Precedes(a, b, now) && Precedes(b, c, now)
      ensures Precedes(a, c, now)
    {
      if TextOrder.Less(a.id, b.id) && TextOrder.Less(b.id, c.id) {
        TextOrder.LessTransitive(a.id, b.id, c.id);
      }
    }
    forall a, b | a in js && b in js && a != b ensures Precedes(a, b, now) || Precedes(b, a, now) {
      assert JobId(a) != JobId(b);
      TextOrder.LessTotal(a.id, b.id);
    }
  }

  /** By aged priority, then age, then ID. */
  ghost predicate HighestFirst(q: seq<Job>, now: int)
  {
    forall i, k :: 0 <= i < k < |q| ==>
      var a := EffectivePriority(q[i].priority, q[i].createdAt, now);
      var b := EffectivePriority(q[k].priority, q[k].createdAt, now);
      && a >= b
      && (a == b ==> q[i].createdAt <= q[k].createdAt)
      && (a == b && q[i].createdAt == q[k].createdAt ==> TextOrder.Less(q[i].id, q[k].id))
  }

  lemma SortedHighestFirst(q: seq<Job>, now: int)
    requires DistinctBy(q, JobId) && Sorted(q, ByPriority(now))
    ensures HighestFirst(q, now)
  {
    PriorityIsOrder(q, now);
    forall i, k | 0 <= i < k < |q| ensures Precedes(q[i], q[k], now) {
      assert JobId(q[i]) != JobId(q[k]) && q[i] in q && q[k] in q;
      assert !ByPriority(now)(q[k], q[i]);
    }
  }

  /** The queued jobs, in the order they are considered. */
  function Queue(js: seq<Job>, now: int): (q: seq<Job>)
    ensures forall j :: j in q <==> j in js && j.state.Queued?
  {
    var queued := Filter(js, IsQueued);
    FilterElements(js, IsQueued);
    SameElements(Sort(queued, ByPriority(now)), queued);
    Sort(queued, ByPriority(now))
  }

  lemma QueueOrdered(js: seq<Job>, now: int)
    requires DistinctBy(js, JobId)
    ensures DistinctBy(Queue(js, now), JobId)
    ensures Sorted(Queue(js, now), ByPriority(now))
    ensures StrictOrderOn(ByPriority(now), Queue(js, now))
    ensures HighestFirst(Queue(js, now), now)
  {
    var queued := Filter(js, IsQueued);
    FilterDistinct(js, IsQueued, JobId);
    PriorityIsOrder(queued, now);
    SortSorted(queued, ByPriority(now));
    RearrangedDistinct(queued, Queue(js, now), JobId);
    PriorityIsOrder(Queue(js, now), now);
    SortedHighestFirst(Queue(js, now), now);
  }

  // Eligibility and best fit.

  predicate Fits(r: Resources, w: Worker, l: Load)
  {
    && w.status.Active?
    && w.cpuCapacity - l.cpu >= r.cpuCores
    && w.memoryCapacityBytes - l.memory >= r.memoryBytes
    && FreeGpus(w, r.minGpuMemoryBytes, l.gpus) >= r.gpuCount
  }

  /** An active worker fits a request exactly if request and load together are
      within its CPU and memory, and, if devices are asked for, load and request
      together are within its devices that meet the bar. */
  lemma FitsMeans(r: Resources, w: Worker, l: Load)
    ensures Fits(r, w, l) <==>
      && w.status == Active
      && l.cpu + r.cpuCores <= w.cpuCapacity
      && l.memory + r.memoryBytes <= w.memoryCapacityBytes
      && (r.gpuCount <= 0 || l.gpus + r.gpuCount <= |AbleDevices(w.gpus, r.minGpuMemoryBytes)|)
  {
    QualifyingCounts(w.gpus, r.minGpuMemoryBytes);
  }

  function Offer(r: Resources, w: Worker, l: Load): Candidate
  {
    Candidate(w.id, FreeGpus(w, r.minGpuMemoryBytes, l.gpus) - r.gpuCount)
  }

  function Candidates(r: Resources, ws: seq<Worker>, ledger: Ledger): seq<Candidate>
  {
    if ws == [] then []
    else
      var w := ws[|ws| - 1];
      var cs := Candidates(r, ws[..|ws| - 1], ledger);
      if Fits(r, w, At(ledger, w.id)) then cs + [Offer(r, w, At(ledger, w.id))] else cs
  }

  lemma {:induction false} CandidatesAreOffers(r: Resources, ws: seq<Worker>, ledger: Ledger)
    ensures forall c :: c in Candidates(r, ws, ledger) <==>
      exists w :: w in ws && Fits(r, w, At(ledger, w.id)) && c == Offer(r, w, At(ledger, w.id))
  {
    if ws != [] {
      assert ws == ws[..|ws| - 1] + [ws[|ws| - 1]];
      CandidatesAreOffers(r, ws[..|ws| - 1], ledger);
    }
  }

  predicate Tighter(a: Candidate, b: Candidate)
  {
    if a.surplus != b.surplus then a.surplus < b.surplus else TextOrder.Less(a.workerId, b.workerId)
  }

  lemma TighterIsOrder(cs: seq<Candidate>)
    ensures StrictOrderOn(Tighter, cs)
  {
    forall a | a in cs ensures !Tighter(a, a) { TextOrder.LessIrreflexive(a.workerId); }
    forall a, b, c | a in cs && b in cs && c in cs && Tighter(a, b) && Tighter(b, c) ensures Tighter(a, c) {
      if a.surplus == b.surplus == c.surplus { TextOrder.LessTransitive(a.workerId, b.workerId, c.workerId); }
    }
    forall a, b | a in cs && b in cs && a != b ensures Tighter(a, b) || Tighter(b, a) {
      if a.surplus == b.surplus { TextOrder.LessTotal(a.workerId, b.workerId); }
    }
  }

  function Select(r: Resources, ws: seq<Worker>, ledger: Ledger): Option<string>
  {
    var cs := Candidates(r, ws, ledger);
    if cs == [] then None else Some(Sort(cs, Tighter)[0].workerId)
  }

  /** `id` names an eligible worker, and no eligible worker would be left with
      fewer qualifying devices, nor with as few and a smaller ID. */
  ghost predicate BestFit(r: Resources, ws: seq<Worker>, ledger: Ledger, id: string)
  {
    exists w ::
      && w in ws && w.id == id && Fits(r, w, At(ledger, w.id))
      && forall v :: v in ws && Fits(r, v, At(ledger, v.id)) ==> NoTighter(r, v, w, ledger)
  }

  /** `v` would not be left with fewer qualifying devices than `w`, nor with as
      few and a smaller ID. */
  ghost predicate NoTighter(r: Resources, v: Worker, w: Worker, ledger: Ledger)
  {
    var a := FreeGpus(w, r.minGpuMemoryBytes, At(ledger, w.id).gpus);
    var b := FreeGpus(v, r.minGpuMemoryBytes, At(ledger, v.id).gpus);
    a <= b && (a == b ==> !TextOrder.Less(v.id, w.id))
  }

  lemma OneBestFit(r: Resources, ws: seq<Worker>, ledger: Ledger, a: string, b: string)
    requires BestFit(r, ws, ledger, a) && BestFit(r, ws, ledger, b)
    ensures a == b
  {
    var u :| && u in ws && u.id == a && Fits(r, u, At(ledger, u.id))
             && forall v :: v in ws && Fits(r, v, At(ledger, v.id)) ==> NoTighter(r, v, u, ledger);
    var w :| && w in ws && w.id == b && Fits(r, w, At(ledger, w.id))
             && forall v :: v in ws && Fits(r, v, At(ledger, v.id)) ==> NoTighter(r, v, w, ledger);
    assert NoTighter(r, w, u, ledger) && NoTighter(r, u, w, ledger);
    if a != b { TextOrder.LessTotal(a, b); }
  }

  lemma SelectBestFit(r: Resources, ws: seq<Worker>, ledger: Ledger)
    ensures Select(r, ws, ledger).None? <==> forall w :: w in ws ==> !Fits(r, w, At(ledger, w.id))
    ensures forall id :: Select(r, ws, ledger) == Some(id) <==> BestFit(r, ws, ledger, id)
  {
    var cs := Candidates(r, ws, ledger);
    CandidatesAreOffers(r, ws, ledger);
    assert forall w :: w in ws && Fits(r, w, At(ledger, w.id)) ==> Offer(r, w, At(ledger, w.id)) in cs;
    if cs != [] {
      var best := Sort(cs, Tighter)[0];
      TighterIsOrder(cs);
      SortSorted(cs, Tighter);
      SameElements(Sort(cs, Tighter), cs);
      assert best in Sort(cs, Tighter);
      var w :| w in ws && Fits(r, w, At(ledger, w.id)) && best == Offer(r, w, At(ledger, w.id));
      forall v | v in ws && Fits(r, v, At(ledger, v.id))
        ensures NoTighter(r, v, w, ledger)
      {
        assert Offer(r, v, At(ledger, v.id)) in cs;
        assert !Tighter(Offer(r, v, At(ledger, v.id)), best);
      }
      assert BestFit(r, ws, ledger, best.workerId);
      forall id | BestFit(r, ws, ledger, id) ensures id == best.workerId { OneBestFit(r, ws, ledger, id, best.workerId); }
    }
  }

  /** Worker selection depends on which workers there are, not on their order. */
  lemma SelectCanonical(r: Resources, ws: seq<Worker>, vs: seq<Worker>, ledger: Ledger)
    requires forall w :: w in ws <==> w in vs
    ensures Select(r, ws, ledger) == Select(r, vs, ledger)
  {
    SelectBestFit(r, ws, ledger);
    SelectBestFit(r, vs, ledger);
    match Select(r, ws, ledger)
    case None =>
    case Some(id) =>
      assert BestFit(r, ws, ledger, id);
      assert BestFit(r, vs, ledger, id);
  }

  method SelectWorker(job: Job, activeWorkers: seq<Worker>, committed: Ledger) returns (workerId: string, ok: bool)
    ensures Select(job.resources, activeWorkers, committed) == if ok then Some(workerId) else None
    ensures ok ==> BestFit(job.resources, activeWorkers, committed, workerId)
    ensures !ok ==> workerId == "" && forall w :: w in activeWorkers ==> !Fits(job.resources, w, At(committed, w.id))
  {
    var candidates := [];
    for i := 0 to |activeWorkers|
      invariant candidates == Candidates(job.resources, activeWorkers[..i], committed)
    {
      var w := activeWorkers[i];
      assert activeWorkers[..i + 1][..i] == activeWorkers[..i];
      if !w.status.Active? { continue; }
      var c := At(committed, w.id);
      var freeCpu := w.cpuCapacity - c.cpu;
      var freeMemory := w.memoryCapacityBytes - c.memory;
      var freeGpus := FreeGpuCount(w, job.resources.minGpuMemoryBytes, c.gpus);
      if freeCpu < job.resources.cpuCores { continue; }
      if freeMemory < job.resources.memoryBytes { continue; }
      if freeGpus < job.resources.gpuCount { continue; }
      candidates := candidates + [Candidate(w.id, freeGpus - job.resources.gpuCount)];
    }
    assert activeWorkers[..|activeWorkers|] == activeWorkers;
    SelectBestFit(job.resources, activeWorkers, committed);
    if |candidates| == 0 { return "", false; }
    candidates := Sort(candidates, Tighter);
    return candidates[0].workerId, true;
  }

  // The pass.

  function Place(p: Progress, j: Job, ws: seq<Worker>): Progress
  {
    match Select(j.resources, ws, p.ledger)
    case None => p
    case Some(id) =>
      Progress(p.assignments + [Assignment(j.id, id, PLACED_REASON)], Charge(p.ledger, id, j.resources))
  }

  function PlaceAll(queue: seq<Job>, ws: seq<Worker>, start: Ledger): Progress
  {
    if queue == [] then Progress([], start)
    else Place(PlaceAll(queue[..|queue| - 1], ws, start), queue[|queue| - 1], ws)
  }

  lemma PlaceAllSnoc(queue: seq<Job>, i: nat, ws: seq<Worker>, start: Ledger)
    requires i < |queue|
    ensures PlaceAll(queue[..i + 1], ws, start) == Place(PlaceAll(queue[..i], ws, start), queue[i], ws)
  {
    assert queue[..i + 1][..i] == queue[..i];
  }

  /** What the pass does on a snapshot. */
  function Planned(js: seq<Job>, ws: seq<Worker>, now: int): Progress
  {
    PlaceAll(Queue(js, now), ws, Committed(js))
  }

  method Plan(activeJobs: seq<Job>, activeWorkers: seq<Worker>, now: int) returns (assignments: seq<Assignment>)
    ensures assignments == Planned(activeJobs, activeWorkers, now).assignments
  {
    var committed := CommittedByWorker(activeJobs);
    var queued := [];
    for i := 0 to |activeJobs|
      invariant queued == Filter(activeJobs[..i], IsQueued)
    {
      FilterSnoc(activeJobs, i, IsQueued);
      if activeJobs[i].state.Queued? { queued := queued + [activeJobs[i]]; }
    }
    assert activeJobs[..|activeJobs|] == activeJobs;
    queued := Sort(queued, ByPriority(now));

    assignments := [];
    ghost var start := committed;
    for i := 0 to |queued|
      invariant Progress(assignments, committed) == PlaceAll(queued[..i], activeWorkers, start)
    {
      PlaceAllSnoc(queued, i, activeWorkers, start);
      var workerId, ok := SelectWorker(queued[i], activeWorkers, committed);
      if !ok { continue; }
      assignments := assignments + [Assignment(queued[i].id, workerId, PLACED_REASON)];
      committed := Charge(committed, workerId, queued[i].resources);
    }
    assert queued[..|queued|] == queued;
  }
}

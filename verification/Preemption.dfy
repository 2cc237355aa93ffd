/** The second scheduling pass: which running, preemptible jobs to stop so that
    queued jobs the first pass could not place would fit. */
module Preemption {
  import opened Records
  import opened Options
  import opened Sorting
  import opened Capacity
  import opened Planner
  import TextOrder

  datatype Stop = Stop(jobId: string, workerId: string, reason: string)

  datatype Pass = Pass(ledger: Ledger, preempted: set<string>, stops: seq<Stop>)

  datatype Haul = Haul(victims: seq<Job>, freed: Load)

  function StopReason(jobId: string): string
  {
    "preempted to free resources for higher-priority job " + jobId
  }

  // The accounting after the first pass, rebuilt from its assignments.

  function Find(js: seq<Job>, id: string): Option<Job>
  {
    if js == [] then None
    else if js[0].id == id then Some(js[0])
    else Find(js[1..], id)
  }

  method JobById(js: seq<Job>, id: string) returns (found: Option<Job>)
    ensures found == Find(js, id)
    ensures found.None? <==> forall j :: j in js ==> j.id != id
    ensures found.Some? ==> found.value in js && found.value.id == id
  {
    for i := 0 to |js|
      invariant Find(js, id) == Find(js[i..], id)
      invariant forall k :: 0 <= k < i ==> js[k].id != id
    {
      assert js[i..][0] == js[i] && js[i..][1..] == js[i + 1..];
      if js[i].id == id { return Some(js[i]); }
    }
    return None;
  }

  function Rebuild(js: seq<Job>, l: Ledger, a: Assignment): Ledger
  {
    match Find(js, a.jobId)
    case None => l
    case Some(j) => Charge(l, a.workerId, j.resources)
  }

  function Rebuilt(js: seq<Job>, placed: seq<Assignment>): Ledger
  {
    if placed == [] then Committed(js)
    else Rebuild(js, Rebuilt(js, placed[..|placed| - 1]), placed[|placed| - 1])
  }

  function PlacedIds(placed: seq<Assignment>): set<string>
  {
    set a | a in placed :: a.jobId
  }

  function Unplaced(placed: set<string>): Job -> bool
  {
    (j: Job) => j.state.Queued? && j.id !in placed
  }

  function Pending(js: seq<Job>, placed: seq<Assignment>, now: int): seq<Job>
  {
    Sort(Filter(js, Unplaced(PlacedIds(placed))), ByPriority(now))
  }

  // Who may be stopped.

  predicate Stoppable(j: Job) { j.state.Running? && j.preemptible }

  function Copies(j: Job, ids: seq<string>, workerId: string): seq<Job>
  {
    if ids == [] then []
    else Copies(j, ids[..|ids| - 1], workerId) + if ids[|ids| - 1] == workerId then [j] else []
  }

  /** The stoppable jobs assigned to a worker. */
  function Pool(js: seq<Job>, workerId: string): seq<Job>
  {
    if js == [] then []
    else
      Pool(js[..|js| - 1], workerId)
      + if Stoppable(js[|js| - 1]) then Copies(js[|js| - 1], js[|js| - 1].assignedWorkerIds, workerId) else []
  }

  type Pools = map<string, seq<Job>>

  function PoolAt(pools: Pools, workerId: string): seq<Job>
  {
    if workerId in pools then pools[workerId] else []
  }

  function Deal(pools: Pools, j: Job, ids: seq<string>): Pools
  {
    if ids == [] then pools
    else
      var dealt, id := Deal(pools, j, ids[..|ids| - 1]), ids[|ids| - 1];
      dealt[id := PoolAt(dealt, id) + [j]]
  }

  function AllPools(js: seq<Job>): Pools
  {
    if js == [] then map[]
    else
      var pools, j := AllPools(js[..|js| - 1]), js[|js| - 1];
      if Stoppable(j) then Deal(pools, j, j.assignedWorkerIds) else pools
  }

  lemma {:induction false} DealAt(pools: Pools, j: Job, ids: seq<string>, w: string)
    ensures PoolAt(Deal(pools, j, ids), w) == PoolAt(pools, w) + Copies(j, ids, w)
  {
    if ids != [] {
      var n := |ids| - 1;
      DealAt(pools, j, ids[..n], w);
      assert PoolAt(pools, w) + Copies(j, ids, w)
          == (PoolAt(pools, w) + Copies(j, ids[..n], w)) + if ids[n] == w then [j] else [];
    }
  }

  lemma {:induction false} AllPoolsAt(js: seq<Job>, w: string)
    ensures PoolAt(AllPools(js), w) == Pool(js, w)
  {
    if js != [] {
      var n := |js| - 1;
      AllPoolsAt(js[..n], w);
      DealAt(AllPools(js[..n]), js[n], js[n].assignedWorkerIds, w);
    }
  }

  method RunningPreemptibleByWorker(js: seq<Job>) returns (out: Pools)
    ensures out == AllPools(js)
    ensures forall w :: PoolAt(out, w) == Pool(js, w)
  {
    out := map[];
    for i := 0 to |js|
      invariant out == AllPools(js[..i])
    {
      var j := js[i];
      assert js[..i + 1][..i] == js[..i];
      if !Stoppable(j) { continue; }
      var ids, before := j.assignedWorkerIds, out;
      for k := 0 to |ids|
        invariant out == Deal(before, j, ids[..k])
      {
        assert ids[..k + 1][..k] == ids[..k];
        out := out[ids[k] := PoolAt(out, ids[k]) + [j]];
      }
      assert ids[..|ids|] == ids;
    }
    assert js[..|js|] == js;
    forall w ensures PoolAt(out, w) == Pool(js, w) { AllPoolsAt(js, w); }
  }

  predicate Weaker(a: Job, b: Job, now: int)
  {
    if Aged(a, now) != Aged(b, now) then Aged(a, now) < Aged(b, now) else TextOrder.Less(a.id, b.id)
  }

  function ByWeakness(now: int): (Job, Job) -> bool { (a: Job, b: Job) => Weaker(a, b, now) }

  /** The candidates on a worker, weakest first. */
  function Ranked(js: seq<Job>, workerId: string, now: int): seq<Job>
  {
    Sort(Pool(js, workerId), ByWeakness(now))
  }

  // Choosing victims on one worker.

  function Free(r: Resources, w: Worker, l: Load): Load
  {
    Load(FreeGpus(w, r.minGpuMemoryBytes, l.gpus), w.cpuCapacity - l.cpu, w.memoryCapacityBytes - l.memory)
  }

  predicate Enough(r: Resources, free: Load, freed: Load)
  {
    && free.cpu + freed.cpu >= r.cpuCores
    && free.memory + freed.memory >= r.memoryBytes
    && free.gpus + freed.gpus >= r.gpuCount
  }

  function Take(h: Haul, j: Job): Haul
  {
    Haul(h.victims + [j], Plus(h.freed, Demand(j.resources)))
  }

  /** The scan: skip what is stopped already, give up at the first candidate
      that is not weaker, stop as soon as enough is freed. */
  function Scan(cands: seq<Job>, preempted: set<string>, bar: int, now: int, r: Resources, free: Load, h: Haul): Haul
  {
    if cands == [] then h
    else if cands[0].id in preempted then Scan(cands[1..], preempted, bar, now, r, free, h)
    else if Aged(cands[0], now) >= bar then h
    else
      var g := Take(h, cands[0]);
      if Enough(r, free, g.freed) then g else Scan(cands[1..], preempted, bar, now, r, free, g)
  }

  const NO_HAUL := Haul([], NOTHING)

  method ScanVictims(cands: seq<Job>, preempted: set<string>, bar: int, now: int, r: Resources, free: Load)
    returns (toPreempt: seq<Job>, freed: Load)
    ensures Haul(toPreempt, freed) == Scan(cands, preempted, bar, now, r, free, NO_HAUL)
  {
    toPreempt, freed := [], NOTHING;
    for i := 0 to |cands|
      invariant Scan(cands, preempted, bar, now, r, free, NO_HAUL)
             == Scan(cands[i..], preempted, bar, now, r, free, Haul(toPreempt, freed))
    {
      var cand := cands[i];
      assert cands[i..][0] == cand && cands[i..][1..] == cands[i + 1..];
      if cand.id in preempted { continue; }
      if Aged(cand, now) >= bar { return; }
      toPreempt := toPreempt + [cand];
      freed := Plus(freed, Demand(cand.resources));
      if Enough(r, free, freed) { return; }
    }
  }

  // One pending job over the workers, and the pass.

  function Stops(victims: seq<Job>, workerId: string, reason: string): seq<Stop>
  {
    if victims == [] then []
    else Stops(victims[..|victims| - 1], workerId, reason) + [Stop(victims[|victims| - 1].id, workerId, reason)]
  }

  function Ids(js: seq<Job>): set<string> { set j | j in js :: j.id }

  function Emit(p: Pass, job: Job, w: Worker, h: Haul): Pass
  {
    Pass(p.ledger[w.id := Minus(At(p.ledger, w.id), h.freed)],
         p.preempted + Ids(h.victims),
         p.stops + Stops(h.victims, w.id, StopReason(job.id)))
  }

  function ScanFor(job: Job, w: Worker, js: seq<Job>, now: int, p: Pass): Haul
  {
    Scan(Ranked(js, w.id, now), p.preempted, Aged(job, now), now,
         job.resources, Free(job.resources, w, At(p.ledger, w.id)), NO_HAUL)
  }

  method EmitStops(victims: seq<Job>, workerId: string, reason: string, stops0: seq<Stop>, preempted0: set<string>)
    returns (stops: seq<Stop>, preempted: set<string>)
    ensures stops == stops0 + Stops(victims, workerId, reason)
    ensures preempted == preempted0 + Ids(victims)
  {
    stops, preempted := stops0, preempted0;
    for i := 0 to |victims|
      invariant stops == stops0 + Stops(victims[..i], workerId, reason)
      invariant preempted == preempted0 + Ids(victims[..i])
    {
      assert victims[..i + 1][..i] == victims[..i];
      assert forall j :: j in victims[..i + 1] <==> j in victims[..i] || j == victims[i];
      stops := stops + [Stop(victims[i].id, workerId, reason)];
      preempted := preempted + {victims[i].id};
    }
    assert victims[..|victims|] == victims;
  }

  /** What one worker offers a pending job: nothing (look further), room
      already, or room once its weakest candidates are stopped. */
  function TryWorker(job: Job, w: Worker, js: seq<Job>, now: int, p: Pass): Option<Pass>
  {
    if !w.status.Active? then None
    else if Fits(job.resources, w, At(p.ledger, w.id)) then Some(p)
    else
      var h := ScanFor(job, w, js, now, p);
      if Enough(job.resources, Free(job.resources, w, At(p.ledger, w.id)), h.freed)
      then Some(Emit(p, job, w, h)) else None
  }

  function TryWorkers(job: Job, ws: seq<Worker>, js: seq<Job>, now: int, p: Pass): Pass
  {
    if ws == [] then p
    else match TryWorker(job, ws[0], js, now, p)
      case Some(q) => q
      case None => TryWorkers(job, ws[1..], js, now, p)
  }

  function PassOver(queue: seq<Job>, ws: seq<Worker>, js: seq<Job>, now: int, start: Ledger): Pass
  {
    if queue == [] then Pass(start, {}, [])
    else TryWorkers(queue[|queue| - 1], ws, js, now, PassOver(queue[..|queue| - 1], ws, js, now, start))
  }

  function PreemptionPass(js: seq<Job>, ws: seq<Worker>, placed: seq<Assignment>, now: int): Pass
  {
    PassOver(Pending(js, placed, now), ws, js, now, Rebuilt(js, placed))
  }

  /** The body of the loop over the workers. */
  method VisitWorker(job: Job, w: Worker, pools: Pools, now: int, p: Pass, ghost js: seq<Job>)
    returns (settled: Option<Pass>)
    requires pools == AllPools(js)
    ensures settled == TryWorker(job, w, js, now, p)
  {
    if !w.status.Active? { return None; }
    var r, c := job.resources, At(p.ledger, w.id);
    var freeGpus := FreeGpuCount(w, r.minGpuMemoryBytes, c.gpus);
    var free := Load(freeGpus, w.cpuCapacity - c.cpu, w.memoryCapacityBytes - c.memory);
    if free.cpu >= r.cpuCores && free.memory >= r.memoryBytes && free.gpus >= r.gpuCount {
      return Some(p);
    }
    assert free == Free(r, w, c) && !Fits(r, w, c);
    AllPoolsAt(js, w.id);
    var candidates := Sort(PoolAt(pools, w.id), ByWeakness(now));
    var toPreempt, freed := ScanVictims(candidates, p.preempted, Aged(job, now), now, r, free);
    assert Haul(toPreempt, freed) == ScanFor(job, w, js, now, p);
    if !Enough(r, free, freed) { return None; }
    var stops, preempted := EmitStops(toPreempt, w.id, StopReason(job.id), p.stops, p.preempted);
    var q := Pass(p.ledger[w.id := Minus(c, freed)], preempted, stops);
    assert q == Emit(p, job, w, ScanFor(job, w, js, now, p));
    return Some(q);
  }

  /** The loop over the workers, for one pending job. */
  method TryEachWorker(job: Job, activeWorkers: seq<Worker>, pools: Pools, now: int, p: Pass, ghost js: seq<Job>)
    returns (q: Pass)
    requires pools == AllPools(js)
    ensures q == TryWorkers(job, activeWorkers, js, now, p)
  {
    for i := 0 to |activeWorkers|
      invariant TryWorkers(job, activeWorkers, js, now, p) == TryWorkers(job, activeWorkers[i..], js, now, p)
    {
      assert activeWorkers[i..][0] == activeWorkers[i] && activeWorkers[i..][1..] == activeWorkers[i + 1..];
      var settled := VisitWorker(job, activeWorkers[i], pools, now, p, js);
      if settled.Some? { return settled.value; }
    }
    return p;
  }

  /** The capacity the first pass left, and the jobs it placed. */
  method AfterPlacement(activeJobs: seq<Job>, placed: seq<Assignment>)
    returns (committed: Ledger, placedIds: set<string>)
    ensures committed == Rebuilt(activeJobs, placed)
    ensures placedIds == PlacedIds(placed)
  {
    committed := CommittedByWorker(activeJobs);
    placedIds := {};
    for i := 0 to |placed|
      invariant committed == Rebuilt(activeJobs, placed[..i])
      invariant placedIds == PlacedIds(placed[..i])
    {
      var a := placed[i];
      assert placed[..i + 1][..i] == placed[..i];
      assert forall b :: b in placed[..i + 1] <==> b in placed[..i] || b == a;
      placedIds := placedIds + {a.jobId};
      var found := JobById(activeJobs, a.jobId);
      if found.None? { continue; }
      committed := Charge(committed, a.workerId, found.value.resources);
    }
    assert placed[..|placed|] == placed;
  }

  method PlanPreemptions(activeJobs: seq<Job>, activeWorkers: seq<Worker>, placed: seq<Assignment>, now: int)
    returns (preemptions: seq<Stop>)
    ensures preemptions == PreemptionPass(activeJobs, activeWorkers, placed, now).stops
  {
    var committed, placedIds := AfterPlacement(activeJobs, placed);
    var queued := [];
    for i := 0 to |activeJobs|
      invariant queued == Filter(activeJobs[..i], Unplaced(placedIds))
    {
      FilterSnoc(activeJobs, i, Unplaced(placedIds));
      if activeJobs[i].state.Queued? && activeJobs[i].id !in placedIds { queued := queued + [activeJobs[i]]; }
    }
    assert activeJobs[..|activeJobs|] == activeJobs;
    queued := Sort(queued, ByPriority(now));

    var pools := RunningPreemptibleByWorker(activeJobs);
    var pass := Pass(committed, {}, []);
    for i := 0 to |queued|
      invariant pass == PassOver(queued[..i], activeWorkers, activeJobs, now, committed)
    {
      PassOverSnoc(queued, i, activeWorkers, activeJobs, now, committed);
      pass := TryEachWorker(queued[i], activeWorkers, pools, now, pass, activeJobs);
    }
    assert queued[..|queued|] == queued;
    return pass.stops;
  }

  lemma PassOverSnoc(queue: seq<Job>, i: nat, ws: seq<Worker>, js: seq<Job>, now: int, start: Ledger)
    requires i < |queue|
    ensures PassOver(queue[..i + 1], ws, js, now, start)
         == TryWorkers(queue[i], ws, js, now, PassOver(queue[..i], ws, js, now, start))
  {
    assert queue[..i + 1][..i] == queue[..i];
  }
}

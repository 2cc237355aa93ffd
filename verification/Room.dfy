/** When stopping jobs makes the room it is meant to make. */
module Room {
  import opened Records
  import opened Options
  import opened Sorting
  import opened Capacity
  import opened Planner
  import opened PlannerTheorems
  import opened Preemption
  import opened PreemptionTheorems

  /** As many devices of `w` meet the bar as `w` has committed. */
  predicate BarCoversCommitted(w: Worker, m: int, l: Load) { Qualifying(w.gpus, m) >= l.gpus }

  predicate NoneHoldsDevice(cands: seq<Job>) { forall c :: c in cands ==> c.resources.gpuCount == 0 }

  lemma {:induction false} NoDevicesFreed(cands: seq<Job>, n: nat)
    requires n <= |cands| && forall k :: 0 <= k < n ==> cands[k].resources.gpuCount == 0
    ensures Total(cands[..n]).gpus == 0
  {
    if n > 0 {
      NoDevicesFreed(cands, n - 1);
      TotalNext(cands, n - 1);
    }
  }

  lemma RoomMade(cands: seq<Job>, n: nat, r: Resources, w: Worker, l: Load)
    requires w.status.Active? && r.Valid() && Suffices(cands, n, r, Free(r, w, l))
    requires BarCoversCommitted(w, r.minGpuMemoryBytes, l) || NoneHoldsDevice(cands)
    ensures Fits(r, w, Minus(l, Total(cands[..n])))
  {
    if NoneHoldsDevice(cands) { NoDevicesFreed(cands, n); }
  }

  /** The request for exactly the devices of the first candidate that has any. */
  lemma RoomNotMade(cands: seq<Job>, i: nat, r: Resources, w: Worker, l: Load)
    requires ValidRequests(cands) && i < |cands| && cands[i].resources.gpuCount > 0
    requires forall k :: 0 <= k < i ==> cands[k].resources.gpuCount == 0
    requires r.gpuCount == cands[i].resources.gpuCount && r.cpuCores == 0.0 && r.memoryBytes == 0
    requires WithinCpuAndMemory(w, l) && !BarCoversCommitted(w, r.minGpuMemoryBytes, l)
    ensures Suffices(cands, i + 1, r, Free(r, w, l)) && !Fits(r, w, Minus(l, Total(cands[..i + 1])))
  {
    forall m | 0 <= m <= i ensures Total(cands[..m]).gpus == 0 { NoDevicesFreed(cands, m); }
    TotalNext(cands, i);
    TotalsGrow(cands, 0, i + 1);
    assert cands[..0] == [];
  }

  lemma FirstHolder(cands: seq<Job>) returns (i: nat)
    requires ValidRequests(cands) && !NoneHoldsDevice(cands)
    ensures i < |cands| && cands[i].resources.gpuCount > 0 && forall k :: 0 <= k < i ==> cands[k].resources.gpuCount == 0
  {
    i := 0;
    while cands[i].resources.gpuCount == 0
      invariant i < |cands| && forall k :: 0 <= k < i ==> cands[k].resources.gpuCount == 0
      invariant exists k :: i <= k < |cands| && cands[k].resources.gpuCount != 0
      decreases |cands| - i
    {
      i := i + 1;
    }
    assert cands[i] in cands;
  }

  // On a worker.

  /** If the visit settles the job's case, the job fits the worker afterwards. */
  predicate SettledHasRoom(job: Job, w: Worker, js: seq<Job>, now: int, p: Pass)
  {
    match TryWorker(job, w, js, now, p)
    case None => true
    case Some(q) => Fits(job.resources, w, At(q.ledger, w.id))
  }

  lemma SettledWithRoom(job: Job, w: Worker, js: seq<Job>, now: int, p: Pass)
    requires DistinctBy(js, JobId) && w.status.Active? && job.resources.Valid()
    requires BarCoversCommitted(w, job.resources.minGpuMemoryBytes, At(p.ledger, w.id))
             || NoneHoldsDevice(Displaceable(job, w, js, now, p))
    ensures SettledHasRoom(job, w, js, now, p)
  {
    TryWorkerOutcome(job, w, js, now, p);
    if TryWorker(job, w, js, now, p).Some? && !Fits(job.resources, w, At(p.ledger, w.id)) {
      var c, victims := Displaceable(job, w, js, now, p), ScanFor(job, w, js, now, p).victims;
      assert c[..|victims|] == victims;
      RoomMade(c, |victims|, job.resources, w, At(p.ledger, w.id));
    }
  }

  lemma SettledWithoutRoom(job: Job, w: Worker, js: seq<Job>, now: int, p: Pass, i: nat)
    requires DistinctBy(js, JobId) && ValidRequests(js) && w.status.Active? && WithinCpuAndMemory(w, At(p.ledger, w.id))
    requires !BarCoversCommitted(w, job.resources.minGpuMemoryBytes, At(p.ledger, w.id))
    requires var c := Displaceable(job, w, js, now, p);
      && i < |c| && c[i].resources.gpuCount > 0 && (forall k :: 0 <= k < i ==> c[k].resources.gpuCount == 0)
      && job.resources.gpuCount == c[i].resources.gpuCount && job.resources.cpuCores == 0.0 && job.resources.memoryBytes == 0
    ensures var c := Displaceable(job, w, js, now, p)[..i + 1];
      TryWorker(job, w, js, now, p) == Some(Emit(p, job, w, Haul(c, Total(c))))
    ensures !SettledHasRoom(job, w, js, now, p)
  {
    DisplaceableValid(job, w, js, now, p);
    RoomNotMade(Displaceable(job, w, js, now, p), i, job.resources, w, At(p.ledger, w.id));
    TryWorkerSuffices(job, w, js, now, p, i + 1);
  }

  /** On a worker whose CPU and memory are not oversold, a pending job for which
      jobs are stopped fits afterwards, whatever it asks for with a given bar on
      device memory, exactly if as many devices meet the bar as are committed, or
      no job it may displace holds a device. */
  lemma RoomAfterStops(job: Job, w: Worker, js: seq<Job>, now: int, p: Pass, m: int)
    requires DistinctBy(js, JobId) && ValidRequests(js) && m >= 0
    requires w.status.Active? && WithinCpuAndMemory(w, At(p.ledger, w.id))
    ensures BarCoversCommitted(w, m, At(p.ledger, w.id)) || NoneHoldsDevice(Displaceable(job, w, js, now, p)) <==>
      forall r: Resources :: r.Valid() && r.minGpuMemoryBytes == m ==> SettledHasRoom(Asking(job, r), w, js, now, p)
  {
    var c := Displaceable(job, w, js, now, p);
    forall r: Resources ensures Displaceable(Asking(job, r), w, js, now, p) == c {}
    if BarCoversCommitted(w, m, At(p.ledger, w.id)) || NoneHoldsDevice(c) {
      forall r: Resources | r.Valid() && r.minGpuMemoryBytes == m ensures SettledHasRoom(Asking(job, r), w, js, now, p) {
        SettledWithRoom(Asking(job, r), w, js, now, p);
      }
    } else {
      DisplaceableValid(job, w, js, now, p);
      var i := FirstHolder(c);
      var r := Resources(c[i].resources.gpuCount, m, 0.0, 0);
      SettledWithoutRoom(Asking(job, r), w, js, now, p, i);
      assert r.Valid() && r.minGpuMemoryBytes == m;
    }
  }

  // Over a whole pass.

  /** Every pending job for which jobs are stopped fits, taken alone, on that
      worker in the accounting left by the whole pass, if that condition held
      when the decision was made. */
  lemma RescuedJobFits(js: seq<Job>, ws: seq<Worker>, queue: seq<Job>, now: int, start: Ledger, i: nat, w: Worker)
    requires DistinctBy(js, JobId) && ValidRequests(js) && ValidRequests(queue) && i < |queue|
    requires DistinctBy(ws, WorkerId) && w in ws
    requires var p, q := PassOver(queue[..i], ws, js, now, start), PassOver(queue[..i + 1], ws, js, now, start);
      && |p.stops| < |q.stops| && q.stops[|p.stops|].workerId == w.id
      && (BarCoversCommitted(w, queue[i].resources.minGpuMemoryBytes, At(p.ledger, w.id))
          || NoneHoldsDevice(Displaceable(queue[i], w, js, now, p)))
    ensures Fits(queue[i].resources, w, At(PassOver(queue, ws, js, now, start).ledger, w.id))
  {
    var p, q := PassOver(queue[..i], ws, js, now, start), PassOver(queue[..i + 1], ws, js, now, start);
    var v, victims := VictimsAreRight(js, ws, queue, now, start, i);
    StopsOf(victims, v.id, StopReason(queue[i].id));
    assert WorkerId(v) == WorkerId(w);
    assert v == w;
    var c := Displaceable(queue[i], w, js, now, p);
    assert c[..|victims|] == victims;
    RoomMade(c, |victims|, queue[i].resources, w, At(p.ledger, w.id));
    LoadsFall(js, ws, queue, now, start, i + 1, w.id);
    FitsAntitone(queue[i].resources, queue[i].resources, w,
                 At(PassOver(queue, ws, js, now, start).ledger, w.id), At(q.ledger, w.id));
  }

  /** A whole pass in vain: the one queued job asks for the devices of the first
      candidate that has any, fewer devices meet its bar than are committed, and
      that candidate and those before it are stopped without making room. */
  lemma StoppedInVain(js: seq<Job>, job: Job, w: Worker, now: int, i: nat)
    requires DistinctBy(js, JobId) && ValidRequests(js) && job in js && job.state.Queued?
    requires forall j :: j in js && j.state.Queued? ==> j == job
    requires w.status.Active? && WithinCpuAndMemory(w, At(Committed(js), w.id))
    requires !BarCoversCommitted(w, job.resources.minGpuMemoryBytes, At(Committed(js), w.id))
    requires var c := Displaceable(job, w, js, now, Pass(Committed(js), {}, []));
      && i < |c| && c[i].resources.gpuCount > 0 && (forall k :: 0 <= k < i ==> c[k].resources.gpuCount == 0)
      && job.resources.gpuCount == c[i].resources.gpuCount && job.resources.cpuCores == 0.0 && job.resources.memoryBytes == 0
    ensures var c := Displaceable(job, w, js, now, Pass(Committed(js), {}, []))[..i + 1];
      var q := PreemptionPass(js, [w], Planned(js, [w], now).assignments, now);
      q.stops == Stops(c, w.id, StopReason(job.id)) && !Fits(job.resources, w, At(q.ledger, w.id))
  {
    SoleVisit(js, job, w, now);
    SettledWithoutRoom(job, w, js, now, Pass(Committed(js), {}, []), i);
  }
}

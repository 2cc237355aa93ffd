/** Capacity safety with one active scheduler: what is promised on a worker is
    there, device by device, under any interleaving of job operations with the
    pass that is being applied. */
module Safety {
  import opened Records
  import opened Sorting
  import opened Capacity
  import opened Planner
  import opened Preemption
  import opened PlannerTheorems
  import opened PreemptionTheorems
  import opened Lifecycle
  import opened Trail
  import opened Repositories
  import opened Scheduler

  /** A job's hold on a worker: as scheduled or running there, or as planned. */
  datatype Claim = Claim(jobId: string, workerId: string, demand: Resources)

  ghost function HeldClaims(jobs: map<string, Job>): set<Claim>
  {
    set id, w | id in jobs && jobs[id].state.Holds() && w in jobs[id].assignedWorkerIds :: Claim(id, w, jobs[id].resources)
  }

  ghost function PlannedClaims(jobs: map<string, Job>, plan: seq<Assignment>): set<Claim>
  {
    set a | a in plan && a.jobId in jobs :: Claim(a.jobId, a.workerId, jobs[a.jobId].resources)
  }

  function On(claims: set<Claim>, workerId: string): set<Claim>
  {
    set c | c in claims && c.workerId == workerId
  }

  ghost predicate ValidClaims(claims: set<Claim>) { forall c :: c in claims ==> c.demand.Valid() }

  ghost function Sum(s: set<Claim>): Load
  {
    if s == {} then NOTHING else var c :| c in s; Plus(Sum(s - {c}), Demand(c.demand))
  }

  /** A set of devices for each claim, able and disjoint. */
  ghost predicate Allocates(alloc: map<Claim, set<int>>, on: set<Claim>, gpus: seq<Gpu>)
  {
    && (forall c :: c in on ==>
          c in alloc && |alloc[c]| == c.demand.gpuCount && alloc[c] <= AbleDevices(gpus, c.demand.minGpuMemoryBytes))
    && (forall c, d :: c in on && d in on && c != d ==> alloc[c] !! alloc[d])
  }

  ghost predicate Allocatable(on: set<Claim>, gpus: seq<Gpu>)
  {
    exists alloc :: Allocates(alloc, on, gpus)
  }

  /** The claims on `w` are within its CPU and memory, and each can have its
      own devices. */
  ghost predicate Supports(w: Worker, claims: set<Claim>)
  {
    && Sum(On(claims, w.id)).cpu <= w.cpuCapacity
    && Sum(On(claims, w.id)).memory <= w.memoryCapacityBytes
    && Allocatable(On(claims, w.id), w.gpus)
  }

  // Sums and allocations.

  lemma {:induction false} SumRemove(s: set<Claim>, c: Claim)
    requires c in s
    ensures Sum(s).gpus == Sum(s - {c}).gpus + c.demand.gpuCount
    ensures Sum(s).cpu == Sum(s - {c}).cpu + c.demand.cpuCores
    ensures Sum(s).memory == Sum(s - {c}).memory + c.demand.memoryBytes
  {
    var x :| x in s && Sum(s) == Plus(Sum(s - {x}), Demand(x.demand));
    if x != c {
      var rest := s - {x} - {c};
      SumRemove(s - {x}, c);
      SumRemove(s - {c}, x);
      assert s - {x} - {c} == rest && s - {c} - {x} == rest;
      assert Sum(s) == Plus(Sum(s - {x}), Demand(x.demand));
    } else {
      assert x == c && s - {x} == s - {c};
      assert Sum(s) == Plus(Sum(s - {c}), Demand(c.demand));
    }
  }

  lemma SumAdd(s: set<Claim>, c: Claim)
    requires c !in s
    ensures Sum(s + {c}) == Plus(Sum(s), Demand(c.demand))
  {
    SumRemove(s + {c}, c);
    assert s + {c} - {c} == s;
  }

  lemma {:induction false} SumSubset(s: set<Claim>, t: set<Claim>)
    requires s <= t && ValidClaims(t)
    ensures Sum(s).AtMost(Sum(t))
    decreases t
  {
    if s != t {
      var c :| c in t && c !in s;
      SumSubset(s, t - {c});
      SumRemove(t, c);
    }
  }

  lemma SupportsFewer(w: Worker, s: set<Claim>, t: set<Claim>)
    requires s <= t && ValidClaims(t) && Supports(w, t)
    ensures Supports(w, s)
  {
    assert On(s, w.id) <= On(t, w.id);
    SumSubset(On(s, w.id), On(t, w.id));
    var alloc :| Allocates(alloc, On(t, w.id), w.gpus);
    assert Allocates(alloc, On(s, w.id), w.gpus);
  }

  ghost function Used(alloc: map<Claim, set<int>>, on: set<Claim>): set<int>
  {
    set c, d | c in on && c in alloc && d in alloc[c] :: d
  }

  lemma UsedSplit(alloc: map<Claim, set<int>>, on: set<Claim>, c: Claim)
    requires c in on && c in alloc
    ensures Used(alloc, on) == Used(alloc, on - {c}) + alloc[c]
  {
    forall d | d in Used(alloc, on) ensures d in Used(alloc, on - {c}) + alloc[c] {
      var e :| e in on && e in alloc && d in alloc[e];
      assert e == c || e in on - {c};
    }
    forall d | d in Used(alloc, on - {c}) + alloc[c] ensures d in Used(alloc, on) {
      if d !in alloc[c] {
        var e :| e in on - {c} && e in alloc && d in alloc[e];
        assert e in on;
      }
    }
  }

  lemma {:induction false} UsedAtMost(alloc: map<Claim, set<int>>, on: set<Claim>, gpus: seq<Gpu>)
    requires Allocates(alloc, on, gpus)
    ensures |Used(alloc, on)| <= Sum(on).gpus
    decreases on
  {
    if on == {} {
      assert Used(alloc, on) == {};
    } else {
      var c :| c in on;
      UsedAtMost(alloc, on - {c}, gpus);
      UsedSplit(alloc, on, c);
      assert |Used(alloc, on)| <= |Used(alloc, on - {c})| + |alloc[c]|;
      SumRemove(on, c);
    }
  }

  lemma SomeDevice(s: set<int>)
    requires s != {}
    ensures exists x :: x in s
  {
    assert (forall x :: x !in s) ==> s == {};
  }

  lemma {:induction false} PickDevices(s: set<int>, k: nat) returns (t: set<int>)
    requires k <= |s|
    ensures t <= s && |t| == k
    decreases s
  {
    if k == |s| {
      t := s;
    } else {
      SomeDevice(s);
      var x :| x in s;
      t := PickDevices(s - {x}, k);
    }
  }

  lemma Remaining(able: set<int>, used: set<int>)
    ensures |able - used| >= |able| - |used|
  {
    assert |able - used| == |able| - |able * used|;
    assert |used - able| == |used| - |used * able|;
    assert able * used == used * able;
  }

  /** Where the planner's count says a request fits, devices can be found for
      it: the aggregate count never promises too much. */
  lemma AllocateOneMore(on: set<Claim>, c: Claim, w: Worker, committedGpus: int)
    requires Allocatable(on, w.gpus) && c !in on && c.demand.Valid()
    requires Sum(on).gpus <= committedGpus
    requires FreeGpus(w, c.demand.minGpuMemoryBytes, committedGpus) >= c.demand.gpuCount
    ensures Allocatable(on + {c}, w.gpus)
  {
    var alloc :| Allocates(alloc, on, w.gpus);
    var able, used := AbleDevices(w.gpus, c.demand.minGpuMemoryBytes), Used(alloc, on);
    UsedAtMost(alloc, on, w.gpus);
    QualifyingCounts(w.gpus, c.demand.minGpuMemoryBytes);
    Remaining(able, used);
    var devices: set<int> := {};
    if c.demand.gpuCount > 0 { devices := PickDevices(able - used, c.demand.gpuCount); }
    ExtendAllocation(alloc, on, c, devices, w.gpus);
  }

  lemma ExtendAllocation(alloc: map<Claim, set<int>>, on: set<Claim>, c: Claim, devices: set<int>, gpus: seq<Gpu>)
    requires Allocates(alloc, on, gpus) && c !in on && |devices| == c.demand.gpuCount
    requires devices <= AbleDevices(gpus, c.demand.minGpuMemoryBytes) - Used(alloc, on)
    ensures Allocates(alloc[c := devices], on + {c}, gpus)
  {
    forall d | d in on ensures alloc[d] !! devices {
      assert forall x :: x in alloc[d] ==> x in Used(alloc, on);
    }
  }

  lemma SupportsOneMore(w: Worker, claims: set<Claim>, c: Claim, offered: Worker, l: Load)
    requires Supports(w, claims) && c !in claims && c.workerId == w.id && c.demand.Valid()
    requires Sum(On(claims, w.id)).AtMost(l) && Fits(c.demand, offered, l)
    requires offered == w.(status := offered.status)
    ensures Supports(w, claims + {c})
  {
    var on := On(claims, w.id);
    assert On(claims + {c}, w.id) == on + {c};
    SumAdd(on, c);
    AllocateOneMore(on, c, offered, l.gpus);
  }

  // From the planner's ledger to claims.

  ghost function SeqClaims(js: seq<Job>): set<Claim>
  {
    set j, w | j in js && j.state.Holds() && w in j.assignedWorkerIds :: Claim(j.id, w, j.resources)
  }

  lemma {:induction false} ShareCovers(ids: seq<string>, w: string, r: Resources)
    requires r.Valid()
    ensures NOTHING.AtMost(Share(ids, w, r))
    ensures w in ids ==> Demand(r).AtMost(Share(ids, w, r))
  {
    if ids != [] {
      assert ids == ids[..|ids| - 1] + [ids[|ids| - 1]];
      ShareCovers(ids[..|ids| - 1], w, r);
    }
  }

  lemma SeqClaimsSnoc(js: seq<Job>, j: Job, w: string)
    ensures On(SeqClaims(js + [j]), w)
         == On(SeqClaims(js), w) + if j.state.Holds() && w in j.assignedWorkerIds then {Claim(j.id, w, j.resources)} else {}
  {
    forall c | c in On(SeqClaims(js + [j]), w)
      ensures c in On(SeqClaims(js), w) || (j.state.Holds() && w in j.assignedWorkerIds && c == Claim(j.id, w, j.resources))
    {
      var k :| k in js + [j] && k.state.Holds() && w in k.assignedWorkerIds && c == Claim(k.id, w, k.resources);
      if k != j { assert k in js; }
    }
    forall c | c in On(SeqClaims(js), w) ensures c in On(SeqClaims(js + [j]), w) {
      var k :| k in js && k.state.Holds() && w in k.assignedWorkerIds && c == Claim(k.id, w, k.resources);
      assert k in js + [j];
    }
    assert j in js + [j];
  }

  lemma PlusAtMost(a: Load, b: Load, c: Load, d: Load)
    requires a.AtMost(c) && b.AtMost(d)
    ensures Plus(a, b).AtMost(Plus(c, d))
  {
  }

  lemma PlusNothing(a: Load)
    ensures Plus(a, NOTHING) == a
  {
  }

  lemma SeqClaimsOwners(js: seq<Job>, c: Claim)
    requires c in SeqClaims(js)
    ensures exists k :: k in js && k.state.Holds() && k.id == c.jobId
  {
    var k, w :| k in js && k.state.Holds() && w in k.assignedWorkerIds && c == Claim(k.id, w, k.resources);
  }

  /** The committed sums cover the claims they stand for. */
  lemma {:induction false} CommittedCovers(js: seq<Job>, w: string)
    requires DistinctBy(js, JobId) && ValidRequests(js)
    ensures Sum(On(SeqClaims(js), w)).AtMost(CommittedTo(js, w))
  {
    if js == [] {
      assert On(SeqClaims(js), w) == {};
    } else {
      var init, j := js[..|js| - 1], js[|js| - 1];
      assert js == init + [j];
      var on := On(SeqClaims(init), w);
      CommittedCovers(init, w);
      SeqClaimsSnoc(init, j, w);
      CommittedSnoc(init, j, w);
      ShareCovers(j.assignedWorkerIds, w, j.resources);
      if j.state.Holds() && w in j.assignedWorkerIds {
        forall c | c in on ensures c.jobId != j.id {
          SeqClaimsOwners(init, c);
          var k :| k in init && k.id == c.jobId;
          assert JobId(k) != JobId(j);
        }
        SumAdd(on, Claim(j.id, w, j.resources));
        PlusAtMost(Sum(on), Demand(j.resources), CommittedTo(init, w), Holding(j, w));
      } else {
        assert On(SeqClaims(js), w) == on;
        assert NOTHING.AtMost(Holding(j, w));
        PlusAtMost(Sum(on), NOTHING, CommittedTo(init, w), Holding(j, w));
        PlusNothing(Sum(on));
      }
    }
  }

  /** `jobs` stores every job of the snapshot. */
  ghost predicate Stores(jobs: map<string, Job>, js: seq<Job>)
  {
    forall j :: j in js ==> j.id in jobs && jobs[j.id] == j
  }

  ghost function AllClaims(jobs: map<string, Job>, js: seq<Job>, plan: seq<Assignment>): set<Claim>
  {
    SeqClaims(js) + PlannedClaims(jobs, plan)
  }

  /** `w` supports the claims, and the ledger covers those on it. */
  ghost predicate Covered(w: Worker, claims: set<Claim>, ledger: Ledger)
  {
    && Supports(w, claims)
    && Sum(On(claims, w.id)).AtMost(At(ledger, w.id))
  }

  lemma CoveredOneMore(w: Worker, claims: set<Claim>, ledger: Ledger, c: Claim, ws: seq<Worker>)
    requires Covered(w, claims, ledger) && c !in claims && c.demand.Valid()
    requires BestFit(c.demand, ws, ledger, c.workerId)
    requires forall v :: v in ws && v.id == w.id ==> v == w.(status := v.status)
    ensures Covered(w, claims + {c}, Charge(ledger, c.workerId, c.demand))
  {
    if c.workerId == w.id {
      var v :| v in ws && v.id == w.id && Fits(c.demand, v, At(ledger, v.id));
      SupportsOneMore(w, claims, c, v, At(ledger, w.id));
      assert On(claims + {c}, w.id) == On(claims, w.id) + {c};
      SumAdd(On(claims, w.id), c);
    } else {
      assert On(claims + {c}, w.id) == On(claims, w.id);
    }
  }

  lemma NewClaim(jobs: map<string, Job>, js: seq<Job>, queue: seq<Job>, ws: seq<Worker>, start: Ledger, id: string)
    requires DistinctBy(js, JobId) && DistinctBy(queue, JobId) && Stores(jobs, js) && queue != []
    requires forall j :: j in queue ==> j in js && j.state.Queued?
    ensures var j := queue[|queue| - 1];
      Claim(j.id, id, j.resources) !in AllClaims(jobs, js, PlaceAll(queue[..|queue| - 1], ws, start).assignments)
  {
    var n := |queue| - 1;
    var j := queue[n];
    forall d | d in SeqClaims(js) ensures d.jobId != j.id {
      SeqClaimsOwners(js, d);
      var k :| k in js && k.state.Holds() && k.id == d.jobId;
      assert jobs[k.id] == k && jobs[j.id] == j;
    }
    forall d | d in PlannedClaims(jobs, PlaceAll(queue[..n], ws, start).assignments) ensures d.jobId != j.id {
      var a :| a in PlaceAll(queue[..n], ws, start).assignments && a.jobId == d.jobId;
      AssignmentsFromQueue(queue[..n], ws, start, a);
      var k :| k in queue[..n] && k.id == a.jobId;
      assert JobId(k) != JobId(j);
    }
  }

  lemma {:induction false} PlacementsCovered(jobs: map<string, Job>, js: seq<Job>, queue: seq<Job>, ws: seq<Worker>, w: Worker)
    requires DistinctBy(js, JobId) && DistinctBy(queue, JobId) && Stores(jobs, js) && ValidRequests(js)
    requires forall j :: j in queue ==> j in js && j.state.Queued?
    requires forall v :: v in ws && v.id == w.id ==> v == w.(status := v.status)
    requires Supports(w, SeqClaims(js))
    ensures var p := PlaceAll(queue, ws, Committed(js));
      Covered(w, AllClaims(jobs, js, p.assignments), p.ledger)
  {
    if queue == [] {
      assert AllClaims(jobs, js, []) == SeqClaims(js);
      CommittedCovers(js, w.id);
      CommittedAt(js, w.id);
    } else {
      var n := |queue| - 1;
      var j, p := queue[n], PlaceAll(queue[..n], ws, Committed(js));
      PlacementsCovered(jobs, js, queue[..n], ws, w);
      SelectBestFit(j.resources, ws, p.ledger);
      match Planner.Select(j.resources, ws, p.ledger)
      case None =>
      case Some(id) =>
        var c := Claim(j.id, id, j.resources);
        NewClaim(jobs, js, queue, ws, Committed(js), id);
        CoveredOneMore(w, AllClaims(jobs, js, p.assignments), p.ledger, c, ws);
        assert j in js;
        PlannedSnoc(jobs, p.assignments, Assignment(j.id, id, PLACED_REASON));
        assert AllClaims(jobs, js, p.assignments + [Assignment(j.id, id, PLACED_REASON)])
            == AllClaims(jobs, js, p.assignments) + {c};
    }
  }

  lemma PlannedSnoc(jobs: map<string, Job>, plan: seq<Assignment>, a: Assignment)
    requires a.jobId in jobs
    ensures PlannedClaims(jobs, plan + [a])
         == PlannedClaims(jobs, plan) + {Claim(a.jobId, a.workerId, jobs[a.jobId].resources)}
  {
    forall c | c in PlannedClaims(jobs, plan) ensures c in PlannedClaims(jobs, plan + [a]) {
      var b :| b in plan && b.jobId in jobs && c == Claim(b.jobId, b.workerId, jobs[b.jobId].resources);
      assert b in plan + [a];
    }
    assert a in plan + [a];
  }

  // The cluster: stored jobs and the rest of the plan being applied.

  datatype Cluster = Cluster(sys: System, plan: seq<Assignment>)

  datatype Move =
    | JobStep(step: Step)
    | BeginPass(snapshot: seq<Job>, workers: seq<Worker>, now: int)
    | WriteNext
    | AbandonPass

  type Inventory = map<string, Worker>

  ghost predicate ValidInventory(inventory: Inventory)
  {
    forall id :: id in inventory ==>
      inventory[id].id == id && inventory[id].cpuCapacity >= 0.0 && inventory[id].memoryCapacityBytes >= 0
  }

  /** Anything but an assignment. */
  predicate NotAssigning(step: Step) { step.Apply? ==> !step.op.AssignOp? }

  /** Job operations happen at any time, but only the pass assigns; a pass
      begins when the previous one is through or given up, on the workers of
      the inventory that are registered as alive. */
  ghost predicate Enabled(inventory: Inventory, c: Cluster, m: Move)
  {
    match m
    case JobStep(step) => NotAssigning(step)
    case BeginPass(snapshot, workers, now) =>
      && c.plan == [] && Lists(snapshot, c.sys.jobs, IsActive)
      && forall w :: w in workers ==> w.id in inventory && w == inventory[w.id].(status := w.status)
    case WriteNext => c.plan != []
    case AbandonPass => true
  }

  ghost function Effect(c: Cluster, m: Move): Cluster
    requires m.WriteNext? ==> c.plan != []
  {
    match m
    case JobStep(step) => c.(sys := Next(c.sys, step))
    case BeginPass(snapshot, workers, now) => c.(plan := Planned(snapshot, workers, now).assignments)
    case WriteNext => Cluster(Next(c.sys, WriteOf(c.plan[0])), c.plan[1..])
    case AbandonPass => c.(plan := [])
  }

  ghost function Claims(c: Cluster): set<Claim>
  {
    HeldClaims(c.sys.jobs) + PlannedClaims(c.sys.jobs, c.plan)
  }

  ghost predicate Safe(inventory: Inventory, c: Cluster)
  {
    && SysInv(c.sys)
    && (forall a :: a in c.plan ==> a.jobId in c.sys.jobs)
    && (forall id :: id in inventory ==> Supports(inventory[id], Claims(c)))
  }

  lemma ClaimsAreValid(c: Cluster)
    requires SysInv(c.sys)
    ensures ValidClaims(Claims(c))
  {
    forall id | id in c.sys.jobs ensures c.sys.jobs[id].resources.Valid() { ReachedJob(c.sys, id); }
  }

  /** Short of an assignment, no operation gives a job a hold it did not have. */
  lemma NoNewHold(op: Op, j: Job)
    requires !op.AssignOp? && Transition(op, j).Ok? && Transition(op, j).value.state.Holds()
    ensures j.state.Holds() && Transition(op, j).value.assignedWorkerIds == j.assignedWorkerIds
    ensures Transition(op, j).value.resources == j.resources
  {
  }

  /** Replacing one record by one with no further hold adds no claim. */
  lemma ReplaceShrinks(jobs: map<string, Job>, plan: seq<Assignment>, id: string, k: Job)
    requires id in jobs && k.resources == jobs[id].resources
    requires k.state.Holds() ==> jobs[id].state.Holds() && k.assignedWorkerIds == jobs[id].assignedWorkerIds
    ensures HeldClaims(jobs[id := k]) <= HeldClaims(jobs)
    ensures PlannedClaims(jobs[id := k], plan) == PlannedClaims(jobs, plan)
  {
    var updated := jobs[id := k];
    forall c | c in HeldClaims(updated) ensures c in HeldClaims(jobs) {
      var i, w :| i in updated && updated[i].state.Holds() && w in updated[i].assignedWorkerIds
                  && c == Claim(i, w, updated[i].resources);
      assert i in jobs && w in jobs[i].assignedWorkerIds;
    }
    PlannedSame(jobs, updated, plan);
  }

  lemma PlannedSame(jobs: map<string, Job>, updated: map<string, Job>, plan: seq<Assignment>)
    requires forall a :: a in plan ==> (a.jobId in jobs <==> a.jobId in updated)
    requires forall a :: a in plan && a.jobId in jobs ==> updated[a.jobId].resources == jobs[a.jobId].resources
    ensures PlannedClaims(updated, plan) == PlannedClaims(jobs, plan)
  {
  }

  lemma InsertShrinks(jobs: map<string, Job>, plan: seq<Assignment>, j: Job)
    requires j.id !in jobs && !j.state.Holds() && forall a :: a in plan ==> a.jobId in jobs
    ensures HeldClaims(jobs[j.id := j]) <= HeldClaims(jobs)
    ensures PlannedClaims(jobs[j.id := j], plan) == PlannedClaims(jobs, plan)
  {
    PlannedSame(jobs, jobs[j.id := j], plan);
  }

  lemma JobStepShrinks(c: Cluster, step: Step)
    requires NotAssigning(step) && SysInv(c.sys) && forall a :: a in c.plan ==> a.jobId in c.sys.jobs
    ensures Claims(Effect(c, JobStep(step))) <= Claims(c)
  {
    if Next(c.sys, step) != c.sys {
      match step {
        case Submit(id, input, now) =>
          InsertShrinks(c.sys.jobs, c.plan, NewJob(id, input, now));
        case Apply(id, op) =>
          var k := Transition(op, c.sys.jobs[id]).value;
          ReachedJob(c.sys, id);
          TransitionKeeps(op, c.sys.jobs[id]);
          if k.state.Holds() { NoNewHold(op, c.sys.jobs[id]); }
          ReplaceShrinks(c.sys.jobs, c.plan, id, k);
      }
    }
  }

  /** A write turns the plan's claim into the same claim of the stored job, or,
      if the job has moved on, drops it. */
  lemma WriteShrinks(c: Cluster)
    requires c.plan != [] && c.plan[0].jobId in c.sys.jobs
    ensures Claims(Effect(c, WriteNext)) <= Claims(c)
  {
    var a, jobs := c.plan[0], c.sys.jobs;
    var t := Effect(c, WriteNext);
    assert a in c.plan && forall b :: b in c.plan[1..] ==> b in c.plan;
    assert PlannedClaims(jobs, c.plan[1..]) <= PlannedClaims(jobs, c.plan);
    if jobs[a.jobId].state.Queued? {
      var k := Assign(jobs[a.jobId], [a.workerId]).value;
      assert t.sys.jobs == jobs[a.jobId := k];
      AssignedHolds(jobs, a.jobId, k, a.workerId);
      PlannedSame(jobs, jobs[a.jobId := k], c.plan[1..]);
      assert Claim(a.jobId, a.workerId, jobs[a.jobId].resources) in PlannedClaims(jobs, c.plan);
    } else {
      assert t.sys == c.sys;
    }
  }

  lemma AssignedHolds(jobs: map<string, Job>, id: string, k: Job, w: string)
    requires id in jobs && k.resources == jobs[id].resources && k.assignedWorkerIds == [w]
    ensures HeldClaims(jobs[id := k]) <= HeldClaims(jobs) + {Claim(id, w, jobs[id].resources)}
  {
    var updated := jobs[id := k];
    forall c | c in HeldClaims(updated) ensures c in HeldClaims(jobs) + {Claim(id, w, jobs[id].resources)} {
      var i, v :| i in updated && updated[i].state.Holds() && v in updated[i].assignedWorkerIds
                  && c == Claim(i, v, updated[i].resources);
      if i != id { assert i in jobs && v in jobs[i].assignedWorkerIds; }
    }
  }

  lemma SnapshotClaims(js: seq<Job>, jobs: map<string, Job>)
    requires Lists(js, jobs, IsActive) && Keyed(jobs)
    ensures SeqClaims(js) == HeldClaims(jobs)
  {
    forall c | c in HeldClaims(jobs) ensures c in SeqClaims(js) {
      var i, w :| i in jobs && jobs[i].state.Holds() && w in jobs[i].assignedWorkerIds && c == Claim(i, w, jobs[i].resources);
      assert jobs[i] in js;
    }
    forall c | c in SeqClaims(js) ensures c in HeldClaims(jobs) {
      var j, w :| j in js && j.state.Holds() && w in j.assignedWorkerIds && c == Claim(j.id, w, j.resources);
      assert j.id in jobs && jobs[j.id] == j;
    }
  }

  lemma PlanFromSnapshot(snapshot: seq<Job>, workers: seq<Worker>, now: int, jobs: map<string, Job>, a: Assignment)
    requires Stores(jobs, snapshot) && a in Planned(snapshot, workers, now).assignments
    ensures a.jobId in jobs
  {
    AssignmentsFromQueue(Queue(snapshot, now), workers, Committed(snapshot), a);
    var j :| j in Queue(snapshot, now) && j.id == a.jobId;
    assert j in snapshot;
  }

  lemma PlanSupported(jobs: map<string, Job>, snapshot: seq<Job>, workers: seq<Worker>, now: int, w: Worker)
    requires DistinctBy(snapshot, JobId) && Stores(jobs, snapshot) && ValidRequests(snapshot)
    requires forall v :: v in workers && v.id == w.id ==> v == w.(status := v.status)
    requires Supports(w, SeqClaims(snapshot))
    ensures Supports(w, AllClaims(jobs, snapshot, Planned(snapshot, workers, now).assignments))
  {
    QueueOrdered(snapshot, now);
    PlacementsCovered(jobs, snapshot, Queue(snapshot, now), workers, w);
  }

  lemma BeginPassSafe(inventory: Inventory, c: Cluster, snapshot: seq<Job>, workers: seq<Worker>, now: int)
    requires ValidInventory(inventory) && Safe(inventory, c)
    requires Enabled(inventory, c, BeginPass(snapshot, workers, now))
    ensures Safe(inventory, Effect(c, BeginPass(snapshot, workers, now)))
  {
    var jobs, plan := c.sys.jobs, Planned(snapshot, workers, now).assignments;
    forall id | id in jobs ensures jobs[id].id == id && jobs[id].resources.Valid() { ReachedJob(c.sys, id); }
    SnapshotClaims(snapshot, jobs);
    forall a | a in plan ensures a.jobId in jobs { PlanFromSnapshot(snapshot, workers, now, jobs, a); }
    assert Claims(c) == SeqClaims(snapshot);
    var t := Effect(c, BeginPass(snapshot, workers, now));
    assert Claims(t) == AllClaims(jobs, snapshot, plan);
    forall id | id in inventory ensures Supports(inventory[id], Claims(t)) {
      PlanSupported(jobs, snapshot, workers, now, inventory[id]);
    }
  }

  lemma MoveSafe(inventory: Inventory, c: Cluster, m: Move)
    requires ValidInventory(inventory) && Safe(inventory, c) && Enabled(inventory, c, m)
    ensures Safe(inventory, Effect(c, m))
  {
    if m.BeginPass? {
      BeginPassSafe(inventory, c, m.snapshot, m.workers, m.now);
    } else {
      var t := Effect(c, m);
      assert Claims(t) <= Claims(c) by {
        match m {
          case JobStep(step) => JobStepShrinks(c, step);
          case WriteNext => assert c.plan[0] in c.plan; WriteShrinks(c);
          case AbandonPass => assert PlannedClaims(c.sys.jobs, []) == {};
        }
      }
      MoveKeepsJobs(c, m);
      ClaimsAreValid(c);
      forall id | id in inventory ensures Supports(inventory[id], Claims(t)) {
        SupportsFewer(inventory[id], Claims(t), Claims(c));
      }
    }
  }

  lemma MoveKeepsJobs(c: Cluster, m: Move)
    requires SysInv(c.sys) && !m.BeginPass? && (m.WriteNext? ==> c.plan != [])
    requires forall a :: a in c.plan ==> a.jobId in c.sys.jobs
    ensures SysInv(Effect(c, m).sys)
    ensures forall a :: a in Effect(c, m).plan ==> a.jobId in Effect(c, m).sys.jobs
  {
    if m.JobStep? || m.WriteNext? {
      var step := if m.JobStep? then m.step else WriteOf(c.plan[0]);
      StepKeeps(c.sys, step);
      StepKeepsIds(c.sys, step);
      assert Effect(c, m).sys == Next(c.sys, step);
    }
  }

  ghost predicate LegalMoves(inventory: Inventory, c: Cluster, moves: seq<Move>)
    decreases |moves|
  {
    moves == [] || (Enabled(inventory, c, moves[0]) && LegalMoves(inventory, Effect(c, moves[0]), moves[1..]))
  }

  ghost function AfterMoves(inventory: Inventory, c: Cluster, moves: seq<Move>): Cluster
    requires LegalMoves(inventory, c, moves)
    decreases |moves|
  {
    if moves == [] then c else AfterMoves(inventory, Effect(c, moves[0]), moves[1..])
  }

  lemma {:induction false} MovesSafe(inventory: Inventory, c: Cluster, moves: seq<Move>)
    requires ValidInventory(inventory) && Safe(inventory, c) && LegalMoves(inventory, c, moves)
    ensures Safe(inventory, AfterMoves(inventory, c, moves))
    decreases |moves|
  {
    if moves != [] {
      MoveSafe(inventory, c, moves[0]);
      MovesSafe(inventory, Effect(c, moves[0]), moves[1..]);
    }
  }

  /** In every reachable state, whatever happens between a pass's snapshot and
      its writes, the scheduled and running jobs of each worker are within its
      CPU and memory, and there are pairwise disjoint devices for them that
      each meet their job's bar. */
  lemma CapacitySafe(inventory: Inventory, moves: seq<Move>, id: string)
    requires ValidInventory(inventory) && LegalMoves(inventory, Cluster(EMPTY, []), moves) && id in inventory
    ensures Supports(inventory[id], HeldClaims(AfterMoves(inventory, Cluster(EMPTY, []), moves).sys.jobs))
  {
    var start := Cluster(EMPTY, []);
    assert Claims(start) == {};
    forall w | w in inventory ensures Supports(inventory[w], {}) {
      assert On({}, w) == {};
      var none: map<Claim, set<int>> := map[];
      assert Allocates(none, {}, inventory[w].gpus);
    }
    MovesSafe(inventory, start, moves);
    var c := AfterMoves(inventory, start, moves);
    ClaimsAreValid(c);
    SupportsFewer(inventory[id], HeldClaims(c.sys.jobs), Claims(c));
  }

  // A scheduler's assignments name one worker.

  ghost predicate OneWorkerEach(jobs: map<string, Job>) { forall id :: id in jobs ==> |jobs[id].assignedWorkerIds| <= 1 }

  lemma MoveKeepsOneWorker(inventory: Inventory, c: Cluster, m: Move)
    requires Enabled(inventory, c, m) && OneWorkerEach(c.sys.jobs)
    ensures OneWorkerEach(Effect(c, m).sys.jobs)
  {
  }

  lemma {:induction false} MovesKeepOneWorker(inventory: Inventory, c: Cluster, moves: seq<Move>)
    requires LegalMoves(inventory, c, moves) && OneWorkerEach(c.sys.jobs)
    ensures OneWorkerEach(AfterMoves(inventory, c, moves).sys.jobs)
    decreases |moves|
  {
    if moves != [] {
      MoveKeepsOneWorker(inventory, c, moves[0]);
      MovesKeepOneWorker(inventory, Effect(c, moves[0]), moves[1..]);
    }
  }

  /** In every reachable state, a preemption pass on its snapshot stops no job
      twice. */
  lemma NeverStoppedTwiceInRuns(inventory: Inventory, moves: seq<Move>, snapshot: seq<Job>, workers: seq<Worker>,
                                placed: seq<Assignment>, now: int)
    requires LegalMoves(inventory, Cluster(EMPTY, []), moves)
    requires Lists(snapshot, AfterMoves(inventory, Cluster(EMPTY, []), moves).sys.jobs, IsActive)
    ensures StopsDistinct(PreemptionPass(snapshot, workers, placed, now).stops)
  {
    MovesKeepOneWorker(inventory, Cluster(EMPTY, []), moves);
    forall j | j in snapshot ensures NoRepeats(j.assignedWorkerIds) {}
    NeverStoppedTwice(snapshot, workers, Pending(snapshot, placed, now), now, Rebuilt(snapshot, placed));
  }

  // The pass as it is carried out keeps the cluster safe.

  ghost predicate NoneAssigning(steps: seq<Step>) { forall s :: s in steps ==> NotAssigning(s) }

  lemma {:induction false} JobStepsSafe(inventory: Inventory, c: Cluster, steps: seq<Step>)
    requires ValidInventory(inventory) && Safe(inventory, c) && NoneAssigning(steps)
    ensures Safe(inventory, c.(sys := Run(c.sys, steps)))
  {
    if steps != [] {
      var n := |steps| - 1;
      assert steps == steps[..n] + [steps[n]];
      JobStepsSafe(inventory, c, steps[..n]);
      MoveSafe(inventory, c.(sys := Run(c.sys, steps[..n])), JobStep(steps[n]));
    }
  }

  /** After the first `i` writes the rest of the plan is still supported. */
  lemma {:induction false} WritesSafe(inventory: Inventory, t: Tally, plan: seq<Assignment>, env: Interference, i: nat)
    requires ValidInventory(inventory) && Safe(inventory, Cluster(t.sys, plan)) && i <= |plan|
    requires forall k :: NoneAssigning(env(k))
    ensures Safe(inventory, Cluster(WriteAll(t, plan[..i], env).sys, plan[i..]))
  {
    if i > 0 {
      WritesSafe(inventory, t, plan, env, i - 1);
      var u := WriteAll(t, plan[..i - 1], env);
      var c := Cluster(u.sys, plan[i - 1..]);
      assert plan[..i][..i - 1] == plan[..i - 1];
      assert plan[i - 1..][0] == plan[i - 1] && plan[i - 1..][1..] == plan[i..];
      JobStepsSafe(inventory, c, env(i - 1));
      MoveSafe(inventory, c.(sys := Run(c.sys, env(i - 1))), WriteNext);
    } else {
      assert plan[..0] == [] && plan[0..] == plan;
    }
  }

  lemma StopSafe(inventory: Inventory, t: StopTally, s: Stop, meanwhile: seq<Step>)
    requires ValidInventory(inventory) && Safe(inventory, Cluster(t.sys, [])) && NoneAssigning(meanwhile)
    ensures Safe(inventory, Cluster(StopOne(t, s, meanwhile).sys, []))
  {
    JobStepsSafe(inventory, Cluster(t.sys, []), meanwhile);
    MoveSafe(inventory, Cluster(Run(t.sys, meanwhile), []), JobStep(StopOf(s)));
  }

  lemma {:induction false} StopsSafe(inventory: Inventory, t: StopTally, stops: seq<Stop>, env: Interference, base: nat)
    requires ValidInventory(inventory) && Safe(inventory, Cluster(t.sys, []))
    requires forall k :: NoneAssigning(env(k))
    ensures Safe(inventory, Cluster(StopAll(t, stops, env, base).sys, []))
  {
    if stops != [] {
      var n := |stops| - 1;
      StopsSafe(inventory, t, stops[..n], env, base);
      var u := StopAll(t, stops[..n], env, base);
      StopSafe(inventory, u, stops[n], env(base + n));
      StopAllSnoc(t, stops, n, env, base);
      assert stops[..n + 1] == stops;
    }
  }

  /** A whole pass, whatever else is done to jobs while it is applied, short of
      another scheduler assigning them: what it leaves, which is what `RunOnce`
      leaves in the table, is within every worker's capacity if what it found was. */
  lemma PassSafe(inventory: Inventory, sys: System, snapshot: seq<Job>, workers: seq<Worker>, now: int,
                 preemption: bool, env: Interference)
    requires ValidInventory(inventory) && Safe(inventory, Cluster(sys, []))
    requires Enabled(inventory, Cluster(sys, []), BeginPass(snapshot, workers, now))
    requires forall k :: NoneAssigning(env(k))
    ensures var plan := Planned(snapshot, workers, now).assignments;
      var t := WriteAll(Tally(sys, [], 0, []), plan, env);
      Safe(inventory, Cluster(Finish(t.sys, snapshot, workers, plan, now, preemption, env).sys, []))
  {
    var plan := Planned(snapshot, workers, now).assignments;
    var t := Tally(sys, [], 0, []);
    BeginPassSafe(inventory, Cluster(sys, []), snapshot, workers, now);
    WritesSafe(inventory, t, plan, env, |plan|);
    assert plan[..|plan|] == plan && plan[|plan|..] == [];
    var u := StopTally(WriteAll(t, plan, env).sys, 0, []);
    StopsSafe(inventory, u, PreemptionPass(snapshot, workers, plan, now).stops, env, |plan|);
  }

  /** What a stored job claims: its request on each of its workers, while it is
      SCHEDULED, RUNNING or CHECKPOINTING. */
  lemma HeldMeans(jobs: map<string, Job>, c: Claim)
    ensures c in HeldClaims(jobs) <==>
      && c.jobId in jobs && jobs[c.jobId].state in {Scheduled, Running, Checkpointing}
      && c.workerId in jobs[c.jobId].assignedWorkerIds && c.demand == jobs[c.jobId].resources
  {
    if c.jobId in jobs && jobs[c.jobId].state.Holds() && c.workerId in jobs[c.jobId].assignedWorkerIds
       && c.demand == jobs[c.jobId].resources
    {
      assert c == Claim(c.jobId, c.workerId, jobs[c.jobId].resources);
    }
  }

  /** Preemption gives a job's capacity back when it is requested, not when it is
      confirmed: from then on the job claims nothing, though it is still assigned. */
  lemma FreedOnRequest(sys: System, id: string, reason: string)
    requires id in sys.jobs && Stoppable(sys.jobs[id])
    ensures var next := Next(sys, Apply(id, PreemptOp(reason)));
      && next.jobs[id].assignedWorkerIds == sys.jobs[id].assignedWorkerIds && next.jobs[id].state.Preempted?
      && HeldClaims(next.jobs) == set c | c in HeldClaims(sys.jobs) && c.jobId != id
  {
    var jobs := Next(sys, Apply(id, PreemptOp(reason))).jobs;
    assert jobs == sys.jobs[id := sys.jobs[id].(state := Preempted, failureReason := reason)];
    forall c | c in HeldClaims(sys.jobs) && c.jobId != id ensures c in HeldClaims(jobs) {
      assert c.jobId in jobs && jobs[c.jobId] == sys.jobs[c.jobId];
    }
  }

  /** So does the cancel of a running job. */
  lemma FreedOnCancel(sys: System, id: string, now: int)
    requires id in sys.jobs && sys.jobs[id].state.Running?
    ensures var next := Next(sys, Apply(id, CancelOp(now)));
      && next.jobs[id].assignedWorkerIds == sys.jobs[id].assignedWorkerIds && next.jobs[id].state.CancelRequested?
      && HeldClaims(next.jobs) == set c | c in HeldClaims(sys.jobs) && c.jobId != id
  {
    var jobs := Next(sys, Apply(id, CancelOp(now))).jobs;
    assert jobs == sys.jobs[id := sys.jobs[id].(state := CancelRequested)];
    forall c | c in HeldClaims(sys.jobs) && c.jobId != id ensures c in HeldClaims(jobs) {
      assert c.jobId in jobs && jobs[c.jobId] == sys.jobs[c.jobId];
    }
  }
}

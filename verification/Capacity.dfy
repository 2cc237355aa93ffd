/** How much of each worker is spoken for. */
module Capacity {
  import opened Records
  import opened Sorting

  datatype Load = Load(gpus: int, cpu: real, memory: int)
  {
    predicate AtMost(l: Load) { gpus <= l.gpus && cpu <= l.cpu && memory <= l.memory }
  }

  const NOTHING := Load(0, 0.0, 0)

  /** Loads by worker; a worker without an entry carries nothing. */
  type Ledger = map<string, Load>

  function At(ledger: Ledger, workerId: string): Load
  {
    if workerId in ledger then ledger[workerId] else NOTHING
  }

  function Plus(a: Load, b: Load): Load { Load(a.gpus + b.gpus, a.cpu + b.cpu, a.memory + b.memory) }

  function Minus(a: Load, b: Load): Load { Load(a.gpus - b.gpus, a.cpu - b.cpu, a.memory - b.memory) }

  function Demand(r: Resources): Load { Load(r.gpuCount, r.cpuCores, r.memoryBytes) }

  function Charge(ledger: Ledger, workerId: string, r: Resources): Ledger
  {
    ledger[workerId := Plus(At(ledger, workerId), Demand(r))]
  }

  /** One demand for every occurrence of the worker in the assignment. */
  function Share(ids: seq<string>, workerId: string, r: Resources): Load
  {
    if ids == [] then NOTHING
    else
      Plus(Share(ids[..|ids| - 1], workerId, r),
           if ids[|ids| - 1] == workerId then Demand(r) else NOTHING)
  }

  function Holding(j: Job, workerId: string): Load
  {
    if j.state.Holds() then Share(j.assignedWorkerIds, workerId, j.resources) else NOTHING
  }

  function CommittedTo(js: seq<Job>, workerId: string): Load
  {
    if js == [] then NOTHING
    else Plus(CommittedTo(js[..|js| - 1], workerId), Holding(js[|js| - 1], workerId))
  }

  function HeldWorkers(js: seq<Job>): set<string>
  {
    set j, w | j in js && j.state.Holds() && w in j.assignedWorkerIds :: w
  }

  /** The ledger of everything the holding jobs have been given. */
  function Committed(js: seq<Job>): Ledger
  {
    map w | w in HeldWorkers(js) :: CommittedTo(js, w)
  }

  lemma {:induction false} ShareAbsent(ids: seq<string>, workerId: string, r: Resources)
    requires workerId !in ids
    ensures Share(ids, workerId, r) == NOTHING
  {
    if ids != [] { ShareAbsent(ids[..|ids| - 1], workerId, r); }
  }

  lemma {:induction false} CommittedAt(js: seq<Job>, workerId: string)
    ensures At(Committed(js), workerId) == CommittedTo(js, workerId)
  {
    if workerId !in HeldWorkers(js) { UnheldCarriesNothing(js, workerId); }
  }

  lemma {:induction false} UnheldCarriesNothing(js: seq<Job>, workerId: string)
    requires workerId !in HeldWorkers(js)
    ensures CommittedTo(js, workerId) == NOTHING
  {
    if js != [] {
      var init, last := js[..|js| - 1], js[|js| - 1];
      assert last in js && forall j :: j in init ==> j in js;
      UnheldCarriesNothing(init, workerId);
      if last.state.Holds() { ShareAbsent(last.assignedWorkerIds, workerId, last.resources); }
    }
  }

  /** Charging one job's demand to each of its workers, in turn. */
  function ChargeEach(ledger: Ledger, ids: seq<string>, r: Resources): Ledger
  {
    if ids == [] then ledger
    else Charge(ChargeEach(ledger, ids[..|ids| - 1], r), ids[|ids| - 1], r)
  }

  function Accumulated(js: seq<Job>): Ledger
  {
    if js == [] then map[]
    else
      var init, last := Accumulated(js[..|js| - 1]), js[|js| - 1];
      if last.state.Holds() then ChargeEach(init, last.assignedWorkerIds, last.resources) else init
  }

  lemma {:induction false} ChargeEachAt(ledger: Ledger, ids: seq<string>, r: Resources, w: string)
    ensures At(ChargeEach(ledger, ids, r), w).gpus == At(ledger, w).gpus + Share(ids, w, r).gpus
    ensures At(ChargeEach(ledger, ids, r), w).cpu == At(ledger, w).cpu + Share(ids, w, r).cpu
    ensures At(ChargeEach(ledger, ids, r), w).memory == At(ledger, w).memory + Share(ids, w, r).memory
    ensures w in ChargeEach(ledger, ids, r) <==> w in ledger || w in ids
  {
    if ids != [] {
      var n := |ids| - 1;
      assert ids == ids[..n] + [ids[n]];
      ChargeEachAt(ledger, ids[..n], r, w);
    }
  }

  lemma HeldWorkersSnoc(js: seq<Job>, j: Job, w: string)
    ensures w in HeldWorkers(js + [j])
       <==> w in HeldWorkers(js) || (j.state.Holds() && w in j.assignedWorkerIds)
  {
  }

  lemma {:induction false} AccumulatedAt(js: seq<Job>, w: string)
    ensures At(Accumulated(js), w) == CommittedTo(js, w)
    ensures w in Accumulated(js) <==> w in HeldWorkers(js)
  {
    if js != [] {
      var n := |js| - 1;
      assert js == js[..n] + [js[n]];
      AccumulatedAt(js[..n], w);
      HeldWorkersSnoc(js[..n], js[n], w);
      if js[n].state.Holds() {
        ChargeEachAt(Accumulated(js[..n]), js[n].assignedWorkerIds, js[n].resources, w);
      }
    }
  }

  /** How often a job counts against a worker. */
  function Times(j: Job, workerId: string): nat
  {
    if j.state.Scheduled? || j.state.Running? || j.state.Checkpointing? then multiset(j.assignedWorkerIds)[workerId] else 0
  }

  predicate InUse(js: seq<Job>, workerId: string) { exists j :: j in js && Times(j, workerId) > 0 }

  lemma HeldInUse(js: seq<Job>, workerId: string)
    ensures workerId in HeldWorkers(js) <==> InUse(js, workerId)
  {
    forall j | j in js ensures Times(j, workerId) > 0 <==> j.state.Holds() && workerId in j.assignedWorkerIds {}
  }

  /** The accumulation over jobs and over each job's workers computes the
      committed sums, and has an entry for exactly the workers in use. */
  method CommittedByWorker(activeJobs: seq<Job>) returns (out: Ledger)
    ensures out == Committed(activeJobs)
    ensures forall w :: At(out, w) == CommittedTo(activeJobs, w)
    ensures forall w :: w in out <==> InUse(activeJobs, w)
  {
    out := map[];
    for i := 0 to |activeJobs|
      invariant out == Accumulated(activeJobs[..i])
    {
      var j := activeJobs[i];
      assert activeJobs[..i + 1][..i] == activeJobs[..i];
      if j.state.Holds() {
        var ids, before := j.assignedWorkerIds, out;
        for k := 0 to |ids|
          invariant out == ChargeEach(before, ids[..k], j.resources)
        {
          assert ids[..k + 1][..k] == ids[..k];
          out := Charge(out, ids[k], j.resources);
        }
        assert ids[..|ids|] == ids;
      }
    }
    assert activeJobs[..|activeJobs|] == activeJobs;
    forall w ensures w in out <==> w in HeldWorkers(activeJobs)
             ensures At(out, w) == CommittedTo(activeJobs, w)
             ensures w in out <==> InUse(activeJobs, w) {
      AccumulatedAt(activeJobs, w);
      HeldInUse(activeJobs, w);
    }
  }

  lemma CommittedSnoc(js: seq<Job>, j: Job, workerId: string)
    ensures CommittedTo(js + [j], workerId) == Plus(CommittedTo(js, workerId), Holding(j, workerId))
  {
    assert (js + [j])[..|js|] == js;
  }

  lemma {:induction false} CommittedRemove(js: seq<Job>, i: nat, workerId: string)
    requires i < |js|
    ensures CommittedTo(js, workerId)
         == Plus(CommittedTo(js[..i] + js[i + 1..], workerId), Holding(js[i], workerId))
  {
    var n := |js| - 1;
    var rest := js[..i] + js[i + 1..];
    if i == n {
      assert rest == js[..n];
    } else {
      CommittedRemove(js[..n], i, workerId);
      assert js[..n][..i] + js[..n][i + 1..] == rest[..n - 1];
      assert rest[n - 1] == js[n];
    }
  }

  /** A request, so many times. */
  function Multiple(n: nat, r: Resources): Load
  {
    if n == 0 then Load(0, 0.0, 0)
    else
      var l := Multiple(n - 1, r);
      Load(l.gpus + r.gpuCount, l.cpu + r.cpuCores, l.memory + r.memoryBytes)
  }

  lemma MultipleNext(n: nat, r: Resources)
    ensures Multiple(n + 1, r).gpus == Multiple(n, r).gpus + r.gpuCount
    ensures Multiple(n + 1, r).cpu == Multiple(n, r).cpu + r.cpuCores
    ensures Multiple(n + 1, r).memory == Multiple(n, r).memory + r.memoryBytes
  {
  }

  lemma CountLast(ids: seq<string>, id: string)
    requires ids != []
    ensures multiset(ids)[id] == multiset(ids[..|ids| - 1])[id] + if ids[|ids| - 1] == id then 1 else 0
  {
    assert ids == ids[..|ids| - 1] + [ids[|ids| - 1]];
  }

  lemma {:induction false} ShareCounts(ids: seq<string>, workerId: string, r: Resources)
    ensures Share(ids, workerId, r).gpus == Multiple(multiset(ids)[workerId], r).gpus
    ensures Share(ids, workerId, r).cpu == Multiple(multiset(ids)[workerId], r).cpu
    ensures Share(ids, workerId, r).memory == Multiple(multiset(ids)[workerId], r).memory
  {
    if ids != [] {
      var m := |ids| - 1;
      ShareCounts(ids[..m], workerId, r);
      CountLast(ids, workerId);
      MultipleNext(multiset(ids[..m])[workerId], r);
    }
  }

  /** A job adds its request to what its workers have committed exactly while it
      is SCHEDULED, RUNNING or CHECKPOINTING, once for each mention of the worker,
      and otherwise nothing. */
  lemma CommittedOneMore(js: seq<Job>, j: Job, workerId: string)
    ensures CommittedTo([], workerId) == Load(0, 0.0, 0)
    ensures var x, l, m := Multiple(Times(j, workerId), j.resources), CommittedTo(js, workerId), CommittedTo(js + [j], workerId);
      m.gpus == l.gpus + x.gpus && m.cpu == l.cpu + x.cpu && m.memory == l.memory + x.memory
  {
    CommittedSnoc(js, j, workerId);
    ShareCounts(j.assignedWorkerIds, workerId, j.resources);
  }

  /** The sums do not depend on the order of the jobs. */
  lemma {:induction false} CommittedCommutes(js: seq<Job>, ks: seq<Job>, workerId: string)
    requires multiset(js) == multiset(ks)
    ensures CommittedTo(js, workerId) == CommittedTo(ks, workerId)
  {
    SameElements(js, ks);
    if js != [] {
      var n := |js| - 1;
      assert js == js[..n] + [js[n]];
      assert js[n] in ks;
      var i :| 0 <= i < |ks| && ks[i] == js[n];
      var rest := ks[..i] + ks[i + 1..];
      assert ks == ks[..i] + [ks[i]] + ks[i + 1..];
      assert multiset(js[..n]) == multiset(js) - multiset{js[n]};
      assert multiset(rest) == multiset(ks) - multiset{ks[i]};
      CommittedCommutes(js[..n], rest, workerId);
      CommittedRemove(ks, i, workerId);
    }
  }

  lemma CommittedCanonical(js: seq<Job>, ks: seq<Job>)
    requires multiset(js) == multiset(ks)
    ensures Committed(js) == Committed(ks)
  {
    SameElements(js, ks);
    assert HeldWorkers(js) == HeldWorkers(ks);
    forall w | w in HeldWorkers(js) ensures Committed(js)[w] == Committed(ks)[w] {
      CommittedCommutes(js, ks, w);
    }
  }

  /** Devices with at least the given memory. */
  function Qualifying(gpus: seq<Gpu>, minMemoryBytes: int): nat
  {
    if gpus == [] then 0
    else
      Qualifying(gpus[..|gpus| - 1], minMemoryBytes)
      + if gpus[|gpus| - 1].totalMemoryBytes >= minMemoryBytes then 1 else 0
  }

  function FreeGpus(w: Worker, minMemoryBytes: int, committedGpus: int): int
  {
    var free := Qualifying(w.gpus, minMemoryBytes) - committedGpus;
    if free < 0 then 0 else free
  }

  /** The counting loop; the count is that of the devices meeting the bar. */
  method FreeGpuCount(w: Worker, minMemoryBytes: int, committedGpus: int) returns (free: int)
    ensures free == FreeGpus(w, minMemoryBytes, committedGpus)
    ensures free >= 0
    ensures var able := AbleDevices(w.gpus, minMemoryBytes);
      free == if |able| >= committedGpus then |able| - committedGpus else 0
  {
    var qualifying := 0;
    for i := 0 to |w.gpus|
      invariant qualifying == Qualifying(w.gpus[..i], minMemoryBytes)
    {
      assert w.gpus[..i + 1][..i] == w.gpus[..i];
      if w.gpus[i].totalMemoryBytes >= minMemoryBytes { qualifying := qualifying + 1; }
    }
    assert w.gpus[..|w.gpus|] == w.gpus;
    QualifyingCounts(w.gpus, minMemoryBytes);
    free := qualifying - committedGpus;
    if free < 0 { free := 0; }
  }

  function AbleDevices(gpus: seq<Gpu>, minMemoryBytes: int): set<int>
  {
    set i | 0 <= i < |gpus| && gpus[i].totalMemoryBytes >= minMemoryBytes
  }

  lemma {:induction false} QualifyingCounts(gpus: seq<Gpu>, minMemoryBytes: int)
    ensures Qualifying(gpus, minMemoryBytes) == |AbleDevices(gpus, minMemoryBytes)|
  {
    if gpus != [] {
      var n := |gpus| - 1;
      QualifyingCounts(gpus[..n], minMemoryBytes);
      var init := AbleDevices(gpus[..n], minMemoryBytes);
      assert AbleDevices(gpus, minMemoryBytes)
          == if gpus[n].totalMemoryBytes >= minMemoryBytes then init + {n} else init;
    }
  }

  /** A higher bar never qualifies more devices. */
  lemma {:induction false} QualifyingAntitone(gpus: seq<Gpu>, low: int, high: int)
    requires low <= high
    ensures Qualifying(gpus, high) <= Qualifying(gpus, low)
  {
    if gpus != [] { QualifyingAntitone(gpus[..|gpus| - 1], low, high); }
  }
}

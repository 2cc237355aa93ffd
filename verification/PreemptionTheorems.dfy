/** What the second scheduling pass guarantees, for every snapshot. */
module PreemptionTheorems {
  import opened Records
  import opened Options
  import opened Sorting
  import opened Capacity
  import opened Fairness
  import opened Planner
  import opened PlannerTheorems
  import opened Preemption
  import TextOrder

  // The candidates of one worker.

  lemma {:induction false} CopiesAre(j: Job, ids: seq<string>, w: string)
    ensures forall x :: x in Copies(j, ids, w) <==> x == j && w in ids
  {
    if ids != [] {
      assert ids == ids[..|ids| - 1] + [ids[|ids| - 1]];
      CopiesAre(j, ids[..|ids| - 1], w);
    }
  }

  lemma {:induction false} PoolMembers(js: seq<Job>, w: string)
    ensures forall j :: j in Pool(js, w) <==> j in js && j.state.Running? && j.preemptible && w in j.assignedWorkerIds
  {
    if js != [] {
      var n := |js| - 1;
      assert js == js[..n] + [js[n]];
      PoolMembers(js[..n], w);
      CopiesAre(js[n], js[n].assignedWorkerIds, w);
    }
  }

  /** Weakest first: aged priorities never decrease along the candidates, and
      neither do IDs where they are the same. */
  ghost predicate Ascending(cands: seq<Job>, now: int)
  {
    forall i, j :: 0 <= i < j < |cands| ==>
      var a := EffectivePriority(cands[i].priority, cands[i].createdAt, now);
      var b := EffectivePriority(cands[j].priority, cands[j].createdAt, now);
      a <= b && (a == b ==> !TextOrder.Less(cands[j].id, cands[i].id))
  }

  lemma WeaknessIsOrder(js: seq<Job>, pool: seq<Job>, now: int)
    requires DistinctBy(js, JobId) && forall j :: j in pool ==> j in js
    ensures StrictOrderOn(ByWeakness(now), pool)
  {
    forall a | a in pool ensures !Weaker(a, a, now) { TextOrder.LessIrreflexive(a.id); }
    forall a, b, c | a in pool && b in pool && c in pool && Weaker(a, b, now) && Weaker(b, c, now)
      ensures Weaker(a, c, now)
    {
      if TextOrder.Less(a.id, b.id) && TextOrder.Less(b.id, c.id) {
        TextOrder.LessTransitive(a.id, b.id, c.id);
      }
    }
    forall a, b | a in pool && b in pool && a != b ensures Weaker(a, b, now) || Weaker(b, a, now) {
      assert a in js && b in js && JobId(a) != JobId(b);
      TextOrder.LessTotal(a.id, b.id);
    }
  }

  lemma RankedCandidates(js: seq<Job>, w: string, now: int)
    requires DistinctBy(js, JobId)
    ensures forall j :: j in Ranked(js, w, now) <==> j in js && j.state.Running? && j.preemptible && w in j.assignedWorkerIds
    ensures Sorted(Ranked(js, w, now), ByWeakness(now))
    ensures Ascending(Ranked(js, w, now), now)
  {
    PoolMembers(js, w);
    WeaknessIsOrder(js, Pool(js, w), now);
    SortSorted(Pool(js, w), ByWeakness(now));
    SameElements(Ranked(js, w, now), Pool(js, w));
    var cands := Ranked(js, w, now);
    assert forall i, j :: 0 <= i < j < |cands| ==> !ByWeakness(now)(cands[j], cands[i]);
  }

  // The scan takes the shortest sufficing prefix.

  function Total(js: seq<Job>): Load
  {
    if js == [] then NOTHING else Plus(Total(js[..|js| - 1]), Demand(js[|js| - 1].resources))
  }

  function EligibleFor(preempted: set<string>, bar: int, now: int): Job -> bool
  {
    (j: Job) => j.id !in preempted && Aged(j, now) < bar
  }

  /** The first `n` of `elig` suffice or are all there is, and no fewer do. */
  ghost predicate ShortestPrefix(elig: seq<Job>, n: nat, r: Resources, free: Load)
  {
    && n <= |elig|
    && (forall m :: 0 <= m < n ==> !Enough(r, free, Total(elig[..m])))
    && (Enough(r, free, Total(elig[..n])) || n == |elig|)
  }

  /** The state of the scan before candidate `i`. */
  ghost predicate ScanInvariant(elig: seq<Job>, r: Resources, free: Load, h: Haul)
  {
    && h.victims <= elig
    && h.freed == Total(h.victims)
    && (forall m :: 0 <= m <= |h.victims| ==> !Enough(r, free, Total(elig[..m])))
  }

  /** What the scan hands over: a shortest sufficing prefix, or everything. */
  ghost predicate ScanResult(elig: seq<Job>, r: Resources, free: Load, h: Haul)
  {
    && h.victims <= elig
    && h.freed == Total(h.victims)
    && ShortestPrefix(elig, |h.victims|, r, free)
  }

  lemma ScanExhausted(elig: seq<Job>, r: Resources, free: Load, h: Haul)
    requires ScanInvariant(elig, r, free, h) && h.victims == elig
    ensures ScanResult(elig, r, free, h)
  {
  }

  lemma ScanTakes(elig: seq<Job>, r: Resources, free: Load, h: Haul, c: Job)
    requires ScanInvariant(elig, r, free, h) && h.victims + [c] <= elig
    ensures if Enough(r, free, Take(h, c).freed) then ScanResult(elig, r, free, Take(h, c))
            else ScanInvariant(elig, r, free, Take(h, c))
  {
    var g := Take(h, c);
    assert g.victims[..|h.victims|] == h.victims;
    assert elig[..|g.victims|] == g.victims;
  }

  lemma ScanDrop(cands: seq<Job>, i: nat, preempted: set<string>, bar: int, now: int, r: Resources, free: Load, h: Haul)
    requires i < |cands|
    ensures Scan(cands[i..], preempted, bar, now, r, free, h) ==
      if cands[i].id in preempted then Scan(cands[i + 1..], preempted, bar, now, r, free, h)
      else if Aged(cands[i], now) >= bar then h
      else if Enough(r, free, Take(h, cands[i]).freed) then Take(h, cands[i])
      else Scan(cands[i + 1..], preempted, bar, now, r, free, Take(h, cands[i]))
  {
    assert cands[i..][0] == cands[i] && cands[i..][1..] == cands[i + 1..];
  }

  lemma {:induction false} ScanFrom(cands: seq<Job>, i: nat, preempted: set<string>, bar: int, now: int,
                                    r: Resources, free: Load, h: Haul)
    requires i <= |cands| && Ascending(cands, now)
    requires h.victims == Filter(cands[..i], EligibleFor(preempted, bar, now))
    requires ScanInvariant(Filter(cands, EligibleFor(preempted, bar, now)), r, free, h)
    ensures ScanResult(Filter(cands, EligibleFor(preempted, bar, now)), r, free,
                       Scan(cands[i..], preempted, bar, now, r, free, h))
    decreases |cands| - i
  {
    var p := EligibleFor(preempted, bar, now);
    var elig := Filter(cands, p);
    if i == |cands| {
      assert cands[..i] == cands;
      ScanExhausted(elig, r, free, h);
    } else {
      var c := cands[i];
      ScanDrop(cands, i, preempted, bar, now, r, free, h);
      FilterSnoc(cands, i, p);
      if c.id in preempted {
        ScanFrom(cands, i + 1, preempted, bar, now, r, free, h);
      } else if Aged(c, now) >= bar {
        FilterNoneAfter(cands, i, p);
        ScanExhausted(elig, r, free, h);
      } else {
        FilterPrefix(cands, i + 1, p);
        ScanTakes(elig, r, free, h, c);
        if !Enough(r, free, Take(h, c).freed) {
          ScanFrom(cands, i + 1, preempted, bar, now, r, free, Take(h, c));
        }
      }
    }
  }

  /** The candidates of `w` a pending job may displace, weakest first. */
  function Displaceable(job: Job, w: Worker, js: seq<Job>, now: int, p: Pass): seq<Job>
  {
    Filter(Ranked(js, w.id, now), EligibleFor(p.preempted, Aged(job, now), now))
  }

  function FreeFor(job: Job, w: Worker, p: Pass): Load
  {
    Free(job.resources, w, At(p.ledger, w.id))
  }

  lemma ScanIsShortest(job: Job, w: Worker, js: seq<Job>, now: int, p: Pass)
    requires DistinctBy(js, JobId)
    requires !Enough(job.resources, FreeFor(job, w, p), NOTHING)
    ensures ScanResult(Displaceable(job, w, js, now, p), job.resources, FreeFor(job, w, p),
                       ScanFor(job, w, js, now, p))
  {
    var cands := Ranked(js, w.id, now);
    RankedCandidates(js, w.id, now);
    assert cands[0..] == cands && cands[..0] == [];
    ScanFrom(cands, 0, p.preempted, Aged(job, now), now, job.resources, FreeFor(job, w, p), NO_HAUL);
  }

  // One pending job.

  /** Not even stopping every candidate it may displace would make room. */
  ghost predicate Hopeless(job: Job, w: Worker, js: seq<Job>, now: int, p: Pass)
  {
    w.status.Active? ==>
      !Enough(job.resources, FreeFor(job, w, p), Total(Displaceable(job, w, js, now, p)))
  }

  /** `victims` are the fewest of the weakest displaceable jobs of `w` that
      make enough room. */
  ghost predicate Rescues(job: Job, w: Worker, js: seq<Job>, now: int, p: Pass, victims: seq<Job>)
  {
    var elig := Displaceable(job, w, js, now, p);
    && w.status.Active?
    && victims != [] && victims <= elig
    && Enough(job.resources, FreeFor(job, w, p), Total(victims))
    && forall m :: 0 <= m < |victims| ==> !Enough(job.resources, FreeFor(job, w, p), Total(elig[..m]))
  }

  lemma TryWorkerOutcome(job: Job, w: Worker, js: seq<Job>, now: int, p: Pass)
    requires DistinctBy(js, JobId)
    ensures var h := ScanFor(job, w, js, now, p);
      match TryWorker(job, w, js, now, p)
      case None => Hopeless(job, w, js, now, p)
      case Some(q) =>
        if Fits(job.resources, w, At(p.ledger, w.id)) then q == p
        else Rescues(job, w, js, now, p, h.victims) && h.freed == Total(h.victims) && q == Emit(p, job, w, h)
  {
    if w.status.Active? && !Fits(job.resources, w, At(p.ledger, w.id)) {
      ScanIsShortest(job, w, js, now, p);
      var h, elig := ScanFor(job, w, js, now, p), Displaceable(job, w, js, now, p);
      assert elig[..|h.victims|] == h.victims;
      assert |h.victims| == |elig| ==> h.victims == elig;
    }
  }

  lemma PassedOverIsHopeless(job: Job, w: Worker, js: seq<Job>, now: int, p: Pass)
    requires DistinctBy(js, JobId) && TryWorker(job, w, js, now, p).None?
    ensures Hopeless(job, w, js, now, p)
  {
    TryWorkerOutcome(job, w, js, now, p);
  }

  /** Workers are tried in order: those before the one that settles the matter
      are hopeless, and if that one has no room yet, its shortest sufficing
      prefix is stopped; if all are hopeless nothing happens. */
  lemma {:induction false} TryWorkersOutcome(job: Job, ws: seq<Worker>, js: seq<Job>, now: int, p: Pass) returns (k: nat)
    requires DistinctBy(js, JobId)
    ensures k <= |ws|
    ensures forall e :: 0 <= e < k ==> Hopeless(job, ws[e], js, now, p)
    ensures if k == |ws| then TryWorkers(job, ws, js, now, p) == p
            else TryWorker(job, ws[k], js, now, p) == Some(TryWorkers(job, ws, js, now, p))
  {
    k := 0;
    if ws != [] {
      if TryWorker(job, ws[0], js, now, p).None? {
        PassedOverIsHopeless(job, ws[0], js, now, p);
        var m := TryWorkersOutcome(job, ws[1..], js, now, p);
        k := m + 1;
        assert forall e :: 0 < e < k ==> ws[e] == ws[1..][e - 1];
      }
    }
  }

  lemma DisplaceableAre(job: Job, w: Worker, js: seq<Job>, now: int, p: Pass, v: Job)
    requires DistinctBy(js, JobId) && v in Displaceable(job, w, js, now, p)
    ensures v in js && v.state.Running? && v.preemptible && w.id in v.assignedWorkerIds
    ensures EffectivePriority(v.priority, v.createdAt, now) < EffectivePriority(job.priority, job.createdAt, now)
    ensures v.id !in p.preempted
  {
    RankedCandidates(js, w.id, now);
    FilterElements(Ranked(js, w.id, now), EligibleFor(p.preempted, Aged(job, now), now));
  }

  /** Every pending job leaves the pass as it was, or stops jobs of one active
      worker: running, preemptible, strictly weaker than the pending job, not
      stopped before in the pass, and the shortest sufficing prefix of what is
      left of that worker's candidates. */
  lemma VictimsAreRight(js: seq<Job>, ws: seq<Worker>, queue: seq<Job>, now: int, start: Ledger, i: nat)
    returns (w: Worker, victims: seq<Job>)
    requires DistinctBy(js, JobId) && i < |queue|
    ensures var p, q := PassOver(queue[..i], ws, js, now, start), PassOver(queue[..i + 1], ws, js, now, start);
      q == p || (
        && w in ws && Rescues(queue[i], w, js, now, p, victims)
        && q == Emit(p, queue[i], w, Haul(victims, Total(victims)))
        && forall v :: v in victims ==>
             && v in js && v.state.Running? && v.preemptible && w.id in v.assignedWorkerIds
             && EffectivePriority(v.priority, v.createdAt, now) < EffectivePriority(queue[i].priority, queue[i].createdAt, now)
             && v.id !in p.preempted)
  {
    var p := PassOver(queue[..i], ws, js, now, start);
    PassOverSnoc(queue, i, ws, js, now, start);
    var k := TryWorkersOutcome(queue[i], ws, js, now, p);
    if k < |ws| {
      w, victims := ws[k], ScanFor(queue[i], ws[k], js, now, p).victims;
      TryWorkerOutcome(queue[i], w, js, now, p);
      if !Fits(queue[i].resources, w, At(p.ledger, w.id)) {
        forall v | v in victims
          ensures v in js && v.state.Running? && v.preemptible && w.id in v.assignedWorkerIds
          ensures EffectivePriority(v.priority, v.createdAt, now) < EffectivePriority(queue[i].priority, queue[i].createdAt, now)
          ensures v.id !in p.preempted
        {
          DisplaceableAre(queue[i], w, js, now, p, v);
        }
      }
    } else {
      w, victims := Worker("", LostWorker, 0.0, 0, []), [];
    }
  }

  // No job is stopped twice.

  ghost predicate NoRepeats(ids: seq<string>)
  {
    forall i, k :: 0 <= i < k < |ids| ==> ids[i] != ids[k]
  }

  ghost predicate StopsDistinct(stops: seq<Stop>)
  {
    forall i, k :: 0 <= i < k < |stops| ==> stops[i].jobId != stops[k].jobId
  }

  lemma {:induction false} CopiedOnce(j: Job, ids: seq<string>, w: string)
    requires NoRepeats(ids)
    ensures |Copies(j, ids, w)| <= 1
    ensures w !in ids ==> Copies(j, ids, w) == []
  {
    if ids != [] {
      CopiedOnce(j, ids[..|ids| - 1], w);
      assert ids[|ids| - 1] !in ids[..|ids| - 1];
    }
  }

  lemma OneCopy(j: Job, w: string)
    requires NoRepeats(j.assignedWorkerIds)
    ensures Copies(j, j.assignedWorkerIds, w) == [] || Copies(j, j.assignedWorkerIds, w) == [j]
  {
    var copies := Copies(j, j.assignedWorkerIds, w);
    CopiesAre(j, j.assignedWorkerIds, w);
    CopiedOnce(j, j.assignedWorkerIds, w);
    if copies != [] { assert copies[0] in copies; }
  }

  lemma NewToPool(js: seq<Job>, n: nat, w: string)
    requires DistinctBy(js, JobId) && n < |js|
    ensures forall j :: j in Pool(js[..n], w) ==> JobId(j) != JobId(js[n])
  {
    PoolMembers(js[..n], w);
    forall j | j in Pool(js[..n], w) ensures JobId(j) != JobId(js[n]) {
      var i :| 0 <= i < n && js[i] == j;
    }
  }

  lemma {:induction false} PoolDistinct(js: seq<Job>, w: string)
    requires DistinctBy(js, JobId) && forall j :: j in js ==> NoRepeats(j.assignedWorkerIds)
    ensures DistinctBy(Pool(js, w), JobId)
  {
    if js != [] {
      var n := |js| - 1;
      assert js == js[..n] + [js[n]];
      PoolDistinct(js[..n], w);
      NewToPool(js, n, w);
      OneCopy(js[n], w);
      DistinctSnoc(Pool(js[..n], w), js[n], JobId);
    }
  }

  lemma DisplaceableDistinct(job: Job, w: Worker, js: seq<Job>, now: int, p: Pass)
    requires DistinctBy(js, JobId) && forall j :: j in js ==> NoRepeats(j.assignedWorkerIds)
    ensures DistinctBy(Displaceable(job, w, js, now, p), JobId)
  {
    PoolDistinct(js, w.id);
    RearrangedDistinct(Pool(js, w.id), Ranked(js, w.id, now), JobId);
    FilterDistinct(Ranked(js, w.id, now), EligibleFor(p.preempted, Aged(job, now), now), JobId);
  }

  lemma {:induction false} StopsOf(victims: seq<Job>, workerId: string, reason: string)
    ensures |Stops(victims, workerId, reason)| == |victims|
    ensures forall i :: 0 <= i < |victims| ==> Stops(victims, workerId, reason)[i] == Stop(victims[i].id, workerId, reason)
  {
    if victims != [] { StopsOf(victims[..|victims| - 1], workerId, reason); }
  }

  /** Stopping jobs for a pending one adds their stops, in order, with a reason
      that names it, marks them, and takes their requests off the worker's load
      and no other. */
  lemma EmitReports(p: Pass, job: Job, w: Worker, victims: seq<Job>)
    ensures var q := Emit(p, job, w, Haul(victims, Total(victims)));
      && |q.stops| == |p.stops| + |victims| && p.stops <= q.stops
      && (var reason := "preempted to free resources for higher-priority job " + job.id;
          forall k :: 0 <= k < |victims| ==> q.stops[|p.stops| + k] == Stop(victims[k].id, w.id, reason))
      && (forall id :: id in q.preempted <==> id in p.preempted || exists v :: v in victims && v.id == id)
      && At(q.ledger, w.id).gpus == At(p.ledger, w.id).gpus - Total(victims).gpus
      && At(q.ledger, w.id).cpu == At(p.ledger, w.id).cpu - Total(victims).cpu
      && At(q.ledger, w.id).memory == At(p.ledger, w.id).memory - Total(victims).memory
      && forall other :: other != w.id ==> At(q.ledger, other) == At(p.ledger, other)
  {
    StopsOf(victims, w.id, StopReason(job.id));
  }

  /** The jobs recorded as stopped are those of the stops made so far. */
  ghost predicate PassConsistent(p: Pass)
  {
    && StopsDistinct(p.stops)
    && forall s :: s in p.stops ==> s.jobId in p.preempted
  }

  lemma EmitConsistent(p: Pass, job: Job, w: Worker, h: Haul)
    requires PassConsistent(p) && DistinctBy(h.victims, JobId)
    requires forall v :: v in h.victims ==> v.id !in p.preempted
    ensures PassConsistent(Emit(p, job, w, h))
  {
    var q := Emit(p, job, w, h);
    StopsOf(h.victims, w.id, StopReason(job.id));
    var n := |p.stops|;
    forall i, k | 0 <= i < k < |q.stops| ensures q.stops[i].jobId != q.stops[k].jobId {
      if k >= n {
        assert h.victims[k - n] in h.victims;
        if i >= n {
          assert JobId(h.victims[i - n]) != JobId(h.victims[k - n]);
        } else {
          assert p.stops[i] in p.stops;
        }
      }
    }
    forall s | s in q.stops ensures s.jobId in q.preempted {
      if s !in p.stops {
        var k :| n <= k < |q.stops| && q.stops[k] == s;
        assert h.victims[k - n] in h.victims;
      }
    }
  }

  /** No job is stopped twice in a pass. */
  lemma {:induction false} NeverStoppedTwice(js: seq<Job>, ws: seq<Worker>, queue: seq<Job>, now: int, start: Ledger)
    requires DistinctBy(js, JobId) && forall j :: j in js ==> NoRepeats(j.assignedWorkerIds)
    ensures PassConsistent(PassOver(queue, ws, js, now, start))
  {
    if queue != [] {
      var n := |queue| - 1;
      assert queue[..n + 1] == queue;
      NeverStoppedTwice(js, ws, queue[..n], now, start);
      var p := PassOver(queue[..n], ws, js, now, start);
      var w, victims := VictimsAreRight(js, ws, queue, now, start, n);
      if PassOver(queue, ws, js, now, start) != p {
        assert DistinctBy(victims, JobId) by { DisplaceableDistinct(queue[n], w, js, now, p); }
        EmitConsistent(p, queue[n], w, Haul(victims, Total(victims)));
      }
    }
  }

  // After the first pass.

  lemma {:induction false} FindUnique(js: seq<Job>, j: Job)
    requires DistinctBy(js, JobId) && j in js
    ensures Find(js, j.id) == Some(j)
  {
    if js[0].id == j.id {
      assert JobId(js[0]) == JobId(j);
    } else {
      FindUnique(js[1..], j);
    }
  }

  lemma RebuiltPlace(js: seq<Job>, ws: seq<Worker>, p: Progress, j: Job)
    requires DistinctBy(js, JobId) && j in js && Rebuilt(js, p.assignments) == p.ledger
    ensures Rebuilt(js, Place(p, j, ws).assignments) == Place(p, j, ws).ledger
  {
    var q := Place(p, j, ws);
    if q.assignments != p.assignments {
      assert q.assignments[..|p.assignments|] == p.assignments;
      FindUnique(js, j);
    }
  }

  lemma {:induction false} RebuiltAgrees(js: seq<Job>, ws: seq<Worker>, queue: seq<Job>)
    requires DistinctBy(js, JobId) && forall j :: j in queue ==> j in js
    ensures Rebuilt(js, PlaceAll(queue, ws, Committed(js)).assignments) == PlaceAll(queue, ws, Committed(js)).ledger
  {
    if queue != [] {
      var n := |queue| - 1;
      RebuiltAgrees(js, ws, queue[..n]);
      assert queue[n] in queue;
      RebuiltPlace(js, ws, PlaceAll(queue[..n], ws, Committed(js)), queue[n]);
    }
  }

  /** Given the first pass's own assignments, the second starts from exactly
      the accounting the first ended with. */
  lemma StartsWherePlanEnded(js: seq<Job>, ws: seq<Worker>, now: int)
    requires DistinctBy(js, JobId)
    ensures Rebuilt(js, Planned(js, ws, now).assignments) == Planned(js, ws, now).ledger
  {
    RebuiltAgrees(js, ws, Queue(js, now));
  }

  lemma PendingAre(js: seq<Job>, placed: seq<Assignment>, now: int)
    ensures forall j :: j in Pending(js, placed, now) <==> j in js && j.state.Queued? && !Placed(placed, j.id)
  {
    var p := Unplaced(PlacedIds(placed));
    FilterElements(js, p);
    SameElements(Pending(js, placed, now), Filter(js, p));
    forall j: Job ensures j.id in PlacedIds(placed) <==> Placed(placed, j.id) {}
  }

  /** Pending jobs are considered in the order of the first pass. */
  lemma PendingOrdered(js: seq<Job>, placed: seq<Assignment>, now: int)
    requires DistinctBy(js, JobId)
    ensures DistinctBy(Pending(js, placed, now), JobId) && HighestFirst(Pending(js, placed, now), now)
  {
    var pending := Filter(js, Unplaced(PlacedIds(placed)));
    FilterDistinct(js, Unplaced(PlacedIds(placed)), JobId);
    PriorityIsOrder(pending, now);
    SortSorted(pending, ByPriority(now));
    RearrangedDistinct(pending, Pending(js, placed, now), JobId);
    SortedHighestFirst(Pending(js, placed, now), now);
  }

  /** What counts as enough room on a worker with load `l` once `freed` is freed. */
  lemma EnoughMeans(r: Resources, w: Worker, l: Load, freed: Load)
    ensures Enough(r, Free(r, w, l), freed) <==>
      && l.cpu + r.cpuCores <= w.cpuCapacity + freed.cpu
      && l.memory + r.memoryBytes <= w.memoryCapacityBytes + freed.memory
      && (var able := |AbleDevices(w.gpus, r.minGpuMemoryBytes)|;
          r.gpuCount <= freed.gpus + if able >= l.gpus then able - l.gpus else 0)
  {
    QualifyingCounts(w.gpus, r.minGpuMemoryBytes);
  }

  /** No pending job fits any worker when the second pass begins. */
  lemma NothingFitsAtFirst(js: seq<Job>, ws: seq<Worker>, now: int, j: Job, w: Worker)
    requires DistinctBy(js, JobId) && ValidRequests(js) && w in ws
    requires j in Pending(js, Planned(js, ws, now).assignments, now)
    ensures !Fits(j.resources, w, At(Rebuilt(js, Planned(js, ws, now).assignments), w.id))
  {
    StartsWherePlanEnded(js, ws, now);
    PendingAre(js, Planned(js, ws, now).assignments, now);
    WorkConserving(js, ws, now, j, w);
  }

  ghost predicate StoppedOn(p: Pass, workerId: string)
  {
    exists s :: s in p.stops && s.workerId == workerId
  }

  /** A worker on which nothing was stopped is accounted as at the start. */
  lemma {:induction false} UntouchedWithoutStops(js: seq<Job>, ws: seq<Worker>, queue: seq<Job>, now: int, start: Ledger, id: string)
    requires DistinctBy(js, JobId)
    requires !StoppedOn(PassOver(queue, ws, js, now, start), id)
    ensures At(PassOver(queue, ws, js, now, start).ledger, id) == At(start, id)
  {
    if queue != [] {
      var n := |queue| - 1;
      assert queue[..n + 1] == queue;
      var p, q := PassOver(queue[..n], ws, js, now, start), PassOver(queue, ws, js, now, start);
      var w, victims := VictimsAreRight(js, ws, queue, now, start, n);
      if q != p {
        StopsOf(victims, w.id, StopReason(queue[n].id));
        assert q.stops[|p.stops|] in q.stops;
        assert forall s :: s in p.stops ==> s in q.stops;
      }
      UntouchedWithoutStops(js, ws, queue[..n], now, start, id);
    }
  }

  /** When the second pass finds that a pending job fits a worker as things
      stand, a job has been stopped on that worker earlier in the same pass. */
  lemma RoomOnlyAfterAStop(js: seq<Job>, ws: seq<Worker>, now: int, i: nat, w: Worker)
    requires DistinctBy(js, JobId) && ValidRequests(js) && w in ws
    requires i < |Pending(js, Planned(js, ws, now).assignments, now)|
    requires var placed := Planned(js, ws, now).assignments;
      var queue := Pending(js, placed, now);
      Fits(queue[i].resources, w, At(PassOver(queue[..i], ws, js, now, Rebuilt(js, placed)).ledger, w.id))
    ensures var placed := Planned(js, ws, now).assignments;
      StoppedOn(PassOver(Pending(js, placed, now)[..i], ws, js, now, Rebuilt(js, placed)), w.id)
  {
    var placed := Planned(js, ws, now).assignments;
    var queue := Pending(js, placed, now);
    NothingFitsAtFirst(js, ws, now, queue[i], w);
    if !StoppedOn(PassOver(queue[..i], ws, js, now, Rebuilt(js, placed)), w.id) {
      UntouchedWithoutStops(js, ws, queue[..i], now, Rebuilt(js, placed), w.id);
      assert false;
    }
  }

  // What stopping a prefix frees.

  /** The first `n` candidates make enough room, and no fewer of the first do. */
  ghost predicate Suffices(cands: seq<Job>, n: nat, r: Resources, free: Load)
  {
    ShortestPrefix(cands, n, r, free) && Enough(r, free, Total(cands[..n]))
  }

  lemma TotalSnoc(js: seq<Job>, j: Job)
    ensures Total(js + [j]) == Plus(Total(js), Demand(j.resources))
  {
    assert (js + [j])[..|js|] == js;
  }

  lemma TotalNext(js: seq<Job>, i: nat)
    requires i < |js|
    ensures Total(js[..i + 1]) == Plus(Total(js[..i]), Demand(js[i].resources))
  {
    assert js[..i + 1] == js[..i] + [js[i]];
    TotalSnoc(js[..i], js[i]);
  }

  lemma {:induction false} TotalsGrow(js: seq<Job>, i: nat, k: nat)
    requires ValidRequests(js) && i <= k <= |js|
    ensures Total(js[..i]).AtMost(Total(js[..k]))
  {
    if i < k {
      TotalsGrow(js, i, k - 1);
      TotalNext(js, k - 1);
      assert js[k - 1] in js;
    }
  }

  lemma {:induction false} TotalNonNegative(js: seq<Job>)
    requires ValidRequests(js)
    ensures NOTHING.AtMost(Total(js))
  {
    if js != [] {
      assert js == js[..|js| - 1] + [js[|js| - 1]];
      TotalNonNegative(js[..|js| - 1]);
    }
  }

  /** The pass only ever takes from a worker's load. */
  lemma {:induction false} LoadsFall(js: seq<Job>, ws: seq<Worker>, queue: seq<Job>, now: int, start: Ledger, i: nat, id: string)
    requires DistinctBy(js, JobId) && ValidRequests(js) && i <= |queue|
    ensures At(PassOver(queue, ws, js, now, start).ledger, id).AtMost(
              At(PassOver(queue[..i], ws, js, now, start).ledger, id))
  {
    var n := |queue| - 1;
    if i == |queue| {
      assert queue[..i] == queue;
    } else {
      assert queue[..n + 1] == queue && queue[..n][..i] == queue[..i];
      LoadsFall(js, ws, queue[..n], now, start, i, id);
      var p, q := PassOver(queue[..n], ws, js, now, start), PassOver(queue, ws, js, now, start);
      var w, victims := VictimsAreRight(js, ws, queue, now, start, n);
      if q != p {
        TotalNonNegative(victims);
        EmitTakes(p, queue[n], w, Haul(victims, Total(victims)), id);
      }
    }
  }

  lemma EmitTakes(p: Pass, job: Job, w: Worker, h: Haul, id: string)
    requires NOTHING.AtMost(h.freed)
    ensures At(Emit(p, job, w, h).ledger, id).AtMost(At(p.ledger, id))
  {
  }

  /** A sufficing prefix is what the code stops. */
  lemma TryWorkerSuffices(job: Job, w: Worker, js: seq<Job>, now: int, p: Pass, n: nat)
    requires DistinctBy(js, JobId) && w.status.Active? && n > 0
    requires Suffices(Displaceable(job, w, js, now, p), n, job.resources, FreeFor(job, w, p))
    ensures var c := Displaceable(job, w, js, now, p);
      TryWorker(job, w, js, now, p) == Some(Emit(p, job, w, Haul(c[..n], Total(c[..n]))))
  {
    var c, h := Displaceable(job, w, js, now, p), ScanFor(job, w, js, now, p);
    assert c[..0] == [] && Total([]) == NOTHING;
    assert !Enough(job.resources, FreeFor(job, w, p), NOTHING);
    ScanIsShortest(job, w, js, now, p);
    assert c[..|h.victims|] == h.victims && |h.victims| == n;
  }

  lemma DisplaceableValid(job: Job, w: Worker, js: seq<Job>, now: int, p: Pass)
    requires DistinctBy(js, JobId) && ValidRequests(js)
    ensures ValidRequests(Displaceable(job, w, js, now, p))
  {
    forall v | v in Displaceable(job, w, js, now, p) ensures v.resources.Valid() { DisplaceableAre(job, w, js, now, p, v); }
  }

  /** The same job with another request. */
  function Asking(job: Job, r: Resources): Job { job.(resources := r) }

  predicate WithinCpuAndMemory(w: Worker, l: Load) { l.cpu <= w.cpuCapacity && l.memory <= w.memoryCapacityBytes }

  // A snapshot with one queued job and one worker.

  lemma {:induction false} OnlyOneLeft(js: seq<Job>, p: Job -> bool, job: Job)
    requires DistinctBy(js, JobId) && job in js && p(job) && forall j :: j in js && p(j) ==> j == job
    ensures Filter(js, p) == [job]
  {
    var f := Filter(js, p);
    FilterElements(js, p);
    FilterDistinct(js, p, JobId);
    assert job in f;
    assert |f| >= 2 ==> JobId(f[0]) != JobId(f[1]);
    forall i | 0 <= i < |f| ensures f[i] == job { assert f[i] in f; }
  }

  /** If the job fits nowhere at first, the second pass is one visit to the worker. */
  lemma SoleVisit(js: seq<Job>, job: Job, w: Worker, now: int)
    requires DistinctBy(js, JobId) && job in js && job.state.Queued?
    requires forall j :: j in js && j.state.Queued? ==> j == job
    requires !Fits(job.resources, w, At(Committed(js), w.id))
    ensures PreemptionPass(js, [w], Planned(js, [w], now).assignments, now) ==
      TryWorkers(job, [w], js, now, Pass(Committed(js), {}, []))
  {
    var start := Committed(js);
    OnlyOneLeft(js, IsQueued, job);
    assert Queue(js, now) == [job];
    assert [job][..0] == [];
    SelectBestFit(job.resources, [w], start);
    assert Select(job.resources, [w], start).None?;
    assert PlaceAll([job], [w], start) == Place(PlaceAll([], [w], start), job, [w]);
    assert Planned(js, [w], now) == Progress([], start);
    OnlyOneLeft(js, Unplaced({}), job);
    assert PlacedIds([]) == {};
    assert Pending(js, [], now) == [job];
    assert PassOver([job], [w], js, now, start) == TryWorkers(job, [w], js, now, PassOver([], [w], js, now, start));
  }
}

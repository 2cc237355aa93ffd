/** What the first scheduling pass guarantees, for every snapshot. */
module PlannerTheorems {
  import opened Records
  import opened Sorting
  import opened Capacity
  import opened Fairness
  import opened Planner
  import TextOrder

  ghost predicate Placed(assignments: seq<Assignment>, jobId: string)
  {
    exists a :: a in assignments && a.jobId == jobId
  }

  ghost predicate ValidRequests(js: seq<Job>)
  {
    forall j :: j in js ==> j.resources.Valid()
  }

  // Independence of the order of the snapshot.

  lemma {:induction false} PlaceAllCanonical(queue: seq<Job>, ws: seq<Worker>, vs: seq<Worker>, start: Ledger)
    requires forall w :: w in ws <==> w in vs
    ensures PlaceAll(queue, ws, start) == PlaceAll(queue, vs, start)
  {
    if queue != [] {
      var n := |queue| - 1;
      PlaceAllCanonical(queue[..n], ws, vs, start);
      SelectCanonical(queue[n].resources, ws, vs, PlaceAll(queue[..n], ws, start).ledger);
    }
  }

  lemma QueueCanonical(js: seq<Job>, ks: seq<Job>, now: int)
    requires DistinctBy(js, JobId) && multiset(js) == multiset(ks)
    ensures Queue(js, now) == Queue(ks, now)
  {
    var a, b := Filter(js, IsQueued), Filter(ks, IsQueued);
    FilterCounts(js, IsQueued);
    FilterCounts(ks, IsQueued);
    assert multiset(a) == multiset(b);
    FilterDistinct(js, IsQueued, JobId);
    PriorityIsOrder(a, now);
    SortCanonical(a, b, ByPriority(now));
  }

  /** The plan is a function of the sets of jobs and workers: no arrangement of
      either slice changes a single assignment. */
  lemma PlanCanonical(js: seq<Job>, ks: seq<Job>, ws: seq<Worker>, vs: seq<Worker>, now: int)
    requires DistinctBy(js, JobId)
    requires multiset(js) == multiset(ks) && multiset(ws) == multiset(vs)
    ensures Planned(js, ws, now) == Planned(ks, vs, now)
  {
    QueueCanonical(js, ks, now);
    CommittedCanonical(js, ks);
    SameElements(ws, vs);
    PlaceAllCanonical(Queue(js, now), ws, vs, Committed(js));
  }

  // Who is placed.

  /** `a` takes the job at position `i` to the best-fitting worker at its turn. */
  ghost predicate TakenInTurn(queue: seq<Job>, ws: seq<Worker>, start: Ledger, a: Assignment, i: nat)
  {
    && i < |queue| && a.jobId == queue[i].id && a.reason == "eligible worker found"
    && BestFit(queue[i].resources, ws, PlaceAll(queue[..i], ws, start).ledger, a.workerId)
  }

  /** Every assignment takes a considered job, at its turn, to the worker that
      fits it best then. */
  lemma {:induction false} AssignmentsFromQueue(queue: seq<Job>, ws: seq<Worker>, start: Ledger, a: Assignment)
    requires a in PlaceAll(queue, ws, start).assignments
    ensures exists j :: j in queue && j.id == a.jobId
    ensures exists w :: w in ws && w.id == a.workerId && w.status.Active?
    ensures exists i :: 0 <= i < |queue| && TakenInTurn(queue, ws, start, a, i)
  {
    var n := |queue| - 1;
    var p := PlaceAll(queue[..n], ws, start);
    if a in p.assignments {
      AssignmentsFromQueue(queue[..n], ws, start, a);
      var j :| j in queue[..n] && j.id == a.jobId;
      assert j in queue;
      var i :| 0 <= i < n && TakenInTurn(queue[..n], ws, start, a, i);
      assert queue[..n][..i] == queue[..i];
      assert TakenInTurn(queue, ws, start, a, i);
    } else {
      assert queue[n] in queue;
      SelectBestFit(queue[n].resources, ws, p.ledger);
      assert TakenInTurn(queue, ws, start, a, n);
    }
  }

  lemma PlacedNext(p: Progress, j: Job, ws: seq<Worker>, id: string)
    ensures Placed(Place(p, j, ws).assignments, id) <==>
      Placed(p.assignments, id) || (id == j.id && exists w :: w in ws && Fits(j.resources, w, At(p.ledger, w.id)))
  {
    SelectBestFit(j.resources, ws, p.ledger);
    var chosen, all := Select(j.resources, ws, p.ledger), Place(p, j, ws).assignments;
    if chosen.Some? {
      var a := Assignment(j.id, chosen.value, PLACED_REASON);
      assert all == p.assignments + [a] && a in all;
      assert forall b :: b in all <==> b in p.assignments || b == a;
    }
  }

  /** A job is placed exactly when some worker fits it at its turn. */
  lemma {:induction false} PlacedIff(queue: seq<Job>, ws: seq<Worker>, start: Ledger, i: nat)
    requires DistinctBy(queue, JobId) && i < |queue|
    ensures Placed(PlaceAll(queue, ws, start).assignments, queue[i].id) <==>
            exists w :: w in ws && Fits(queue[i].resources, w, At(PlaceAll(queue[..i], ws, start).ledger, w.id))
  {
    var n := |queue| - 1;
    var init := queue[..n];
    var p := PlaceAll(init, ws, start);
    PlacedNext(p, queue[n], ws, queue[i].id);
    if i < n {
      PlacedIff(init, ws, start, i);
      assert init[..i] == queue[..i];
      assert JobId(queue[i]) != JobId(queue[n]);
    } else {
      forall a | a in p.assignments ensures a.jobId != queue[n].id {
        AssignmentsFromQueue(init, ws, start, a);
        var j :| j in init && j.id == a.jobId;
        assert JobId(j) != JobId(queue[n]);
      }
      assert queue[..i] == init;
    }
  }

  /** No job is assigned twice. */
  lemma {:induction false} AssignedOnce(queue: seq<Job>, ws: seq<Worker>, start: Ledger)
    requires DistinctBy(queue, JobId)
    ensures forall i, k :: 0 <= i < k < |PlaceAll(queue, ws, start).assignments| ==>
      PlaceAll(queue, ws, start).assignments[i].jobId != PlaceAll(queue, ws, start).assignments[k].jobId
  {
    if queue != [] {
      var n := |queue| - 1;
      AssignedOnce(queue[..n], ws, start);
      var p := PlaceAll(queue[..n], ws, start);
      forall a | a in p.assignments ensures a.jobId != queue[n].id {
        AssignmentsFromQueue(queue[..n], ws, start, a);
        var j :| j in queue[..n] && j.id == a.jobId;
        assert JobId(j) != JobId(queue[n]);
      }
    }
  }

  /** The pass only ever adds to a worker's load. */
  lemma {:induction false} LoadsGrow(queue: seq<Job>, ws: seq<Worker>, start: Ledger, i: nat, w: string)
    requires ValidRequests(queue) && i <= |queue|
    ensures At(PlaceAll(queue[..i], ws, start).ledger, w).gpus <= At(PlaceAll(queue, ws, start).ledger, w).gpus
    ensures At(PlaceAll(queue[..i], ws, start).ledger, w).cpu <= At(PlaceAll(queue, ws, start).ledger, w).cpu
    ensures At(PlaceAll(queue[..i], ws, start).ledger, w).memory <= At(PlaceAll(queue, ws, start).ledger, w).memory
  {
    var n := |queue| - 1;
    if i == |queue| {
      assert queue[..i] == queue;
    } else {
      assert queue[..n][..i] == queue[..i];
      assert queue[n] in queue && forall j :: j in queue[..n] ==> j in queue;
      LoadsGrow(queue[..n], ws, start, i, w);
      PlaceGrows(PlaceAll(queue[..n], ws, start), queue[n], ws, w);
    }
  }

  lemma PlaceGrows(p: Progress, j: Job, ws: seq<Worker>, w: string)
    requires j.resources.Valid()
    ensures At(p.ledger, w).AtMost(At(Place(p, j, ws).ledger, w))
  {
  }

  /** A smaller request fits wherever a larger one does, under a smaller load. */
  lemma FitsAntitone(r: Resources, s: Resources, w: Worker, l: Load, m: Load)
    requires r.Within(s) && l.AtMost(m) && Fits(s, w, m)
    ensures Fits(r, w, l)
  {
    QualifyingAntitone(w.gpus, r.minGpuMemoryBytes, s.minGpuMemoryBytes);
  }

  lemma QueueIndex(js: seq<Job>, now: int, j: Job) returns (i: nat)
    requires j in js && j.state.Queued?
    ensures i < |Queue(js, now)| && Queue(js, now)[i] == j
  {
    assert j in Queue(js, now);
    i :| i < |Queue(js, now)| && Queue(js, now)[i] == j;
  }

  /** Work conservation: a queued job left out fits no worker in the accounting
      the pass ends with. */
  lemma WorkConserving(js: seq<Job>, ws: seq<Worker>, now: int, j: Job, w: Worker)
    requires DistinctBy(js, JobId) && ValidRequests(js)
    requires j in js && j.state.Queued? && w in ws
    requires !Placed(Planned(js, ws, now).assignments, j.id)
    ensures !Fits(j.resources, w, At(Planned(js, ws, now).ledger, w.id))
  {
    var queue, start := Queue(js, now), Committed(js);
    QueueOrdered(js, now);
    var i := QueueIndex(js, now, j);
    PlacedIff(queue, ws, start, i);
    LoadsGrow(queue, ws, start, i, w.id);
    if Fits(j.resources, w, At(Planned(js, ws, now).ledger, w.id)) {
      FitsAntitone(j.resources, j.resources, w,
                   At(PlaceAll(queue[..i], ws, start).ledger, w.id), At(Planned(js, ws, now).ledger, w.id));
      assert false;
    }
  }

  /** Envy-freedom: a job that outranks a placed job on submission and asks for
      no more of anything is placed as well. */
  lemma EnvyFree(js: seq<Job>, ws: seq<Worker>, now: int, j: Job, k: Job)
    requires DistinctBy(js, JobId) && ValidRequests(js)
    requires j in js && j.state.Queued? && k in js && k.state.Queued? && j != k
    requires 0 <= k.priority <= j.priority <= MAX_PRIORITY && j.createdAt <= k.createdAt
    requires j.priority == k.priority && j.createdAt == k.createdAt ==> TextOrder.Less(j.id, k.id)
    requires j.resources.Within(k.resources)
    requires Placed(Planned(js, ws, now).assignments, k.id)
    ensures Placed(Planned(js, ws, now).assignments, j.id)
  {
    var queue, start := Queue(js, now), Committed(js);
    QueueOrdered(js, now);
    var a := QueueIndex(js, now, j);
    var b := QueueIndex(js, now, k);
    OutranksOnSubmission(j, k, now);
    assert ByPriority(now)(j, k);
    EarlierSmallerPlaced(queue, ws, start, a, b);
  }

  lemma EarlierSmallerPlaced(queue: seq<Job>, ws: seq<Worker>, start: Ledger, a: nat, b: nat)
    requires DistinctBy(queue, JobId) && ValidRequests(queue) && a < b < |queue|
    requires queue[a].resources.Within(queue[b].resources)
    requires Placed(PlaceAll(queue, ws, start).assignments, queue[b].id)
    ensures Placed(PlaceAll(queue, ws, start).assignments, queue[a].id)
  {
    var r, s := queue[a].resources, queue[b].resources;
    var before, after := PlaceAll(queue[..a], ws, start).ledger, PlaceAll(queue[..b], ws, start).ledger;
    PlacedIff(queue, ws, start, b);
    var w :| w in ws && Fits(s, w, At(after, w.id));
    assert Fits(r, w, At(before, w.id)) by {
      assert queue[..b][..a] == queue[..a];
      LoadsGrow(queue[..b], ws, start, a, w.id);
      FitsAntitone(r, s, w, At(before, w.id), At(after, w.id));
    }
    PlacedIff(queue, ws, start, a);
  }

  lemma OutranksOnSubmission(j: Job, k: Job, now: int)
    requires 0 <= k.priority <= j.priority <= MAX_PRIORITY && j.createdAt <= k.createdAt
    requires j.priority == k.priority && j.createdAt == k.createdAt ==> TextOrder.Less(j.id, k.id)
    ensures Precedes(j, k, now)
  {
    AgingMonotone(j.priority, j.createdAt, k.priority, k.createdAt, now);
    if j.createdAt == k.createdAt && j.priority > k.priority {
      AgingExact(j.priority, j.createdAt, now);
      AgingExact(k.priority, k.createdAt, now);
      SameWait(j.priority, k.priority, j.createdAt, now);
    }
  }

  /** The bonus depends on the waiting time alone. */
  lemma SameWait(p: int, q: int, createdAt: int, now: int)
    requires 0 <= p <= MAX_PRIORITY && 0 <= q <= MAX_PRIORITY
    ensures EffectivePriority(p, createdAt, now) - p == EffectivePriority(q, createdAt, now) - q
  {
    AgingExact(p, createdAt, now);
    AgingExact(q, createdAt, now);
  }

  // Stability under later arrivals.

  function Keeps(dropped: set<string>): Job -> bool { (j: Job) => j.id !in dropped }

  /** Where the jobs that satisfy `keep` end, when they come first. */
  lemma SplitPoint(q: seq<Job>, keep: Job -> bool) returns (k: nat)
    requires forall i, j :: 0 <= i < j < |q| && keep(q[j]) ==> keep(q[i])
    ensures k <= |q|
    ensures forall i :: 0 <= i < k ==> keep(q[i])
    ensures forall i :: k <= i < |q| ==> !keep(q[i])
  {
    k := 0;
    while k < |q| && keep(q[k])
      invariant k <= |q| && forall i :: 0 <= i < k ==> keep(q[i])
    {
      k := k + 1;
    }
  }

  lemma {:induction false} IdleJobsDoNotCount(js: seq<Job>, keep: Job -> bool, w: string)
    requires forall j :: j in js && !keep(j) ==> !j.state.Holds()
    ensures CommittedTo(Filter(js, keep), w) == CommittedTo(js, w)
  {
    if js != [] {
      var init, last := js[..|js| - 1], js[|js| - 1];
      assert js == init + [last];
      IdleJobsDoNotCount(init, keep, w);
      CommittedSnoc(init, last, w);
      if keep(last) {
        assert Filter(js, keep) == Filter(init, keep) + [last];
        CommittedSnoc(Filter(init, keep), last, w);
      } else {
        assert last in js;
        assert Filter(js, keep) == Filter(init, keep);
        assert CommittedTo(js, w) == Plus(CommittedTo(init, w), NOTHING);
      }
    }
  }

  lemma CommittedWithoutIdle(js: seq<Job>, keep: Job -> bool)
    requires forall j :: j in js && !keep(j) ==> !j.state.Holds()
    ensures Committed(Filter(js, keep)) == Committed(js)
  {
    var kept := Filter(js, keep);
    FilterElements(js, keep);
    assert HeldWorkers(kept) == HeldWorkers(js) by {
      forall w | w in HeldWorkers(js) ensures w in HeldWorkers(kept) {
        var j :| j in js && j.state.Holds() && w in j.assignedWorkerIds;
        assert j in kept;
      }
    }
    forall w | w in HeldWorkers(js) ensures Committed(kept)[w] == Committed(js)[w] {
      IdleJobsDoNotCount(js, keep, w);
    }
  }

  /** The dropped jobs are queued, behind every queued job that is kept. */
  ghost predicate DropsTail(js: seq<Job>, now: int, dropped: set<string>)
  {
    && (forall d :: d in js && d.id in dropped ==> d.state.Queued?)
    && forall d, j :: d in js && j in js && j.state.Queued? && d.id in dropped && j.id !in dropped ==>
         Precedes(j, d, now)
  }

  lemma KeptComeFirst(js: seq<Job>, now: int, dropped: set<string>) returns (k: nat)
    requires DistinctBy(js, JobId) && DropsTail(js, now, dropped)
    ensures k <= |Queue(js, now)|
    ensures forall i :: 0 <= i < k ==> Keeps(dropped)(Queue(js, now)[i])
    ensures forall i :: k <= i < |Queue(js, now)| ==> !Keeps(dropped)(Queue(js, now)[i])
  {
    var keep, q := Keeps(dropped), Queue(js, now);
    QueueOrdered(js, now);
    forall i, j | 0 <= i < j < |q| && keep(q[j]) ensures keep(q[i]) {
      assert q[i] in q && q[j] in q && !ByPriority(now)(q[j], q[i]);
    }
    k := SplitPoint(q, keep);
  }

  lemma QueueWithout(js: seq<Job>, now: int, dropped: set<string>) returns (k: nat)
    requires DistinctBy(js, JobId) && DropsTail(js, now, dropped)
    ensures k <= |Queue(js, now)|
    ensures Queue(Filter(js, Keeps(dropped)), now) == Queue(js, now)[..k]
    ensures forall i :: 0 <= i < |Queue(js, now)| ==> (Queue(js, now)[i].id in dropped <==> k <= i)
  {
    var keep, q := Keeps(dropped), Queue(js, now);
    k := KeptComeFirst(js, now, dropped);
    assert multiset(q[..k]) == multiset(Filter(Filter(js, keep), IsQueued)) by {
      assert multiset(q) == multiset(Filter(js, IsQueued));
      FilterArrangedPrefix(js, q, k, IsQueued, keep);
    }
    assert Sorted(q[..k], ByPriority(now)) by { QueueOrdered(js, now); }
    QueueOfMultiset(Filter(js, keep), q[..k], now) by { FilterDistinct(js, keep, JobId); }
  }

  /** The queue is the one sorted arrangement of the queued jobs. */
  lemma QueueOfMultiset(js: seq<Job>, q: seq<Job>, now: int)
    requires DistinctBy(js, JobId)
    requires multiset(q) == multiset(Filter(js, IsQueued)) && Sorted(q, ByPriority(now))
    ensures Queue(js, now) == q
  {
    QueueOrdered(js, now);
    SortedUnique(Queue(js, now), q, ByPriority(now));
  }

  lemma {:induction false} PlaceAllPrefix(queue: seq<Job>, ws: seq<Worker>, start: Ledger, k: nat, dropped: set<string>)
    requires k <= |queue|
    requires forall i :: 0 <= i < |queue| ==> (queue[i].id in dropped <==> k <= i)
    ensures SplitAt(PlaceAll(queue[..k], ws, start).assignments, PlaceAll(queue, ws, start).assignments, dropped)
  {
    if queue != [] {
      var n := |queue| - 1;
      var m := if k <= n then k else n;
      assert queue[..n][..m] == queue[..m];
      PlaceAllPrefix(queue[..n], ws, start, m, dropped);
      PlaceAppends(PlaceAll(queue[..n], ws, start), queue[n], ws);
      if k > n { assert queue[..k] == queue && queue[..m] == queue[..n]; }
    }
  }

  /** `full` is `fewer` followed by assignments of dropped jobs alone. */
  ghost predicate SplitAt(fewer: seq<Assignment>, full: seq<Assignment>, dropped: set<string>)
  {
    && fewer <= full
    && (forall i :: 0 <= i < |full| ==> (full[i].jobId in dropped <==> |fewer| <= i))
  }

  lemma PlaceAppends(p: Progress, j: Job, ws: seq<Worker>)
    ensures var before, after := p.assignments, Place(p, j, ws).assignments;
      before == after || (before <= after && |after| == |before| + 1 && after[|before|].jobId == j.id)
  {
  }

  /** Removing queued jobs that come after all the others changes nothing for
      the others: what they get is an initial part of the full plan, and the
      rest of the full plan concerns the removed jobs alone. So a later arrival
      neither moves nor displaces a job ordered before it. */
  lemma LaterJobsDoNotDisplace(js: seq<Job>, ws: seq<Worker>, now: int, dropped: set<string>)
    requires DistinctBy(js, JobId) && DropsTail(js, now, dropped)
    ensures SplitAt(Planned(Filter(js, Keeps(dropped)), ws, now).assignments,
                    Planned(js, ws, now).assignments, dropped)
  {
    CommittedWithoutIdle(js, Keeps(dropped));
    var k := QueueWithout(js, now, dropped);
    PlaceAllPrefix(Queue(js, now), ws, Committed(js), k, dropped);
  }
}

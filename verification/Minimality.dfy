/** When stopping the weakest jobs first stops as few as possible. */
module Minimality {
  import opened Records
  import opened Options
  import opened Sorting
  import opened Capacity
  import opened Planner
  import opened PlannerTheorems
  import opened Preemption
  import opened PreemptionTheorems

  /** The jobs of `cands` that `mask` marks. */
  ghost function Picked(cands: seq<Job>, mask: seq<bool>): seq<Job>
    requires |mask| == |cands|
  {
    if cands == [] then []
    else
      var n := |cands| - 1;
      Picked(cands[..n], mask[..n]) + if mask[n] then [cands[n]] else []
  }

  /** Any choice of candidates that makes enough room has at least `n` of them. */
  ghost predicate Fewest(cands: seq<Job>, n: int, r: Resources, free: Load)
  {
    forall mask :: |mask| == |cands| && Enough(r, free, Total(Picked(cands, mask))) ==> |Picked(cands, mask)| >= n
  }

  /** A weaker candidate never holds less of anything than a stronger one. */
  ghost predicate WeakestHoldMost(cands: seq<Job>)
  {
    forall i, k :: 0 <= i < k < |cands| ==> Demand(cands[k].resources).AtMost(Demand(cands[i].resources))
  }

  // If the weakest hold the most, no choice of as many frees more.

  lemma {:induction false} PrefixFreesMost(cands: seq<Job>, mask: seq<bool>)
    requires |mask| == |cands| && WeakestHoldMost(cands)
    ensures |Picked(cands, mask)| <= |cands|
    ensures Total(Picked(cands, mask)).AtMost(Total(cands[..|Picked(cands, mask)|]))
  {
    if cands != [] {
      var n := |cands| - 1;
      var init, m := Picked(cands[..n], mask[..n]), |Picked(cands[..n], mask[..n])|;
      PrefixFreesMost(cands[..n], mask[..n]);
      assert cands[..n][..m] == cands[..m];
      if mask[n] {
        assert Total(Picked(cands, mask)) == Plus(Total(init), Demand(cands[n].resources)) by { TotalSnoc(init, cands[n]); }
        TotalNext(cands, m);
      } else {
        assert Picked(cands, mask) == init;
      }
    }
  }

  lemma PrefixIsFewest(cands: seq<Job>, n: nat, r: Resources, free: Load)
    requires WeakestHoldMost(cands) && Suffices(cands, n, r, free)
    ensures Fewest(cands, n, r, free)
  {
    forall mask | |mask| == |cands| && Enough(r, free, Total(Picked(cands, mask)))
      ensures |Picked(cands, mask)| >= n
    {
      PrefixFreesMost(cands, mask);
    }
  }

  /** Every rescue then stops as few jobs as any choice among the displaceable
      jobs of the worker could. */
  lemma RescueIsFewest(job: Job, w: Worker, js: seq<Job>, now: int, p: Pass, victims: seq<Job>)
    requires Rescues(job, w, js, now, p, victims) && WeakestHoldMost(Displaceable(job, w, js, now, p))
    ensures Fewest(Displaceable(job, w, js, now, p), |victims|, job.resources, FreeFor(job, w, p))
  {
    var cands := Displaceable(job, w, js, now, p);
    assert cands[..|victims|] == victims;
    PrefixIsFewest(cands, |victims|, job.resources, FreeFor(job, w, p));
  }

  // If somewhere a stronger one holds more, some request shows it.

  /** The first `i` candidates, and `k`. */
  ghost function Mask(n: nat, i: nat, k: nat): seq<bool>
  {
    seq(n, e => e < i || e == k)
  }

  lemma {:induction false} PickedPrefixAnd(cands: seq<Job>, n: nat, i: nat, k: nat)
    requires i <= k < |cands| && n <= |cands|
    ensures Picked(cands[..n], Mask(n, i, k)) ==
      cands[..if n < i then n else i] + if k < n then [cands[k]] else []
  {
    if n > 0 {
      assert cands[..n][..n - 1] == cands[..n - 1] && Mask(n, i, k)[..n - 1] == Mask(n - 1, i, k);
      PickedPrefixAnd(cands, n - 1, i, k);
    }
  }

  lemma {:induction false} ShortestExists(cands: seq<Job>, m: nat, r: Resources, free: Load) returns (n: nat)
    requires m <= |cands| && Enough(r, free, Total(cands[..m]))
    ensures n <= m && Suffices(cands, n, r, free)
  {
    n := m;
    if k :| 0 <= k < m && Enough(r, free, Total(cands[..k])) { n := ShortestExists(cands, k, r, free); }
  }

  /** Candidate `k` in place of `i` frees something more, and the first `k + 1`
      free all of that. */
  lemma SwapFreesMore(cands: seq<Job>, i: nat, k: nat)
    requires ValidRequests(cands) && i < k < |cands|
    requires !Demand(cands[k].resources).AtMost(Demand(cands[i].resources))
    ensures var swapped := Picked(cands, Mask(|cands|, i, k));
      && |swapped| == i + 1 && NOTHING.AtMost(Total(swapped))
      && Total(swapped).AtMost(Total(cands[..k + 1])) && !Total(swapped).AtMost(Total(cands[..i + 1]))
  {
    assert cands[..|cands|] == cands;
    PickedPrefixAnd(cands, |cands|, i, k);
    assert Total(cands[..i] + [cands[k]]) == Plus(Total(cands[..i]), Demand(cands[k].resources)) by {
      TotalSnoc(cands[..i], cands[k]);
    }
    assert NOTHING.AtMost(Total(cands[..i])) by { TotalsGrow(cands, 0, i); }
    assert cands[k] in cands;
    TotalsGrow(cands, i, k);
    TotalNext(cands, i);
    TotalNext(cands, k);
  }

  /** A request for what is free and what the swap would free: more jobs are
      stopped than necessary. */
  lemma SwapNeedsMore(cands: seq<Job>, i: nat, k: nat, free: Load, m: int) returns (n: nat, r: Resources)
    requires ValidRequests(cands) && i < k < |cands| && NOTHING.AtMost(free) && m >= 0
    requires !Demand(cands[k].resources).AtMost(Demand(cands[i].resources))
    ensures r.Valid() && r.minGpuMemoryBytes == m
    ensures n > 0 && Suffices(cands, n, r, free) && !Fewest(cands, n, r, free)
  {
    var mask := Mask(|cands|, i, k);
    SwapFreesMore(cands, i, k);
    var t := Total(Picked(cands, mask));
    r := Resources(free.gpus + t.gpus, m, free.cpu + t.cpu, free.memory + t.memory);
    n := ShortestExists(cands, k + 1, r, free);
    if n <= i + 1 {
      TotalsGrow(cands, n, i + 1);
      assert false;
    }
  }

  // On a worker.

  /** If the visit stops jobs, no choice among those the job may displace is smaller. */
  ghost predicate FewestStopped(job: Job, w: Worker, js: seq<Job>, now: int, p: Pass)
  {
    match TryWorker(job, w, js, now, p)
    case None => true
    case Some(q) => Fewest(Displaceable(job, w, js, now, p), |q.stops| - |p.stops|, job.resources, FreeFor(job, w, p))
  }

  lemma StopsFewest(job: Job, w: Worker, js: seq<Job>, now: int, p: Pass)
    requires DistinctBy(js, JobId) && WeakestHoldMost(Displaceable(job, w, js, now, p))
    ensures FewestStopped(job, w, js, now, p)
  {
    TryWorkerOutcome(job, w, js, now, p);
    if TryWorker(job, w, js, now, p).Some? && !Fits(job.resources, w, At(p.ledger, w.id)) {
      var victims := ScanFor(job, w, js, now, p).victims;
      StopsOf(victims, w.id, StopReason(job.id));
      RescueIsFewest(job, w, js, now, p, victims);
    }
  }

  /** Wherever a stronger candidate holds more of something, there is a request
      for which the visit stops more jobs than necessary. */
  lemma TooManyStopped(job: Job, w: Worker, js: seq<Job>, now: int, p: Pass, m: int, i: nat, k: nat) returns (n: nat, r: Resources)
    requires DistinctBy(js, JobId) && ValidRequests(js) && m >= 0
    requires w.status.Active? && WithinCpuAndMemory(w, At(p.ledger, w.id))
    requires var c := Displaceable(job, w, js, now, p);
      i < k < |c| && !Demand(c[k].resources).AtMost(Demand(c[i].resources))
    ensures r.Valid() && r.minGpuMemoryBytes == m
    ensures var c, asking := Displaceable(job, w, js, now, p), Asking(job, r);
      && n <= |c| && TryWorker(asking, w, js, now, p) == Some(Emit(p, asking, w, Haul(c[..n], Total(c[..n]))))
      && !Fewest(c, n, r, FreeFor(asking, w, p)) && !FewestStopped(asking, w, js, now, p)
  {
    var c, free := Displaceable(job, w, js, now, p), Free(Resources(0, m, 0.0, 0), w, At(p.ledger, w.id));
    DisplaceableValid(job, w, js, now, p);
    n, r := SwapNeedsMore(c, i, k, free, m);
    var asking := Asking(job, r);
    assert FreeFor(asking, w, p) == free && Displaceable(asking, w, js, now, p) == c;
    TryWorkerSuffices(asking, w, js, now, p, n);
    StopsOf(c[..n], w.id, StopReason(job.id));
  }

  /** On a worker whose CPU and memory are not oversold, the jobs stopped for a
      pending job are as few as any choice could make them, whatever it asks for,
      exactly if no stronger candidate holds more of anything than a weaker one. */
  lemma FewestExactly(job: Job, w: Worker, js: seq<Job>, now: int, p: Pass, m: int)
    requires DistinctBy(js, JobId) && ValidRequests(js) && m >= 0
    requires w.status.Active? && WithinCpuAndMemory(w, At(p.ledger, w.id))
    ensures WeakestHoldMost(Displaceable(job, w, js, now, p)) <==>
      forall r: Resources :: r.Valid() && r.minGpuMemoryBytes == m ==> FewestStopped(Asking(job, r), w, js, now, p)
  {
    var c := Displaceable(job, w, js, now, p);
    forall r: Resources ensures Displaceable(Asking(job, r), w, js, now, p) == c {}
    if WeakestHoldMost(c) {
      forall r: Resources | r.Valid() && r.minGpuMemoryBytes == m ensures FewestStopped(Asking(job, r), w, js, now, p) {
        StopsFewest(Asking(job, r), w, js, now, p);
      }
    } else {
      var i, k :| 0 <= i < k < |c| && !Demand(c[k].resources).AtMost(Demand(c[i].resources));
      var n, r := TooManyStopped(job, w, js, now, p, m, i, k);
    }
  }
}

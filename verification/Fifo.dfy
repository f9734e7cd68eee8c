/** The FIFO queue and the scan in key order fix Kahn's order completely: jobs stand in the order
    of their last-placed parent, parentless jobs first, and in key order below the same one. */
module Fifo {
  import opened Keys
  import opened Flow
  import opened Topology

  /** The position of `j`'s last parent in `order`, or -1. */
  function LastParent(jobs: Jobs, order: seq<JobId>, j: JobId): (p: int)
    ensures -1 <= p < |order|
    ensures p >= 0 ==> order[p] in Froms(jobs, j)
    ensures forall q | p < q < |order| :: order[q] !in Froms(jobs, j)
  {
    if order == [] then -1
    else if order[|order| - 1] in Froms(jobs, j) then |order| - 1
    else LastParent(jobs, order[..|order| - 1], j)
  }

  /** `x`'s last parent stands before `y`'s, or it is the same and `x` has the smaller key. */
  predicate WakesBefore(jobs: Jobs, order: seq<JobId>, x: JobId, y: JobId) {
    LastParent(jobs, order, x) < LastParent(jobs, order, y)
    || (LastParent(jobs, order, x) == LastParent(jobs, order, y) && Less(x, y))
  }

  /** `xs` is sorted by the last parent in `order`, then by key. */
  predicate InWakingOrder(jobs: Jobs, order: seq<JobId>, xs: seq<JobId>) {
    forall i, k | 0 <= i < k < |xs| :: WakesBefore(jobs, order, xs[i], xs[k])
  }

  // ---- Kahn's algorithm keeps it ----

  /** Placing one more job does not move the last parent of a job that was ready before. */
  lemma ReadyKeepsLastParent(jobs: Jobs, done: seq<JobId>, x: JobId, k: JobId)
    requires Ready(jobs, k, done) && x !in done
    ensures LastParent(jobs, done + [x], k) == LastParent(jobs, done, k)
  {
    assert (done + [x])[..|done|] == done;
  }

  lemma WokenHasNewLastParent(jobs: Jobs, done: seq<JobId>, x: JobId, k: JobId)
    requires k in Woken(jobs, done + [x])
    ensures LastParent(jobs, done + [x], k) == |done|
  {
    assert IsWoken(jobs, done + [x])(k);
  }

  lemma WokenAreSorted(jobs: Jobs, done: seq<JobId>)
    requires done != []
    ensures Sorted(Woken(jobs, done))
  {
    SortedKeysOrdered(jobs.Keys);
    FilterKeepsOrder(KeyOrder(jobs), IsWoken(jobs, done));
  }

  lemma PlacingKeepsWakingOrder(jobs: Jobs, done: seq<JobId>, all: seq<JobId>, x: JobId)
    requires x !in done && HoldsReady(jobs, done, all) && InWakingOrder(jobs, done, all)
    ensures InWakingOrder(jobs, done + [x], all + Woken(jobs, done + [x]))
  {
    var done', woken := done + [x], Woken(jobs, done + [x]);
    var all' := all + woken;
    WokenAreSorted(jobs, done');
    forall i, k | 0 <= i < k < |all'| ensures WakesBefore(jobs, done', all'[i], all'[k]) {
      if i < |all| {
        assert all[i] in all && Ready(jobs, all[i], done);
        ReadyKeepsLastParent(jobs, done, x, all[i]);
      } else {
        assert all'[i] == woken[i - |all|];
        WokenHasNewLastParent(jobs, done, x, all'[i]);
      }
      if k < |all| {
        assert all[k] in all && Ready(jobs, all[k], done);
        ReadyKeepsLastParent(jobs, done, x, all[k]);
        assert WakesBefore(jobs, done, all[i], all[k]);
      } else {
        assert all'[k] == woken[k - |all|];
        WokenHasNewLastParent(jobs, done, x, all'[k]);
      }
    }
  }

  lemma {:induction false} KahnKeepsWakingOrder(jobs: Jobs, done: seq<JobId>, queue: seq<JobId>)
    requires KahnState(jobs, done, queue) && InWakingOrder(jobs, done, done + queue)
    ensures InWakingOrder(jobs, Kahn(jobs, done, queue), Kahn(jobs, done, queue))
    decreases |jobs.Keys| - |done|
  {
    if queue == [] {
      assert done + queue == done;
    } else {
      KahnSteps(jobs, done, queue);
      QueueHeadIsNew(done, queue);
      PlacingKeepsWakingOrder(jobs, done, done + queue, queue[0]);
      QueueRotates(done, queue, Woken(jobs, NextDone(done, queue)));
      KahnKeepsWakingOrder(jobs, NextDone(done, queue), NextQueue(jobs, done, queue));
    }
  }

  lemma PlacedInWakingOrder(jobs: Jobs)
    ensures InWakingOrder(jobs, Placed(jobs), Placed(jobs))
  {
    KahnStarts(jobs);
    SortedKeysOrdered(jobs.Keys);
    FilterKeepsOrder(KeyOrder(jobs), IsRoot(jobs));
    EmptyBase(Roots(jobs));
    KahnKeepsWakingOrder(jobs, [], Roots(jobs));
  }

  // ---- It determines the order ----

  lemma {:induction false} LastParentInPrefix(jobs: Jobs, order: seq<JobId>, n: nat, j: JobId)
    requires n <= |order| && forall q | n <= q < |order| :: order[q] !in Froms(jobs, j)
    ensures LastParent(jobs, order, j) == LastParent(jobs, order[..n], j)
    decreases |order|
  {
    if n < |order| {
      var m := |order| - 1;
      LastParentInPrefix(jobs, order[..m], n, j);
      assert order[..m][..n] == order[..n];
    } else {
      WholePrefix(order);
    }
  }

  /** The parents of the job at position `n` stand before it, so its last parent does. */
  lemma LastParentStandsBefore(jobs: Jobs, order: seq<JobId>, n: nat)
    requires ParentsFirst(jobs, order) && n < |order|
    ensures LastParent(jobs, order, order[n]) == LastParent(jobs, order[..n], order[n])
  {
    ParentsFirstAt(jobs, order, n);
    ParentsFirstNoDup(jobs, order);
    forall q | n <= q < |order| ensures order[q] !in order[..n] {
    }
    LastParentInPrefix(jobs, order, n, order[n]);
  }

  /** A job placed first among those left has its parents in the common prefix of both orders. */
  lemma SameLastParent(jobs: Jobs, a: seq<JobId>, b: seq<JobId>, n: nat)
    requires ParentsFirst(jobs, a) && ParentsFirst(jobs, b)
    requires n < |a| && n <= |b| && a[..n] == b[..n]
    ensures LastParent(jobs, a, a[n]) == LastParent(jobs, b, a[n])
  {
    LastParentStandsBefore(jobs, a, n);
    ParentsFirstAt(jobs, a, n);
    ParentsFirstNoDup(jobs, b);
    forall q | n <= q < |b| ensures b[q] !in b[..n] {
    }
    LastParentInPrefix(jobs, b, n, a[n]);
  }

  lemma {:induction false} FirstDifference(a: seq<JobId>, b: seq<JobId>) returns (n: nat)
    requires |a| == |b| && a != b
    ensures n < |a| && a[..n] == b[..n] && a[n] != b[n]
  {
    var m := |a| - 1;
    if a[..m] != b[..m] {
      n := FirstDifference(a[..m], b[..m]);
      assert a[..m][..n] == a[..n] && b[..m][..n] == b[..n];
    } else {
      n := m;
      assert a == a[..m] + [a[m]] && b == b[..m] + [b[m]];
    }
  }

  lemma StandsLater(jobs: Jobs, a: seq<JobId>, b: seq<JobId>, n: nat) returns (m: nat)
    requires IsTopo(jobs, a) && IsTopo(jobs, b)
    requires n < |a| && n < |b| && a[..n] == b[..n] && a[n] != b[n]
    ensures n < m < |a| && a[m] == b[n]
  {
    ParentsFirstNoDup(jobs, b);
    assert b[n] in b && b[n] in jobs && b[n] in a;
    assert b[n] !in a[..n];
    m :| 0 <= m < |a| && a[m] == b[n];
  }

  lemma SameNext(jobs: Jobs, a: seq<JobId>, b: seq<JobId>, n: nat)
    requires IsTopo(jobs, a) && InWakingOrder(jobs, a, a)
    requires IsTopo(jobs, b) && InWakingOrder(jobs, b, b)
    requires n < |a| && n < |b| && a[..n] == b[..n]
    ensures a[n] == b[n]
  {
    if a[n] != b[n] {
      var m := StandsLater(jobs, a, b, n);
      var k := StandsLater(jobs, b, a, n);
      SameLastParent(jobs, a, b, n);
      SameLastParent(jobs, b, a, n);
      assert WakesBefore(jobs, a, a[n], a[m]) && WakesBefore(jobs, b, b[n], b[k]);
      LessTotal(a[n], b[n]);
    }
  }

  lemma SameLength(jobs: Jobs, a: seq<JobId>)
    requires IsTopo(jobs, a)
    ensures |a| == |jobs|
  {
    ParentsFirstNoDup(jobs, a);
    ElementsCount(a);
    assert Elements(a) == jobs.Keys;
  }

  lemma WakingOrderIsUnique(jobs: Jobs, a: seq<JobId>, b: seq<JobId>)
    requires IsTopo(jobs, a) && InWakingOrder(jobs, a, a)
    requires IsTopo(jobs, b) && InWakingOrder(jobs, b, b)
    ensures a == b
  {
    SameLength(jobs, a);
    SameLength(jobs, b);
    if a != b {
      var n := FirstDifference(a, b);
      SameNext(jobs, a, b, n);
    }
  }

  lemma TopoIsOrdered(jobs: Jobs, order: seq<JobId>)
    requires IsTopo(jobs, order)
    ensures TopoResult(jobs).Ordered?
  {
    forall j | j in jobs ensures j in Placed(jobs) {
      OrderedIsNotStuck(jobs, order, j);
      UnplacedIsStuck(jobs, j);
    }
    AllPlaced(jobs);
  }

  /** `topological_order` returns `order` exactly when it is topological and each job stands by the
      position of its last parent, parentless jobs first, and by key where that is the same. */
  lemma OrderExactly(jobs: Jobs, order: seq<JobId>)
    ensures TopoResult(jobs) == Ordered(order) <==> IsTopo(jobs, order) && InWakingOrder(jobs, order, order)
  {
    if TopoResult(jobs) == Ordered(order) {
      OrderedExactlyWhenAcyclic(jobs);
      PlacedInWakingOrder(jobs);
    }
    if IsTopo(jobs, order) && InWakingOrder(jobs, order, order) {
      TopoIsOrdered(jobs, order);
      OrderedExactlyWhenAcyclic(jobs);
      PlacedInWakingOrder(jobs);
      WakingOrderIsUnique(jobs, order, TopoResult(jobs).order);
    }
  }
}

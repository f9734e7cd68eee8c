/** Kahn's algorithm: the counter-based loop of `topological_order`, the counter-free
    definition it refines, and what the order and the cycle report mean for the graph. */
module Topology {
  import opened Wrappers
  import opened Keys
  import opened Flow

  datatype OrderResult = Ordered(order: seq<JobId>) | DependencyCycle(remaining: seq<JobId>)

  function KeyOrder(jobs: Jobs): seq<JobId> {
    SortedKeys(jobs.Keys)
  }

  lemma KeyOrderDistinct(jobs: Jobs)
    ensures NoDup(KeyOrder(jobs))
  {
    SortedKeysOrdered(jobs.Keys);
  }

  function IsRoot(jobs: Jobs): JobId -> bool {
    j => Froms(jobs, j) == []
  }

  function Roots(jobs: Jobs): seq<JobId> {
    Filter(KeyOrder(jobs), IsRoot(jobs))
  }

  /** Is this job a child of the last element of `done`, and ready now? */
  function IsWoken(jobs: Jobs, done: seq<JobId>): JobId -> bool
    requires done != []
  {
    k => done[|done| - 1] in Froms(jobs, k) && Ready(jobs, k, done)
  }

  /** The jobs that become ready when the last element of `done` is placed. */
  function Woken(jobs: Jobs, done: seq<JobId>): seq<JobId>
    requires done != []
  {
    Filter(KeyOrder(jobs), IsWoken(jobs, done))
  }

  /** Placed and queued together are exactly the ready jobs. */
  ghost predicate HoldsReady(jobs: Jobs, done: seq<JobId>, all: seq<JobId>) {
    forall k {:trigger Ready(jobs, k, done)} :: k in all <==> Ready(jobs, k, done)
  }

  /** Loop state of the counter-free algorithm: the queue holds exactly the ready jobs
      that are not placed yet. */
  ghost predicate KahnState(jobs: Jobs, done: seq<JobId>, queue: seq<JobId>) {
    ParentsFirst(jobs, done) && NoDup(done + queue) && HoldsReady(jobs, done, done + queue)
  }

  lemma KahnStarts(jobs: Jobs)
    ensures KahnState(jobs, [], Roots(jobs))
  {
    SortedKeysOrdered(jobs.Keys);
    FilterKeepsOrder(KeyOrder(jobs), IsRoot(jobs));
    assert [] + Roots(jobs) == Roots(jobs);
    forall k ensures k in Roots(jobs) <==> Ready(jobs, k, []) {
      if k in jobs && Froms(jobs, k) != [] {
        assert Froms(jobs, k)[0] in Froms(jobs, k);
      }
    }
  }

  lemma PlacingKeepsParentsFirst(jobs: Jobs, done: seq<JobId>, x: JobId)
    requires ParentsFirst(jobs, done) && Ready(jobs, x, done) && x !in done
    ensures ParentsFirst(jobs, done + [x])
  {
    assert (done + [x])[..|done|] == done;
  }

  /** Placing `x` makes ready exactly its fully placed children, none of them ready before. */
  lemma PlacingWakes(jobs: Jobs, done: seq<JobId>, x: JobId, k: JobId)
    requires x !in done
    ensures Ready(jobs, k, done + [x]) <==>
              Ready(jobs, k, done) || k in Woken(jobs, done + [x])
    ensures !(Ready(jobs, k, done) && k in Woken(jobs, done + [x]))
  {
  }

  lemma StepHoldsReady(jobs: Jobs, done: seq<JobId>, x: JobId, all: seq<JobId>)
    requires HoldsReady(jobs, done, all) && x !in done
    ensures HoldsReady(jobs, done + [x], all + Woken(jobs, done + [x]))
    ensures forall k | k in Woken(jobs, done + [x]) :: k !in all
  {
    forall k ensures k in all + Woken(jobs, done + [x]) <==> Ready(jobs, k, done + [x])
             ensures k in Woken(jobs, done + [x]) ==> k !in all
    {
      PlacingWakes(jobs, done, x, k);
    }
  }

  lemma QueueHeadIsNew(done: seq<JobId>, queue: seq<JobId>)
    requires NoDup(done + queue) && queue != []
    ensures queue[0] !in done && queue[0] in done + queue
  {
    var all := done + queue;
    assert all[|done|] == queue[0];
    forall i | 0 <= i < |done| ensures done[i] != queue[0] {
      assert all[i] == done[i];
    }
  }

  lemma ReadyFit(jobs: Jobs, done: seq<JobId>, all: seq<JobId>)
    requires HoldsReady(jobs, done, all) && NoDup(all)
    ensures |all| <= |jobs.Keys|
  {
    forall k | k in all ensures k in jobs.Keys { assert Ready(jobs, k, done); }
    NoDupWithin(all, jobs.Keys);
  }

  function NextDone(done: seq<JobId>, queue: seq<JobId>): seq<JobId>
    requires queue != []
  {
    done + [queue[0]]
  }

  function NextQueue(jobs: Jobs, done: seq<JobId>, queue: seq<JobId>): seq<JobId>
    requires queue != []
  {
    queue[1..] + Woken(jobs, NextDone(done, queue))
  }

  lemma QueueRotates(done: seq<JobId>, queue: seq<JobId>, woken: seq<JobId>)
    requires queue != []
    ensures (done + [queue[0]]) + (queue[1..] + woken) == (done + queue) + woken
  {
  }

  lemma KahnSteps(jobs: Jobs, done: seq<JobId>, queue: seq<JobId>)
    requires KahnState(jobs, done, queue) && queue != []
    ensures KahnState(jobs, NextDone(done, queue), NextQueue(jobs, done, queue))
    ensures done + queue <= NextDone(done, queue) + NextQueue(jobs, done, queue)
    ensures |done| < |jobs.Keys|
  {
    var x, all, woken := queue[0], done + queue, Woken(jobs, done + [queue[0]]);
    QueueHeadIsNew(done, queue);
    ReadyFit(jobs, done, all);
    assert Ready(jobs, x, done);
    PlacingKeepsParentsFirst(jobs, done, x);
    StepHoldsReady(jobs, done, x, all);
    SortedKeysOrdered(jobs.Keys);
    FilterKeepsOrder(KeyOrder(jobs), IsWoken(jobs, done + [x]));
    NoDupConcat(all, woken);
    QueueRotates(done, queue, woken);
  }

  /** The order Kahn's algorithm places, from a given loop state. */
  ghost function Kahn(jobs: Jobs, done: seq<JobId>, queue: seq<JobId>): seq<JobId>
    requires KahnState(jobs, done, queue)
    decreases |jobs.Keys| - |done|
  {
    if queue == [] then done
    else
      KahnSteps(jobs, done, queue);
      Kahn(jobs, NextDone(done, queue), NextQueue(jobs, done, queue))
  }

  lemma {:induction false} KahnEnds(jobs: Jobs, done: seq<JobId>, queue: seq<JobId>)
    requires KahnState(jobs, done, queue)
    ensures KahnState(jobs, Kahn(jobs, done, queue), [])
    ensures done + queue <= Kahn(jobs, done, queue)
    decreases |jobs.Keys| - |done|
  {
    if queue != [] {
      KahnSteps(jobs, done, queue);
      KahnEnds(jobs, NextDone(done, queue), NextQueue(jobs, done, queue));
    }
  }

  ghost function Placed(jobs: Jobs): seq<JobId> {
    KahnStarts(jobs);
    Kahn(jobs, [], Roots(jobs))
  }

  lemma PlacedWithin(jobs: Jobs)
    ensures forall j | j in Placed(jobs) :: j in jobs
    ensures ParentsFirst(jobs, Placed(jobs)) && NoDup(Placed(jobs))
    ensures Roots(jobs) <= Placed(jobs)
  {
    KahnStarts(jobs);
    KahnEnds(jobs, [], Roots(jobs));
    var order := Placed(jobs);
    assert order + [] == order && [] + Roots(jobs) == Roots(jobs);
    forall j | j in order ensures j in jobs {
      assert Ready(jobs, j, order);
    }
  }

  lemma PlacedIsReady(jobs: Jobs, j: JobId)
    ensures j in Placed(jobs) <==> Ready(jobs, j, Placed(jobs))
  {
    KahnStarts(jobs);
    KahnEnds(jobs, [], Roots(jobs));
    assert Placed(jobs) + [] == Placed(jobs);
  }

  ghost function IsLeftOut(jobs: Jobs): JobId -> bool {
    j => j !in Placed(jobs)
  }

  /** What `topological_order` returns. */
  ghost function TopoResult(jobs: Jobs): OrderResult {
    var order := Placed(jobs);
    if |order| == |jobs| then Ordered(order)
    else DependencyCycle(Filter(KeyOrder(jobs), IsLeftOut(jobs)))
  }

  // ---- Meaning of the result ----

  ghost function Unplaced(jobs: Jobs): set<JobId> {
    set r | r in jobs && r !in Placed(jobs)
  }

  lemma UnplacedDeadlocks(jobs: Jobs)
    ensures Deadlocked(jobs, Unplaced(jobs))
  {
    forall r | r in Unplaced(jobs) && WellEdged(jobs, r)
      ensures HasParentIn(jobs, r, Unplaced(jobs))
    {
      PlacedIsReady(jobs, r);
      var f :| f in Froms(jobs, r) && f !in Placed(jobs);
      assert f in Unplaced(jobs);
    }
  }

  lemma UnplacedHasCause(jobs: Jobs, r: JobId)
    requires r in jobs && r !in Placed(jobs)
    ensures Stuck(jobs, r)
    ensures (forall j | j in jobs :: WellEdged(jobs, j)) ==> HasCycleWithin(jobs, Unplaced(jobs))
  {
    UnplacedDeadlocks(jobs);
    assert Chain(jobs, [r]);
    WalkUp(jobs, Unplaced(jobs), [r]);
  }

  /** Kahn's algorithm leaves out exactly the stuck jobs. */
  lemma UnplacedIsStuck(jobs: Jobs, j: JobId)
    requires j in jobs
    ensures j !in Placed(jobs) <==> Stuck(jobs, j)
  {
    if j in Placed(jobs) {
      PlacedWithin(jobs);
      OrderedIsNotStuck(jobs, Placed(jobs), j);
    } else {
      UnplacedHasCause(jobs, j);
    }
  }

  lemma AllPlaced(jobs: Jobs)
    ensures |Placed(jobs)| == |jobs| <==> forall j | j in jobs :: j in Placed(jobs)
  {
    PlacedWithin(jobs);
    NoDupWithin(Placed(jobs), jobs.Keys);
    ElementsCount(Placed(jobs));
    if forall j | j in jobs :: j in Placed(jobs) {
      assert Elements(Placed(jobs)) == jobs.Keys;
    }
  }

  /** `Ok` exactly on flows whose edges are distinct and resolve and that have no cycle;
      the order is then topological, and starts with the parentless jobs in key order. */
  lemma OrderedExactlyWhenAcyclic(jobs: Jobs)
    ensures TopoResult(jobs).Ordered? <==>
              (forall j | j in jobs :: WellEdged(jobs, j)) && Acyclic(jobs)
    ensures TopoResult(jobs).Ordered? ==> IsTopo(jobs, TopoResult(jobs).order)
    ensures TopoResult(jobs).Ordered? ==> Roots(jobs) <= TopoResult(jobs).order
  {
    AllPlaced(jobs);
    PlacedWithin(jobs);
    if TopoResult(jobs).Ordered? {
      forall j | j in jobs ensures WellEdged(jobs, j) && !OnCycle(jobs, j) {
        PlacedIsReady(jobs, j);
        UnplacedIsStuck(jobs, j);
        assert ChainTo(jobs, [j], j);
      }
      forall c ensures !Cycle(jobs, c) {
        assert Cycle(jobs, c) ==> OnCycle(jobs, c[0]);
      }
    } else if forall j | j in jobs :: WellEdged(jobs, j) {
      var r :| r in jobs && r !in Placed(jobs);
      UnplacedHasCause(jobs, r);
    }
  }

  /** The cycle report lists, in key order, exactly the stuck jobs, and is never empty. */
  lemma CycleReportIsExact(jobs: Jobs)
    requires TopoResult(jobs).DependencyCycle?
    ensures Sorted(TopoResult(jobs).remaining) && TopoResult(jobs).remaining != []
    ensures forall j :: j in TopoResult(jobs).remaining <==> j in jobs && Stuck(jobs, j)
  {
    SortedKeysOrdered(jobs.Keys);
    FilterKeepsOrder(KeyOrder(jobs), IsLeftOut(jobs));
    AllPlaced(jobs);
    var r :| r in jobs && r !in Placed(jobs);
    assert r in TopoResult(jobs).remaining;
    forall j ensures j in TopoResult(jobs).remaining <==> j in jobs && Stuck(jobs, j) {
      if j in jobs { UnplacedIsStuck(jobs, j); }
    }
  }

  ghost predicate BelowCycle(jobs: Jobs, j: JobId) {
    exists p :: ChainTo(jobs, p, j) && OnCycle(jobs, p[0])
  }

  lemma StuckIsBelowCycle(jobs: Jobs, j: JobId)
    requires forall k | k in jobs :: WellEdged(jobs, k)
    ensures j in jobs && Stuck(jobs, j) <==> BelowCycle(jobs, j)
  {
    forall p | ChainTo(jobs, p, j) ensures p[0] in jobs && j in jobs {
      assert p[|p| - 1] in jobs;
    }
  }

  lemma LeftOutIsUnplaced(jobs: Jobs)
    ensures Elements(Filter(KeyOrder(jobs), IsLeftOut(jobs))) == Unplaced(jobs)
  {
  }

  lemma ReportHasCycle(jobs: Jobs)
    requires TopoResult(jobs).DependencyCycle?
    requires forall j | j in jobs :: WellEdged(jobs, j)
    ensures HasCycleWithin(jobs, Elements(TopoResult(jobs).remaining))
  {
    AllPlaced(jobs);
    var r :| r in jobs && r !in Placed(jobs);
    UnplacedHasCause(jobs, r);
    LeftOutIsUnplaced(jobs);
  }

  /** When every edge list is well formed the report contains a whole cycle, and its
      members are exactly the jobs on or downstream of a cycle. */
  lemma CycleReportNamesCycles(jobs: Jobs)
    requires TopoResult(jobs).DependencyCycle?
    requires forall j | j in jobs :: WellEdged(jobs, j)
    ensures HasCycleWithin(jobs, Elements(TopoResult(jobs).remaining))
    ensures forall j :: j in TopoResult(jobs).remaining <==> BelowCycle(jobs, j)
  {
    ReportHasCycle(jobs);
    CycleReportIsExact(jobs);
    forall j ensures j in TopoResult(jobs).remaining <==> BelowCycle(jobs, j) {
      StuckIsBelowCycle(jobs, j);
    }
  }
}

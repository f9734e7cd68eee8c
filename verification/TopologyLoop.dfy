/** The imperative `topological_order`: in-degree counters, a FIFO queue, and a scan of
    every job for each job placed. It computes `TopoResult`. */
module TopologyLoop {
  import opened Keys
  import opened Flow
  import opened Topology

  /** A counter's value: parent edges, less the distinct parents already placed. */
  function Missing(jobs: Jobs, k: JobId, done: seq<JobId>): int {
    |Froms(jobs, k)| - |Elements(Froms(jobs, k)) * Elements(done)|
  }

  lemma MissingMeansNotReady(jobs: Jobs, k: JobId, done: seq<JobId>)
    requires k in jobs
    ensures Missing(jobs, k, done) >= 0
    ensures Missing(jobs, k, done) == 0 <==> Ready(jobs, k, done)
  {
    var froms, placed := Elements(Froms(jobs, k)), Elements(done);
    ElementsCount(Froms(jobs, k));
    SubsetSize(froms * placed, froms);
    assert Ready(jobs, k, done) <==> NoDup(Froms(jobs, k)) && froms <= placed;
    assert froms <= placed <==> froms * placed == froms;
  }

  lemma MissingDrops(jobs: Jobs, k: JobId, done: seq<JobId>, x: JobId)
    requires x !in done
    ensures Missing(jobs, k, done + [x]) ==
              Missing(jobs, k, done) - if x in Froms(jobs, k) then 1 else 0
  {
    var froms, placed := Elements(Froms(jobs, k)), Elements(done);
    assert Elements(done + [x]) == placed + {x};
    if x in Froms(jobs, k) {
      assert froms * (placed + {x}) == (froms * placed) + {x};
      assert x !in froms * placed;
    } else {
      assert froms * (placed + {x}) == froms * placed;
    }
  }

  lemma {:induction false} FilterAgrees(keys: seq<JobId>, p: JobId -> bool, q: JobId -> bool)
    requires forall k | k in keys :: p(k) == q(k)
    ensures Filter(keys, p) == Filter(keys, q)
  {
    if keys != [] {
      assert keys[|keys| - 1] in keys;
      FilterAgrees(keys[..|keys| - 1], p, q);
    }
  }

  ghost predicate Counted(jobs: Jobs, indeg: map<JobId, int>, done: seq<JobId>) {
    indeg.Keys == jobs.Keys && forall k | k in jobs :: indeg[k] == Missing(jobs, k, done)
  }

  lemma MissingAtStart(jobs: Jobs, k: JobId)
    ensures Missing(jobs, k, []) == |ParentsOf(jobs, k)|
  {
    assert Elements(Froms(jobs, k)) * Elements<JobId>([]) == {};
  }

  lemma ZeroCountersAreRoots(jobs: Jobs, indeg: map<JobId, int>)
    requires Counted(jobs, indeg, [])
    ensures Filter(KeyOrder(jobs), k => k in indeg && indeg[k] == 0) == Roots(jobs)
  {
    forall k | k in jobs ensures (k in indeg && indeg[k] == 0) == IsRoot(jobs)(k) {
      MissingAtStart(jobs, k);
    }
    FilterAgrees(KeyOrder(jobs), k => k in indeg && indeg[k] == 0, IsRoot(jobs));
  }

  lemma PositiveCountersAreLeftOut(jobs: Jobs, indeg: map<JobId, int>)
    requires Counted(jobs, indeg, Placed(jobs))
    ensures Filter(KeyOrder(jobs), k => k in indeg && indeg[k] > 0) ==
              Filter(KeyOrder(jobs), IsLeftOut(jobs))
  {
    forall k | k in KeyOrder(jobs)
      ensures (k in indeg && indeg[k] > 0) == IsLeftOut(jobs)(k)
    {
      MissingMeansNotReady(jobs, k, Placed(jobs));
      PlacedIsReady(jobs, k);
    }
    FilterAgrees(KeyOrder(jobs), k => k in indeg && indeg[k] > 0, IsLeftOut(jobs));
  }

  /** Seeing one job during the pass that follows the placing of `jid`. */
  lemma RelaxOne(jobs: Jobs, k: JobId, before: seq<JobId>, jid: JobId)
    requires k in jobs && jid !in before
    ensures var m := Missing(jobs, k, before + [jid]);
            && m == Missing(jobs, k, before) - (if jid in Froms(jobs, k) then 1 else 0)
            && m >= 0
            && (IsWoken(jobs, before + [jid])(k) <==> jid in Froms(jobs, k) && m == 0)
  {
    MissingDrops(jobs, k, before, jid);
    MissingMeansNotReady(jobs, k, before + [jid]);
  }

  /** Counters during the pass: the first `i` keys already discount `jid`. */
  ghost predicate Counting(jobs: Jobs, keys: seq<JobId>, indeg: map<JobId, int>,
                           before: seq<JobId>, jid: JobId, i: int)
  {
    indeg.Keys == jobs.Keys
    && forall a | 0 <= a < |keys| ::
         keys[a] in jobs &&
         indeg[keys[a]] == Missing(jobs, keys[a], if a < i then before + [jid] else before)
  }

  lemma CountingAdvances(jobs: Jobs, keys: seq<JobId>, indeg: map<JobId, int>,
                         before: seq<JobId>, jid: JobId, i: nat)
    requires NoDup(keys) && i < |keys| && jid !in before
    requires Counting(jobs, keys, indeg, before, jid, i)
    ensures keys[i] in indeg
    ensures jid in Froms(jobs, keys[i]) ==>
              Counting(jobs, keys, indeg[keys[i] := indeg[keys[i]] - 1], before, jid, i + 1)
    ensures jid !in Froms(jobs, keys[i]) ==> Counting(jobs, keys, indeg, before, jid, i + 1)
  {
    RelaxOne(jobs, keys[i], before, jid);
    var less := indeg[keys[i] := indeg[keys[i]] - 1];
    forall a | 0 <= a < |keys|
      ensures less[keys[a]] == indeg[keys[a]] - if a == i then 1 else 0
    {
    }
  }

  lemma CountingSpansCounted(jobs: Jobs, indeg: map<JobId, int>, before: seq<JobId>, jid: JobId)
    ensures Counted(jobs, indeg, before) ==> Counting(jobs, KeyOrder(jobs), indeg, before, jid, 0)
    ensures Counting(jobs, KeyOrder(jobs), indeg, before, jid, |KeyOrder(jobs)|) ==>
              Counted(jobs, indeg, before + [jid])
  {
    forall k | k in jobs ensures k in KeyOrder(jobs) {
    }
  }

  /** The pass after `jid` is placed has seen the first `i` keys. */
  ghost predicate Relaxing(jobs: Jobs, indeg: map<JobId, int>, queue: seq<JobId>,
                           before: seq<JobId>, jid: JobId, waiting: seq<JobId>, i: nat)
    requires i <= |KeyOrder(jobs)|
  {
    Counting(jobs, KeyOrder(jobs), indeg, before, jid, i)
    && queue == waiting + Filter(KeyOrder(jobs)[..i], IsWoken(jobs, before + [jid]))
  }

  function LowerCounter(jobs: Jobs, indeg: map<JobId, int>, jid: JobId, k: JobId): map<JobId, int>
    requires k in indeg
  {
    if jid in Froms(jobs, k) && indeg[k] > 0 then indeg[k := indeg[k] - 1] else indeg
  }

  lemma LastCountWakes(jobs: Jobs, indeg: map<JobId, int>, before: seq<JobId>, jid: JobId, i: nat)
    requires i < |KeyOrder(jobs)| && jid !in before
    requires Counting(jobs, KeyOrder(jobs), indeg, before, jid, i)
    ensures var k := KeyOrder(jobs)[i];
            && (jid in Froms(jobs, k) ==> indeg[k] > 0)
            && IsWoken(jobs, before + [jid])(k) == (jid in Froms(jobs, k) && indeg[k] == 1)
  {
    RelaxOne(jobs, KeyOrder(jobs)[i], before, jid);
  }

  lemma RelaxingSteps(jobs: Jobs, indeg: map<JobId, int>, queue: seq<JobId>,
                      before: seq<JobId>, jid: JobId, waiting: seq<JobId>, i: nat)
    requires i < |KeyOrder(jobs)| && jid !in before
    requires Relaxing(jobs, indeg, queue, before, jid, waiting, i)
    ensures var k := KeyOrder(jobs)[i];
            && k in indeg
            && (jid in Froms(jobs, k) ==> indeg[k] > 0)
            && Relaxing(jobs, LowerCounter(jobs, indeg, jid, k),
                        if jid in Froms(jobs, k) && indeg[k] == 1 then queue + [k] else queue,
                        before, jid, waiting, i + 1)
  {
    KeyOrderDistinct(jobs);
    CountingAdvances(jobs, KeyOrder(jobs), indeg, before, jid, i);
    LastCountWakes(jobs, indeg, before, jid, i);
    FilterGrows(KeyOrder(jobs), i, IsWoken(jobs, before + [jid]), waiting, queue);
  }

  lemma RelaxingStarts(jobs: Jobs, indeg: map<JobId, int>, before: seq<JobId>, jid: JobId, waiting: seq<JobId>)
    requires Counted(jobs, indeg, before)
    ensures Relaxing(jobs, indeg, waiting, before, jid, waiting, 0)
  {
    CountingSpansCounted(jobs, indeg, before, jid);
  }

  lemma RelaxingEnds(jobs: Jobs, indeg: map<JobId, int>, queue: seq<JobId>,
                     before: seq<JobId>, jid: JobId, waiting: seq<JobId>)
    requires Relaxing(jobs, indeg, queue, before, jid, waiting, |KeyOrder(jobs)|)
    ensures Counted(jobs, indeg, before + [jid])
    ensures queue == waiting + Woken(jobs, before + [jid])
  {
    CountingSpansCounted(jobs, indeg, before, jid);
    WholePrefix(KeyOrder(jobs));
  }

  /** The scan over all jobs after `jid` is placed. */
  method Relax(jobs: Jobs, keys: seq<JobId>, jid: JobId, counters: map<JobId, int>,
               waiting: seq<JobId>, ghost before: seq<JobId>)
    returns (indeg: map<JobId, int>, queue: seq<JobId>)
    requires keys == KeyOrder(jobs) && jid !in before
    requires Counted(jobs, counters, before)
    ensures Counted(jobs, indeg, before + [jid])
    ensures queue == waiting + Woken(jobs, before + [jid])
  {
    indeg, queue := counters, waiting;
    RelaxingStarts(jobs, indeg, before, jid, waiting);
    for i := 0 to |keys|
      invariant Relaxing(jobs, indeg, queue, before, jid, waiting, i)
    {
      var other := keys[i];
      RelaxingSteps(jobs, indeg, queue, before, jid, waiting, i);
      ghost var lowered := LowerCounter(jobs, indeg, jid, other);
      ghost var grown := if jid in Froms(jobs, other) && indeg[other] == 1 then queue + [other] else queue;
      if jid in Froms(jobs, other) && indeg[other] > 0 {
        indeg := indeg[other := indeg[other] - 1];
        if indeg[other] == 0 {
          queue := queue + [other];
        }
      }
      assert indeg == lowered && queue == grown;
    }
    RelaxingEnds(jobs, indeg, queue, before, jid, waiting);
  }

  lemma InitiallyCounted(jobs: Jobs)
    ensures Counted(jobs, map j | j in jobs :: |jobs[j].parents|, [])
  {
    forall j | j in jobs ensures Missing(jobs, j, []) == |jobs[j].parents| {
      MissingAtStart(jobs, j);
    }
  }

  method TopologicalOrder(jobs: Jobs) returns (r: OrderResult)
    ensures r == TopoResult(jobs)
  {
    var keys := KeyOrder(jobs);
    var indeg: map<JobId, int> := map j | j in jobs :: |jobs[j].parents|;
    InitiallyCounted(jobs);
    ZeroCountersAreRoots(jobs, indeg);
    var queue := Filter(keys, k => k in indeg && indeg[k] == 0);
    var order: seq<JobId> := [];
    KahnStarts(jobs);
    while queue != []
      invariant KahnState(jobs, order, queue)
      invariant Kahn(jobs, order, queue) == Placed(jobs)
      invariant Counted(jobs, indeg, order)
      decreases |jobs.Keys| - |order|
    {
      var jid := queue[0];
      KahnSteps(jobs, order, queue);
      QueueHeadIsNew(order, queue);
      indeg, queue := Relax(jobs, keys, jid, indeg, queue[1..], order);
      order := order + [jid];
    }
    if |order| != |jobs| {
      PositiveCountersAreLeftOut(jobs, indeg);
      return DependencyCycle(Filter(keys, k => k in indeg && indeg[k] > 0));
    }
    return Ordered(order);
  }
}

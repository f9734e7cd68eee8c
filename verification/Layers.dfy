/** The FIFO queue makes Kahn's order non-decreasing in longest-path depth. */
module Layers {
  import opened Keys
  import opened Flow
  import opened Topology

  /** `lev[k]` is one more than the highest parent level, and 0 without parents. */
  predicate LevelAt(jobs: Jobs, lev: map<JobId, nat>, k: JobId)
    requires k in lev
  {
    k in jobs
    && (forall f | f in Froms(jobs, k) :: f in lev && lev[f] < lev[k])
    && (lev[k] > 0 ==> exists f :: f in Froms(jobs, k) && f in lev && lev[f] == lev[k] - 1)
  }

  ghost predicate IsLevelling(jobs: Jobs, lev: map<JobId, nat>) {
    forall k {:trigger LevelAt(jobs, lev, k)} | k in lev :: LevelAt(jobs, lev, k)
  }

  lemma {:induction false} LongestChain(jobs: Jobs, lev: map<JobId, nat>, k: JobId)
    returns (p: seq<JobId>)
    requires IsLevelling(jobs, lev) && k in lev
    ensures ChainTo(jobs, p, k) && |p| == lev[k] + 1
    decreases lev[k]
  {
    assert LevelAt(jobs, lev, k);
    if lev[k] == 0 {
      p := [k];
    } else {
      var f :| f in Froms(jobs, k) && f in lev && lev[f] == lev[k] - 1;
      var q := LongestChain(jobs, lev, f);
      ChainAppends(jobs, q, k);
      p := q + [k];
    }
  }

  lemma {:induction false} NoLongerChain(jobs: Jobs, lev: map<JobId, nat>, p: seq<JobId>)
    requires IsLevelling(jobs, lev) && Chain(jobs, p) && p[|p| - 1] in lev
    ensures |p| <= lev[p[|p| - 1]] + 1
    decreases |p|
  {
    if |p| > 1 {
      var n := |p| - 1;
      assert Link(jobs, p, n) && LevelAt(jobs, lev, p[n]);
      ChainSlice(jobs, p, 0, n);
      NoLongerChain(jobs, lev, p[0..n]);
    }
  }

  lemma LevelIsDepth(jobs: Jobs, lev: map<JobId, nat>, k: JobId)
    requires IsLevelling(jobs, lev) && k in lev
    ensures IsDepth(jobs, k, lev[k])
  {
    var p := LongestChain(jobs, lev, k);
    forall q | ChainTo(jobs, q, k) ensures |q| <= lev[k] + 1 {
      NoLongerChain(jobs, lev, q);
    }
  }

  lemma DepthIsUnique(jobs: Jobs, k: JobId, d: nat, e: nat)
    requires IsDepth(jobs, k, d) && IsDepth(jobs, k, e)
    ensures d == e
  {
  }

  /** Levels known for all of `xs` and never falling along it. */
  ghost predicate Climbs(lev: map<JobId, nat>, xs: seq<JobId>) {
    (forall i | 0 <= i < |xs| :: xs[i] in lev)
    && forall i, j | 0 <= i < j < |xs| :: lev[xs[i]] <= lev[xs[j]]
  }

  ghost predicate TwoLevels(lev: map<JobId, nat>, xs: seq<JobId>, base: JobId) {
    base in lev && forall i | 0 <= i < |xs| :: xs[i] in lev && lev[xs[i]] <= lev[base] + 1
  }

  /** The queue spans at most two neighbouring levels. */
  ghost predicate Layered(jobs: Jobs, lev: map<JobId, nat>, done: seq<JobId>, queue: seq<JobId>) {
    IsLevelling(jobs, lev)
    && (forall k | k in lev :: k in done + queue)
    && Climbs(lev, done + queue)
    && (queue != [] ==> TwoLevels(lev, queue, queue[0]))
  }

  lemma NoneAboveHead(lev: map<JobId, nat>, done: seq<JobId>, queue: seq<JobId>)
    requires queue != [] && Climbs(lev, done + queue)
    ensures queue[0] in lev
    ensures forall f | f in NextDone(done, queue) :: f in lev && lev[f] <= lev[queue[0]]
  {
    var all, placed := done + queue, NextDone(done, queue);
    assert all[|done|] == queue[0];
    forall i | 0 <= i < |placed| ensures placed[i] in lev && lev[placed[i]] <= lev[queue[0]] {
      assert all[i] == placed[i];
    }
  }

  lemma WokenSitOneHigher(jobs: Jobs, lev: map<JobId, nat>, done: seq<JobId>, queue: seq<JobId>, k: JobId)
    requires queue != [] && Climbs(lev, done + queue)
    requires k in Woken(jobs, NextDone(done, queue))
    ensures k in jobs && queue[0] in Froms(jobs, k) && queue[0] in lev
    ensures forall f | f in Froms(jobs, k) :: f in lev && lev[f] <= lev[queue[0]]
  {
    NoneAboveHead(lev, done, queue);
    assert IsWoken(jobs, NextDone(done, queue))(k);
  }

  ghost function Raise(jobs: Jobs, lev: map<JobId, nat>, woken: seq<JobId>, d: nat): map<JobId, nat> {
    lev + map k | k in woken :: d + 1
  }

  lemma RaiseIsLevelling(jobs: Jobs, lev: map<JobId, nat>, done: seq<JobId>, queue: seq<JobId>)
    requires KahnState(jobs, done, queue) && queue != [] && Layered(jobs, lev, done, queue)
    ensures queue[0] in lev
    ensures IsLevelling(jobs, Raise(jobs, lev, Woken(jobs, NextDone(done, queue)), lev[queue[0]]))
  {
    var x, woken := queue[0], Woken(jobs, NextDone(done, queue));
    assert (done + queue)[|done|] == x;
    var lev' := Raise(jobs, lev, woken, lev[x]);
    QueueHeadIsNew(done, queue);
    StepHoldsReady(jobs, done, x, done + queue);
    forall k | k in lev' ensures LevelAt(jobs, lev', k) {
      if k in woken {
        WokenSitOneHigher(jobs, lev, done, queue, k);
        forall f | f in Froms(jobs, k) ensures f in lev' && lev'[f] < lev'[k] {
          assert f in lev && f in done + queue;
        }
        assert x in Froms(jobs, k) && lev'[x] == lev'[k] - 1;
      } else {
        assert LevelAt(jobs, lev, k);
        forall f | f in Froms(jobs, k) ensures f in lev' && lev'[f] == lev[f] {
          assert f in lev && f in done + queue;
        }
      }
    }
  }

  /** Appending jobs one level above the head keeps the levels from falling. */
  lemma RaiseClimbs(jobs: Jobs, lev: map<JobId, nat>, done: seq<JobId>, queue: seq<JobId>, woken: seq<JobId>)
    requires queue != [] && Climbs(lev, done + queue) && TwoLevels(lev, queue, queue[0])
    requires forall k | k in woken :: k !in done + queue
    ensures Climbs(Raise(jobs, lev, woken, lev[queue[0]]), (done + queue) + woken)
    ensures TwoLevels(Raise(jobs, lev, woken, lev[queue[0]]), queue + woken, queue[0])
  {
    var x, all := queue[0], done + queue;
    var lev', all' := Raise(jobs, lev, woken, lev[x]), all + woken;
    forall i | 0 <= i < |all|
      ensures all[i] in lev && lev[all[i]] <= lev[x] + 1
      ensures all[i] in lev' && lev'[all[i]] == lev[all[i]]
    {
      assert all[i] in all && all[|done|] == x;
      if i > |done| { assert all[i] == queue[i - |done|]; }
    }
    forall i | 0 <= i < |woken| ensures woken[i] in lev' && lev'[woken[i]] == lev[x] + 1 {
      assert woken[i] in woken;
    }
    forall i | 0 <= i < |queue| ensures queue[i] in lev' && lev'[queue[i]] == lev[queue[i]] {
      assert all[|done| + i] == queue[i];
    }
    forall i | 0 <= i < |all'| ensures all'[i] == if i < |all| then all[i] else woken[i - |all|] {
    }
  }

  lemma NextTwoLevels(lev: map<JobId, nat>, done: seq<JobId>, queue: seq<JobId>, woken: seq<JobId>)
    requires queue != [] && queue[1..] + woken != []
    requires Climbs(lev, (done + queue) + woken) && TwoLevels(lev, queue + woken, queue[0])
    ensures TwoLevels(lev, queue[1..] + woken, (queue[1..] + woken)[0])
  {
    var queue', all' := queue[1..] + woken, (done + queue) + woken;
    assert all'[|done|] == queue[0] && all'[|done| + 1] == queue'[0];
    forall i | 0 <= i < |queue'| ensures queue'[i] in lev && lev[queue'[i]] <= lev[queue[0]] + 1 {
      assert queue'[i] == (queue + woken)[i + 1];
    }
  }

  lemma LayersStep(jobs: Jobs, lev: map<JobId, nat>, done: seq<JobId>, queue: seq<JobId>)
    requires KahnState(jobs, done, queue) && queue != [] && Layered(jobs, lev, done, queue)
    ensures Layered(jobs, Raise(jobs, lev, Woken(jobs, NextDone(done, queue)), lev[queue[0]]),
                    NextDone(done, queue), NextQueue(jobs, done, queue))
  {
    RaiseIsLevelling(jobs, lev, done, queue);
    var woken := Woken(jobs, NextDone(done, queue));
    var lev' := Raise(jobs, lev, woken, lev[queue[0]]);
    QueueHeadIsNew(done, queue);
    StepHoldsReady(jobs, done, queue[0], done + queue);
    QueueRotates(done, queue, woken);
    RaiseClimbs(jobs, lev, done, queue, woken);
    if NextQueue(jobs, done, queue) != [] {
      NextTwoLevels(lev', done, queue, woken);
    }
  }

  lemma {:induction false} KahnIsLayered(jobs: Jobs, lev: map<JobId, nat>, done: seq<JobId>, queue: seq<JobId>)
    returns (lev': map<JobId, nat>)
    requires KahnState(jobs, done, queue) && Layered(jobs, lev, done, queue)
    ensures IsLevelling(jobs, lev') && Climbs(lev', Kahn(jobs, done, queue))
    decreases |jobs.Keys| - |done|
  {
    if queue == [] {
      assert done + queue == done;
      lev' := lev;
    } else {
      KahnSteps(jobs, done, queue);
      LayersStep(jobs, lev, done, queue);
      lev' := KahnIsLayered(jobs, Raise(jobs, lev, Woken(jobs, NextDone(done, queue)), lev[queue[0]]),
                            NextDone(done, queue), NextQueue(jobs, done, queue));
    }
  }

  ghost function RootLevels(jobs: Jobs): map<JobId, nat> {
    map k | k in Roots(jobs) :: 0
  }

  lemma RootsAreLevelled(jobs: Jobs)
    ensures IsLevelling(jobs, RootLevels(jobs))
  {
    forall k | k in RootLevels(jobs) ensures LevelAt(jobs, RootLevels(jobs), k) {
      assert IsRoot(jobs)(k);
    }
  }

  lemma RootsAreLayered(jobs: Jobs)
    ensures Layered(jobs, RootLevels(jobs), [], Roots(jobs))
  {
    RootsAreLevelled(jobs);
    var roots := Roots(jobs);
    assert [] + roots == roots;
    forall i | 0 <= i < |roots| ensures roots[i] in RootLevels(jobs) && RootLevels(jobs)[roots[i]] == 0 {
      assert roots[i] in roots;
    }
  }

  lemma OrderHasLevels(jobs: Jobs) returns (lev: map<JobId, nat>)
    requires TopoResult(jobs).Ordered?
    ensures IsLevelling(jobs, lev) && Climbs(lev, TopoResult(jobs).order)
  {
    KahnStarts(jobs);
    RootsAreLayered(jobs);
    lev := KahnIsLayered(jobs, RootLevels(jobs), [], Roots(jobs));
  }

  /** Every ordered job has a longest-path depth. */
  lemma OrderedHaveDepth(jobs: Jobs, i: nat) returns (d: nat)
    requires TopoResult(jobs).Ordered? && i < |TopoResult(jobs).order|
    ensures IsDepth(jobs, TopoResult(jobs).order[i], d)
  {
    var lev := OrderHasLevels(jobs);
    d := lev[TopoResult(jobs).order[i]];
    LevelIsDepth(jobs, lev, TopoResult(jobs).order[i]);
  }

  /** Longest-path depth never falls along Kahn's order. */
  lemma OrderFollowsDepth(jobs: Jobs, i: nat, j: nat, d: nat, e: nat)
    requires TopoResult(jobs).Ordered?
    requires i < j < |TopoResult(jobs).order|
    requires IsDepth(jobs, TopoResult(jobs).order[i], d)
    requires IsDepth(jobs, TopoResult(jobs).order[j], e)
    ensures d <= e
  {
    var lev := OrderHasLevels(jobs);
    var a, b := TopoResult(jobs).order[i], TopoResult(jobs).order[j];
    LevelIsDepth(jobs, lev, a);
    LevelIsDepth(jobs, lev, b);
    DepthIsUnique(jobs, a, d, lev[a]);
    DepthIsUnique(jobs, b, e, lev[b]);
  }

  /** The order opens with exactly the parentless jobs, in key order. */
  lemma RootsComeFirst(jobs: Jobs)
    requires TopoResult(jobs).Ordered?
    ensures Roots(jobs) <= TopoResult(jobs).order
    ensures Sorted(Roots(jobs))
    ensures forall j :: j in Roots(jobs) <==> j in jobs && jobs[j].parents == []
  {
    PlacedWithin(jobs);
    RootsInKeyOrder(jobs);
  }

  lemma RootsInKeyOrder(jobs: Jobs)
    ensures Sorted(Roots(jobs))
    ensures forall j :: j in Roots(jobs) <==> j in jobs && jobs[j].parents == []
  {
    SortedKeysOrdered(jobs.Keys);
    FilterKeepsOrder(KeyOrder(jobs), IsRoot(jobs));
    forall j ensures j in Roots(jobs) <==> j in jobs && |Froms(jobs, j)| == 0 {
      assert IsRoot(jobs)(j) <==> |Froms(jobs, j)| == 0;
    }
  }
}

/** A flow: jobs keyed by id, each with an ordered list of parent edges. */
module Flow {
  import opened Wrappers
  import opened Keys

  type JobId = string

  datatype DependencyKind =
    AfterOk | AfterAny | After | AfterNotOk | AfterCorr | AfterBurstBuffer | Singleton

  datatype Edge = Edge(from: JobId, kind: DependencyKind)

  /** The fields `submit` reads or copies; `rest` stands for those copied unread. */
  datatype SlurmConfig = SlurmConfig(partition: string, logStdout: Option<string>,
                                     logStderr: Option<string>, rest: string)

  datatype Job = Job(parents: seq<Edge>, program: string, body: string, config: SlurmConfig)

  type Jobs = map<JobId, Job>

  function ParentsOf(jobs: Jobs, j: JobId): seq<Edge> {
    if j in jobs then jobs[j].parents else []
  }

  /** The ids named by `j`'s parent edges, in edge order. */
  function Froms(jobs: Jobs, j: JobId): (r: seq<JobId>)
    ensures |r| == |ParentsOf(jobs, j)|
    ensures forall i | 0 <= i < |r| :: r[i] == ParentsOf(jobs, j)[i].from
  {
    var es := ParentsOf(jobs, j);
    seq(|es|, i requires 0 <= i < |es| => es[i].from)
  }

  // ---- Graph vocabulary ----

  /** Parents are pairwise distinct jobs of the flow. */
  predicate WellEdged(jobs: Jobs, j: JobId) {
    NoDup(Froms(jobs, j)) && forall f | f in Froms(jobs, j) :: f in jobs
  }

  predicate Link(jobs: Jobs, p: seq<JobId>, i: nat)
    requires 0 < i < |p|
  {
    p[i - 1] in Froms(jobs, p[i])
  }

  /** A walk along parent edges, from ancestor to descendant. */
  predicate Chain(jobs: Jobs, p: seq<JobId>) {
    |p| > 0
    && (forall i | 0 <= i < |p| :: p[i] in jobs)
    && forall i | 0 < i < |p| :: Link(jobs, p, i)
  }

  predicate ChainTo(jobs: Jobs, p: seq<JobId>, j: JobId) {
    Chain(jobs, p) && p[|p| - 1] == j
  }

  predicate Cycle(jobs: Jobs, p: seq<JobId>) {
    Chain(jobs, p) && |p| > 1 && p[0] == p[|p| - 1]
  }

  ghost predicate Acyclic(jobs: Jobs) {
    !exists p :: Cycle(jobs, p)
  }

  ghost predicate OnCycle(jobs: Jobs, j: JobId) {
    exists p :: Cycle(jobs, p) && p[0] == j
  }

  /** `j` is, or descends from, a job on a cycle or with malformed parent edges. */
  ghost predicate Stuck(jobs: Jobs, j: JobId) {
    exists p :: ChainTo(jobs, p, j) && (!WellEdged(jobs, p[0]) || OnCycle(jobs, p[0]))
  }

  /** The longest chain ending in `j` has `d` edges. */
  ghost predicate IsDepth(jobs: Jobs, j: JobId, d: nat) {
    (exists p :: ChainTo(jobs, p, j) && |p| == d + 1)
    && forall p | ChainTo(jobs, p, j) :: |p| <= d + 1
  }

  // ---- Topological orders ----

  predicate Ready(jobs: Jobs, j: JobId, done: seq<JobId>) {
    j in jobs && NoDup(Froms(jobs, j)) && forall f | f in Froms(jobs, j) :: f in done
  }

  /** Every job of `order` comes after all its parents, and none comes twice. */
  predicate ParentsFirst(jobs: Jobs, order: seq<JobId>) {
    order == [] ||
    var n := |order| - 1;
    ParentsFirst(jobs, order[..n]) && order[n] !in order[..n] && Ready(jobs, order[n], order[..n])
  }

  /** A permutation of the flow's jobs with every parent strictly earlier. */
  ghost predicate IsTopo(jobs: Jobs, order: seq<JobId>) {
    ParentsFirst(jobs, order) && forall j :: j in order <==> j in jobs
  }

  lemma ChainExtends(jobs: Jobs, f: JobId, p: seq<JobId>)
    requires Chain(jobs, p) && f in jobs && f in Froms(jobs, p[0])
    ensures ChainTo(jobs, [f] + p, p[|p| - 1])
  {
    var q := [f] + p;
    forall i | 0 < i < |q| ensures Link(jobs, q, i) {
      if i > 1 { assert Link(jobs, p, i - 1); }
    }
  }

  lemma ChainAppends(jobs: Jobs, p: seq<JobId>, c: JobId)
    requires Chain(jobs, p) && c in jobs && p[|p| - 1] in Froms(jobs, c)
    ensures Chain(jobs, p + [c])
  {
    var q := p + [c];
    forall i | 0 < i < |q| ensures Link(jobs, q, i) {
      if i < |p| { assert Link(jobs, p, i); }
    }
  }

  lemma ChainSlice(jobs: Jobs, p: seq<JobId>, a: nat, b: nat)
    requires Chain(jobs, p) && a < b <= |p|
    ensures Chain(jobs, p[a..b])
  {
    var q := p[a..b];
    forall i | 0 < i < |q| ensures Link(jobs, q, i) {
      assert Link(jobs, p, a + i);
    }
  }

  lemma {:induction false} ParentsFirstAt(jobs: Jobs, order: seq<JobId>, i: nat)
    requires ParentsFirst(jobs, order) && i < |order|
    ensures order[i] !in order[..i] && Ready(jobs, order[i], order[..i])
    ensures ParentsFirst(jobs, order[..i])
  {
    var n := |order| - 1;
    if i < n {
      ParentsFirstAt(jobs, order[..n], i);
      assert order[..n][..i] == order[..i];
    }
  }

  lemma {:induction false} ParentsFirstNoDup(jobs: Jobs, order: seq<JobId>)
    requires ParentsFirst(jobs, order)
    ensures NoDup(order)
  {
    forall i, j | 0 <= i < j < |order| ensures order[i] != order[j] {
      ParentsFirstAt(jobs, order, j);
      assert order[..j][i] == order[i];
    }
  }

  /** Along a chain that ends inside `order`, positions strictly increase. */
  lemma {:induction false} ChainClimbs(jobs: Jobs, order: seq<JobId>, p: seq<JobId>, k: nat)
    requires ParentsFirst(jobs, order) && Chain(jobs, p)
    requires k < |order| && order[k] == p[|p| - 1]
    ensures forall i | 0 <= i < |p| - 1 :: p[i] in order[..k]
    decreases |p|
  {
    if |p| > 1 {
      var q := p[..|p| - 1];
      assert Link(jobs, p, |p| - 1);
      ChainSlice(jobs, p, 0, |p| - 1);
      assert q == p[0..|p| - 1];
      ParentsFirstAt(jobs, order, k);
      var m :| 0 <= m < k && order[m] == q[|q| - 1];
      ChainClimbs(jobs, order, q, m);
      forall i | 0 <= i < |p| - 1 ensures p[i] in order[..k] {
        if i < |q| - 1 {
          assert q[i] in order[..m];
        }
      }
    }
  }

  /** A job that a parents-first order contains is not stuck. */
  lemma OrderedIsNotStuck(jobs: Jobs, order: seq<JobId>, j: JobId)
    requires ParentsFirst(jobs, order) && j in order
    requires forall x | x in order :: x in jobs
    ensures !Stuck(jobs, j)
  {
    forall p | ChainTo(jobs, p, j)
      ensures WellEdged(jobs, p[0]) && !OnCycle(jobs, p[0])
    {
      var k :| 0 <= k < |order| && order[k] == j;
      ChainClimbs(jobs, order, p, k);
      assert p[0] in order by {
        if |p| > 1 { assert p[0] in order[..k]; }
      }
      var m :| 0 <= m < |order| && order[m] == p[0];
      ParentsFirstAt(jobs, order, m);
      forall c | Cycle(jobs, c) ensures c[0] != p[0] {
        if c[0] == p[0] {
          ChainClimbs(jobs, order, c, m);
        }
      }
    }
  }

  predicate HasParentIn(jobs: Jobs, j: JobId, rest: set<JobId>) {
    exists f :: f in Froms(jobs, j) && f in rest
  }

  /** No job of `rest` can be placed first: each is malformed or waits for another one. */
  predicate Deadlocked(jobs: Jobs, rest: set<JobId>) {
    forall r | r in rest :: r in jobs && (!WellEdged(jobs, r) || HasParentIn(jobs, r, rest))
  }

  ghost predicate HasCycleWithin(jobs: Jobs, rest: set<JobId>) {
    exists c :: Cycle(jobs, c) && forall x | x in c :: x in rest
  }

  /** A parent of the chain's top that already lies on the chain closes a cycle. */
  lemma ChainCloses(jobs: Jobs, p: seq<JobId>, i: nat, rest: set<JobId>)
    requires Chain(jobs, p) && i < |p| && p[i] in Froms(jobs, p[0])
    requires forall x | x in p :: x in rest
    ensures HasCycleWithin(jobs, rest)
    ensures Stuck(jobs, p[|p| - 1])
  {
    ChainSlice(jobs, p, 0, i + 1);
    ChainExtends(jobs, p[i], p[0..i + 1]);
    var c := [p[i]] + p[0..i + 1];
    assert Cycle(jobs, c) && c[0] == p[i];
    forall x | x in c ensures x in rest { assert x in p; }
    ChainSlice(jobs, p, i, |p|);
    assert ChainTo(jobs, p[i..|p|], p[|p| - 1]) && OnCycle(jobs, p[i..|p|][0]);
  }

  /** Pigeonhole: inside a deadlocked set, walking upwards reaches a malformed job
      or closes a cycle. */
  lemma {:induction false} WalkUp(jobs: Jobs, rest: set<JobId>, p: seq<JobId>)
    requires Deadlocked(jobs, rest)
    requires Chain(jobs, p) && NoDup(p) && forall x | x in p :: x in rest
    ensures Stuck(jobs, p[|p| - 1])
    ensures (forall r | r in rest :: WellEdged(jobs, r)) ==> HasCycleWithin(jobs, rest)
    decreases |rest| - |p|
  {
    var top, j := p[0], p[|p| - 1];
    assert top in p;
    if !WellEdged(jobs, top) {
      assert ChainTo(jobs, p, j);
    } else {
      assert HasParentIn(jobs, top, rest);
      var f :| f in Froms(jobs, top) && f in rest;
      if f in p {
        var i :| 0 <= i < |p| && p[i] == f;
        ChainCloses(jobs, p, i, rest);
      } else {
        ChainExtends(jobs, f, p);
        NoDupWithin([f] + p, rest);
        WalkUp(jobs, rest, [f] + p);
      }
    }
  }
}

/** The tick reads an edge's `from` and never its `kind`. When does it skip only along `afterok`
    edges all the same? */
module EdgeKinds {
  import opened Wrappers
  import opened Keys
  import opened Flow
  import opened Transitions
  import opened Tick

  function AfterOkEdges(edges: seq<Edge>): seq<Edge> {
    if edges == [] then []
    else (if edges[0].kind.AfterOk? then [edges[0]] else []) + AfterOkEdges(edges[1..])
  }

  /** The flow with every other kind of edge removed. */
  function AfterOkOnly(jobs: Jobs): Jobs {
    map j | j in jobs :: jobs[j].(parents := AfterOkEdges(jobs[j].parents))
  }

  /** Edge `i` is the first with a Failed or Skipped parent. */
  predicate FirstBadAt(edges: seq<Edge>, current: Statuses, i: nat) {
    i < |edges| && BadEdge(edges[i], current) && forall k | 0 <= k < i :: !BadEdge(edges[k], current)
  }

  /** The first edge with a Failed or Skipped parent, if any, is an `afterok` edge. */
  ghost predicate BlamesAfterOk(edges: seq<Edge>, current: Statuses) {
    forall i: nat | FirstBadAt(edges, current, i) :: edges[i].kind.AfterOk?
  }

  predicate DistinctFroms(edges: seq<Edge>) {
    forall i, k | 0 <= i < k < |edges| :: edges[i].from != edges[k].from
  }

  lemma {:induction false} AfterOkAreSome(edges: seq<Edge>)
    ensures forall e | e in AfterOkEdges(edges) :: e in edges && e.kind.AfterOk?
  {
    if edges != [] {
      AfterOkAreSome(edges[1..]);
    }
  }

  /** Whoever is blamed is a parent. */
  lemma BlamedIsParent(edges: seq<Edge>, current: Statuses)
    ensures FirstBad(ParentLifecycles(edges, current)).Some? ==>
              exists e | e in edges :: e.from == FirstBad(ParentLifecycles(edges, current)).value
  {
    FirstBadEdge(edges, current);
    if FirstBad(ParentLifecycles(edges, current)).Some? {
      var q := FirstBad(ParentLifecycles(edges, current)).value;
      var i :| 0 <= i < |edges| && BadEdge(edges[i], current) && edges[i].from == q;
      assert edges[i] in edges;
    }
  }

  lemma FirstBadUnfolds(e: Edge, rest: seq<Edge>, current: Statuses)
    ensures FirstBad(ParentLifecycles([e] + rest, current)) ==
              if BadEdge(e, current) then Some(e.from) else FirstBad(ParentLifecycles(rest, current))
  {
    var all := ParentLifecycles([e] + rest, current);
    assert ([e] + rest)[1..] == rest;
    if e.from in current {
      assert all[1..] == ParentLifecycles(rest, current);
    } else {
      assert all == ParentLifecycles(rest, current);
    }
  }

  /** Reading only the `afterok` edges blames the same parent exactly when the first bad edge is one. */
  lemma {:induction false} SameBlame(edges: seq<Edge>, current: Statuses)
    requires DistinctFroms(edges)
    ensures BlamesAfterOk(edges, current) <==>
              FirstBad(ParentLifecycles(AfterOkEdges(edges), current)) == FirstBad(ParentLifecycles(edges, current))
  {
    if edges != [] {
      var e, rest := edges[0], edges[1..];
      SameBlame(rest, current);
      BlameUnfolds(edges, current);
      assert edges == [e] + rest;
      FirstBadUnfolds(e, rest, current);
      if e.kind.AfterOk? {
        FirstBadUnfolds(e, AfterOkEdges(rest), current);
      } else {
        assert AfterOkEdges(edges) == AfterOkEdges(rest);
        AfterOkAreSome(rest);
        BlamedIsParent(AfterOkEdges(rest), current);
        assert forall o | o in rest :: o.from != e.from;
      }
    }
  }

  lemma BlameUnfolds(edges: seq<Edge>, current: Statuses)
    requires edges != []
    ensures BadEdge(edges[0], current) ==> (BlamesAfterOk(edges, current) <==> edges[0].kind.AfterOk?)
    ensures !BadEdge(edges[0], current) ==> (BlamesAfterOk(edges, current) <==> BlamesAfterOk(edges[1..], current))
  {
    var rest := edges[1..];
    if BadEdge(edges[0], current) {
      assert FirstBadAt(edges, current, 0);
    } else {
      forall i: nat | FirstBadAt(rest, current, i) ensures FirstBadAt(edges, current, i + 1) {
        forall k | 0 <= k < i + 1 ensures !BadEdge(edges[k], current) {
          assert k > 0 ==> edges[k] == rest[k - 1];
        }
      }
      forall i: nat | FirstBadAt(edges, current, i) ensures i > 0 && FirstBadAt(rest, current, i - 1) {
        assert forall k | 0 <= k < i - 1 :: rest[k] == edges[k + 1];
      }
    }
  }

  // ---- One job ----

  lemma WellEdgedIsDistinct(jobs: Jobs, j: JobId)
    requires NoDup(Froms(jobs, j))
    ensures DistinctFroms(ParentsOf(jobs, j))
  {
    var edges := ParentsOf(jobs, j);
    forall i, k | 0 <= i < k < |edges| ensures edges[i].from != edges[k].from {
      assert Froms(jobs, j)[i] != Froms(jobs, j)[k];
    }
  }

  /** A job is decided as if only its `afterok` edges were there, exactly when it is not Queued or
      its first bad edge, if any, is an `afterok` edge. */
  lemma DecidedByAfterOk(jobs: Jobs, j: JobId, run: JobRun, ans: Answers, current: Statuses)
    requires NoDup(Froms(jobs, j))
    ensures DecideJob(AfterOkOnly(jobs), j, run, ans, current) == DecideJob(jobs, j, run, ans, current) <==>
              (run.lifecycle.Queued? ==> BlamesAfterOk(ParentsOf(jobs, j), current))
  {
    WellEdgedIsDistinct(jobs, j);
    assert ParentsOf(AfterOkOnly(jobs), j) == AfterOkEdges(ParentsOf(jobs, j));
    SameBlame(ParentsOf(jobs, j), current);
  }

  // ---- One tick ----

  /** No job Queued at the start blames another kind of edge in the end. */
  ghost predicate TickBlamesAfterOk(jobs: Jobs, was: Statuses, now: Statuses) {
    forall j | j in was && was[j].lifecycle.Queued? :: BlamesAfterOk(ParentsOf(jobs, j), now)
  }

  /** The tick decides as the flow without the other edges would. */
  predicate SkipsAlongAfterOk(jobs: Jobs, ans: Answers, order: seq<JobId>, was: Statuses) {
    Decisions(AfterOkOnly(jobs), ans, was, FullPass(AfterOkOnly(jobs), ans, order, was)) ==
    Decisions(jobs, ans, was, FullPass(jobs, ans, order, was))
  }

  lemma {:induction false} AfterOkKeepsOrder(jobs: Jobs, order: seq<JobId>)
    requires ParentsFirst(jobs, order)
    ensures ParentsFirst(AfterOkOnly(jobs), order)
  {
    if order != [] {
      var n := |order| - 1;
      AfterOkKeepsOrder(jobs, order[..n]);
      AfterOkKeepsReady(jobs, order[n], order[..n]);
    }
  }

  lemma {:induction false} AfterOkKeepsDistinct(edges: seq<Edge>)
    requires DistinctFroms(edges)
    ensures DistinctFroms(AfterOkEdges(edges))
  {
    if edges != [] {
      AfterOkKeepsDistinct(edges[1..]);
      AfterOkAreSome(edges[1..]);
    }
  }

  lemma AfterOkKeepsReady(jobs: Jobs, j: JobId, done: seq<JobId>)
    requires Ready(jobs, j, done)
    ensures Ready(AfterOkOnly(jobs), j, done)
  {
    var edges, some := ParentsOf(jobs, j), ParentsOf(AfterOkOnly(jobs), j);
    WellEdgedIsDistinct(jobs, j);
    AfterOkKeepsDistinct(edges);
    AfterOkAreSome(edges);
    forall f | f in Froms(AfterOkOnly(jobs), j) ensures f in done {
      var i :| 0 <= i < |some| && some[i].from == f;
      assert some[i] in edges;
      var k :| 0 <= k < |edges| && edges[k] == some[i];
      assert Froms(jobs, j)[k] in Froms(jobs, j);
    }
  }

  /** Equal reports mean equal records: what a tick leaves is its report applied to what it found. */
  lemma ReportFixesRecords(jobs: Jobs, more: Jobs, ans: Answers, was: Statuses, a: Statuses, b: Statuses)
    requires Settled(jobs, ans, was, a) && Settled(more, ans, was, b)
    requires Decisions(jobs, ans, was, a) == Decisions(more, ans, was, b)
    ensures a == b
  {
    forall j | j in was ensures a[j] == b[j] {
      assert Solved(jobs, ans, was, a, j) && Solved(more, ans, was, b, j);
      if !was[j].lifecycle.IsTerminal() {
        assert Decisions(jobs, ans, was, a)[j] == Decisions(more, ans, was, b)[j];
      }
    }
  }

  /** The finished tick decides a recorded job as its `afterok` edges alone would. */
  predicate SameDecision(jobs: Jobs, ans: Answers, was: Statuses, now: Statuses, j: JobId)
    requires j in was
  {
    DecideJob(AfterOkOnly(jobs), j, was[j], ans, now) == DecideJob(jobs, j, was[j], ans, now)
  }

  lemma SameDecisionsAre(jobs: Jobs, ans: Answers, order: seq<JobId>, was: Statuses, now: Statuses)
    requires IsTopo(jobs, order) && was.Keys <= jobs.Keys
    ensures (forall j | j in was :: SameDecision(jobs, ans, was, now, j)) <==> TickBlamesAfterOk(jobs, was, now)
  {
    forall j | j in was
      ensures SameDecision(jobs, ans, was, now, j) <==>
                (was[j].lifecycle.Queued? ==> BlamesAfterOk(ParentsOf(jobs, j), now))
    {
      assert j in order;
      var i :| 0 <= i < |order| && order[i] == j;
      ParentsFirstAt(jobs, order, i);
      DecidedByAfterOk(jobs, j, was[j], ans, now);
    }
  }

  /** If the two decisions agree for every job, the finished tick also solves the smaller flow. */
  lemma SameDecisionsSettle(jobs: Jobs, ans: Answers, was: Statuses, now: Statuses)
    requires Settled(jobs, ans, was, now)
    requires forall j | j in was :: SameDecision(jobs, ans, was, now, j)
    ensures Settled(AfterOkOnly(jobs), ans, was, now)
    ensures Decisions(AfterOkOnly(jobs), ans, was, now) == Decisions(jobs, ans, was, now)
  {
    forall j | j in was
      ensures Solved(AfterOkOnly(jobs), ans, was, now, j)
      ensures DecideJob(AfterOkOnly(jobs), j, was[j], ans, now) == DecideJob(jobs, j, was[j], ans, now)
    {
      assert Solved(jobs, ans, was, now, j) && SameDecision(jobs, ans, was, now, j);
    }
  }

  lemma SameReportDecidesSame(jobs: Jobs, ans: Answers, was: Statuses, now: Statuses)
    requires Decisions(AfterOkOnly(jobs), ans, was, now) == Decisions(jobs, ans, was, now)
    ensures forall j | j in was :: SameDecision(jobs, ans, was, now, j)
  {
    forall j | j in was ensures SameDecision(jobs, ans, was, now, j) {
      if !was[j].lifecycle.IsTerminal() {
        assert Decisions(AfterOkOnly(jobs), ans, was, now)[j] == Decisions(jobs, ans, was, now)[j];
      }
    }
  }

  /** A whole tick skips along `afterok` edges only, exactly when no Queued job's first bad edge
      is of another kind. */
  lemma TickFollowsAfterOk(jobs: Jobs, ans: Answers, order: seq<JobId>, was: Statuses)
    requires IsTopo(jobs, order) && was.Keys <= jobs.Keys
    ensures SkipsAlongAfterOk(jobs, ans, order, was) <==>
              TickBlamesAfterOk(jobs, was, FullPass(jobs, ans, order, was))
  {
    var some, now := AfterOkOnly(jobs), FullPass(jobs, ans, order, was);
    var less := FullPass(some, ans, order, was);
    AfterOkKeepsOrder(jobs, order);
    FullPassSettles(jobs, ans, order, was);
    FullPassSettles(some, ans, order, was);
    SameDecisionsAre(jobs, ans, order, was, now);
    if TickBlamesAfterOk(jobs, was, now) {
      SameDecisionsSettle(jobs, ans, was, now);
      SettledUnique(some, ans, order, was, less, now);
    } else if SkipsAlongAfterOk(jobs, ans, order, was) {
      ReportFixesRecords(some, jobs, ans, was, less, now);
      SameReportDecidesSame(jobs, ans, was, now);
    }
  }

  // ---- Every tick of a flow ----

  predicate AllAfterOk(jobs: Jobs) {
    forall j | j in jobs :: forall e | e in jobs[j].parents :: e.kind.AfterOk?
  }

  lemma {:induction false} AllAfterOkEdges(edges: seq<Edge>)
    requires forall e | e in edges :: e.kind.AfterOk?
    ensures AfterOkEdges(edges) == edges
  {
    if edges != [] {
      AllAfterOkEdges(edges[1..]);
    }
  }

  /** The parent of an edge of another kind has failed, its child is Queued, nothing else is recorded. */
  function OneFailure(f: JobId, j: JobId): Statuses {
    map[f := JobRun(Failed, None, None, None), j := JobRun(Queued, None, None, None)]
  }

  lemma OtherKindSkips(jobs: Jobs, order: seq<JobId>, j: JobId, i: nat)
    requires IsTopo(jobs, order) && j in jobs && i < |jobs[j].parents| && !jobs[j].parents[i].kind.AfterOk?
    ensures var was := OneFailure(jobs[j].parents[i].from, j);
            was.Keys <= jobs.Keys && !SkipsAlongAfterOk(jobs, map[], order, was)
  {
    var edges := jobs[j].parents;
    var f := edges[i].from;
    var was := OneFailure(f, j);
    var now := FullPass(jobs, map[], order, was);
    assert j in order;
    var k :| 0 <= k < |order| && order[k] == j;
    ParentsFirstAt(jobs, order, k);
    assert Froms(jobs, j)[i] == f && f in Froms(jobs, j) && f in order[..k];
    var m :| 0 <= m < k && order[..k][m] == f;
    assert f == order[m] && f in jobs && f != j;
    FullPassSettles(jobs, map[], order, was);
    assert Solved(jobs, map[], was, now, f);
    WellEdgedIsDistinct(jobs, j);
    forall n | 0 <= n < i ensures !BadEdge(edges[n], now) {
      assert Froms(jobs, j)[n] in order[..k];
    }
    assert FirstBadAt(edges, now, i);
    TickFollowsAfterOk(jobs, map[], order, was);
  }

  /** Every tick of a flow, on any records and answers, skips along `afterok` edges only, exactly
      when the flow has no other edges. */
  lemma FlowFollowsAfterOk(jobs: Jobs, order: seq<JobId>)
    requires IsTopo(jobs, order)
    ensures (forall ans: Answers, was: Statuses | was.Keys <= jobs.Keys :: SkipsAlongAfterOk(jobs, ans, order, was))
              <==> AllAfterOk(jobs)
  {
    if AllAfterOk(jobs) {
      forall j | j in jobs ensures AfterOkEdges(jobs[j].parents) == jobs[j].parents {
        AllAfterOkEdges(jobs[j].parents);
      }
      assert AfterOkOnly(jobs) == jobs;
    } else {
      var j :| j in jobs && exists e :: e in jobs[j].parents && !e.kind.AfterOk?;
      var e :| e in jobs[j].parents && !e.kind.AfterOk?;
      var i :| 0 <= i < |jobs[j].parents| && jobs[j].parents[i] == e;
      OtherKindSkips(jobs, order, j, i);
    }
  }
}

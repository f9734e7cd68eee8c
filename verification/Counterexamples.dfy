/** Concrete inputs on which the repository's prose promises more than the code does. When it
    keeps the promise is proved in `Tick` (repetition), `EdgeKinds` (`afterok`), `History` and
    `Partial` (cut-off submits), `Topology` (cycles), `JobIdText` (names) and below (dry runs). */
module Counterexamples {
  import opened Wrappers
  import opened Keys
  import opened Flow
  import opened Topology
  import opened Transitions
  import opened Tick
  import opened History
  import opened JobIdText
  import opened Slurm
  import EdgeKinds
  import Listing
  import opened Runner

  const CONFIG: SlurmConfig := SlurmConfig("long", None, None, "")

  /** `b` waits for `a`. */
  const PAIR: Jobs := map["a" := Job([], "g16", "", CONFIG),
                          "b" := Job([Edge("a", AfterOk)], "g16", "", CONFIG)]

  lemma PairOrder()
    ensures IsTopo(PAIR, ["a", "b"])
  {
    var order := ["a", "b"];
    assert order[..1] == ["a"] && order[..0] == [];
    assert Froms(PAIR, "a") == [] && Froms(PAIR, "b") == ["a"];
    assert ParentsFirst(PAIR, order[..0]);
    assert order[..1][..0] == [] && Ready(PAIR, "a", []);
    assert ParentsFirst(PAIR, order[..1]);
    assert Ready(PAIR, "b", order[..1]);
  }

  /** `b` names `a` twice. */
  const TWICE: Jobs := map["a" := Job([], "g16", "", CONFIG),
                           "b" := Job([Edge("a", AfterOk), Edge("a", AfterAny)], "g16", "", CONFIG)]

  lemma TwiceRunsFromAToB(p: seq<JobId>)
    requires Chain(TWICE, p) && |p| > 1
    ensures p[0] == "a" && p[|p| - 1] == "b"
  {
    assert Froms(TWICE, "a") == [] && Froms(TWICE, "b") == ["a", "a"];
    assert Link(TWICE, p, 1) && Link(TWICE, p, |p| - 1);
  }

  /** A parent named twice is reported as a dependency cycle, although there is none. */
  lemma DuplicateParentReportsCycle()
    ensures Acyclic(TWICE) && TopoResult(TWICE).DependencyCycle?
  {
    assert Froms(TWICE, "a") == [] && Froms(TWICE, "b") == ["a", "a"];
    forall p | Chain(TWICE, p) && |p| > 1 ensures p[0] != p[|p| - 1] {
      TwiceRunsFromAToB(p);
    }
    assert !WellEdged(TWICE, "b") by { assert Froms(TWICE, "b")[0] == Froms(TWICE, "b")[1]; }
    OrderedExactlyWhenAcyclic(TWICE);
  }

  /** `tick` is not idempotent: a Running job that SLURM requeues below a failed parent goes
      back to Queued in one tick and is Skipped by the next, on the same answers. */
  lemma TickIsNotIdempotent() returns (was: Statuses, ans: Answers)
    ensures IsTopo(PAIR, ["a", "b"]) && was.Keys <= PAIR.Keys
    ensures var first := FullPass(PAIR, ans, ["a", "b"], was);
            FullPass(PAIR, ans, ["a", "b"], first) != first
  {
    PairOrder();
    was := map["a" := JobRun(Failed, Some(1), None, None), "b" := JobRun(Running, Some(2), None, None)];
    ans := map[2 := JobStatus(Requeued, "")];
    var order := ["a", "b"];
    var first := FullPass(PAIR, ans, order, was);
    FullPassSettles(PAIR, ans, order, was);
    assert Solved(PAIR, ans, was, first, "a") && Solved(PAIR, ans, was, first, "b");
    assert ParentsOf(PAIR, "b")[0] == Edge("a", AfterOk) && BadEdge(ParentsOf(PAIR, "b")[0], first);
    assert Flaps(PAIR, ans, was, first, "b");
    RepeatedTick(PAIR, ans, order, was);
  }

  /** A dependency kind other than `afterok` skips just the same: the tick reads only `from`. */
  lemma EdgeKindIsIgnored(jobs: Jobs, kind: DependencyKind, j: JobId, i: nat, run: JobRun, ans: Answers,
                          current: Statuses)
    requires j in jobs && i < |jobs[j].parents|
    ensures var e := jobs[j].parents[i];
            var other := jobs[j := jobs[j].(parents := jobs[j].parents[i := e.(kind := kind)])];
            DecideJob(other, j, run, ans, current) == DecideJob(jobs, j, run, ans, current)
  {
    var e := jobs[j].parents[i];
    KindIgnored(jobs[j].parents, i, kind, current);
  }

  lemma {:induction false} KindIgnored(edges: seq<Edge>, i: nat, kind: DependencyKind, current: Statuses)
    requires i < |edges|
    ensures ParentLifecycles(edges[i := edges[i].(kind := kind)], current) == ParentLifecycles(edges, current)
  {
    var other := edges[i := edges[i].(kind := kind)];
    if i == 0 {
      assert other[1..] == edges[1..];
    } else {
      KindIgnored(edges[1..], i - 1, kind, current);
      assert other[1..] == edges[1..][i - 1 := edges[i].(kind := kind)];
    }
  }

  /** `b` is there to clean up after `a` has failed. */
  const CLEANUP: Jobs := map["a" := Job([], "g16", "", CONFIG),
                             "b" := Job([Edge("a", AfterNotOk)], "g16", "", CONFIG)]

  lemma CleanupOrder()
    ensures IsTopo(CLEANUP, ["a", "b"])
  {
    var order := ["a", "b"];
    assert Froms(CLEANUP, "a") == [] && Froms(CLEANUP, "b") == ["a"];
    assert order[..1] == ["a"] && order[..1][..0] == [];
    assert ParentsFirst(CLEANUP, order[..1][..0]) && Ready(CLEANUP, "a", []);
    assert ParentsFirst(CLEANUP, order[..1]) && Ready(CLEANUP, "b", order[..1]);
  }

  const BOTH_QUEUED: Statuses := map["a" := QueuedRun(1), "b" := QueuedRun(2)]

  const A_FAILED_B_RUNS: Answers := map[1 := JobStatus(FailedState, ""), 2 := JobStatus(RunningState, "")]

  lemma CleanupSettles(now: Statuses)
    requires Settled(CLEANUP, A_FAILED_B_RUNS, BOTH_QUEUED, now)
    ensures EdgeKinds.FirstBadAt(ParentsOf(CLEANUP, "b"), now, 0)
    ensures now["b"].lifecycle == Skipped
  {
    assert Solved(CLEANUP, A_FAILED_B_RUNS, BOTH_QUEUED, now, "a");
    var edges := ParentsOf(CLEANUP, "b");
    assert edges == [Edge("a", AfterNotOk)] && BadEdge(edges[0], now);
    NewlySkipped(CLEANUP, A_FAILED_B_RUNS, BOTH_QUEUED, now, "b");
  }

  /** `a` fails, so SLURM starts the clean-up job `b`; the same tick records `b` as Skipped,
      blaming its `afternotok` edge. */
  lemma CleanupJobIsSkipped()
    ensures IsTopo(CLEANUP, ["a", "b"])
    ensures var now := FullPass(CLEANUP, A_FAILED_B_RUNS, ["a", "b"], BOTH_QUEUED);
            var report := Decisions(CLEANUP, A_FAILED_B_RUNS, BOTH_QUEUED, now);
            && "b" in report && report["b"] == SkipDueToParent("a")
            && "b" in now && now["b"].lifecycle == Skipped
    ensures !EdgeKinds.SkipsAlongAfterOk(CLEANUP, A_FAILED_B_RUNS, ["a", "b"], BOTH_QUEUED)
  {
    var now := FullPass(CLEANUP, A_FAILED_B_RUNS, ["a", "b"], BOTH_QUEUED);
    CleanupOrder();
    FullPassSettles(CLEANUP, A_FAILED_B_RUNS, ["a", "b"], BOTH_QUEUED);
    CleanupSettles(now);
    assert ParentsOf(CLEANUP, "b")[0] == Edge("a", AfterNotOk);
    SkipNamesFirstBadEdge(CLEANUP, A_FAILED_B_RUNS, BOTH_QUEUED, now, "b", "a");
    EdgeKinds.TickFollowsAfterOk(CLEANUP, A_FAILED_B_RUNS, ["a", "b"], BOTH_QUEUED);
  }

  /** No later tick ever corrects that, whatever SLURM answers. */
  lemma CleanupJobStaysSkipped(later: seq<Event>)
    requires AllPossible(CLEANUP, later) && forall i | 0 <= i < |later| :: !later[i].Submitted?
    ensures var now := FullPass(CLEANUP, A_FAILED_B_RUNS, ["a", "b"], BOTH_QUEUED);
            "b" in Run(CLEANUP, later, now) && Run(CLEANUP, later, now)["b"].lifecycle == Skipped
  {
    CleanupJobIsSkipped();
    TicksNeverUndo(CLEANUP, later, FullPass(CLEANUP, A_FAILED_B_RUNS, ["a", "b"], BOTH_QUEUED));
  }

  const ORDER: seq<JobId> := ["a", "b"]

  function SubmitBoth(): Event { Submitted(ORDER, [1, 2], 2) }

  function TickAFails(): Event { Ticked(ORDER, {"a", "b"}, map[1 := JobStatus(Timeout, "")], 2) }

  function ResubmitCutOff(): Event { Submitted(ORDER, [3], 1) }

  function TickASucceeds(): Event { Ticked(ORDER, {"a", "b"}, map[3 := JobStatus(Completed, "")], 2) }

  lemma AfterBoth()
    requires IsTopo(PAIR, ORDER)
    ensures Step(PAIR, SubmitBoth(), map[]) == map["a" := QueuedRun(1), "b" := QueuedRun(2)]
  {
    assert Requeue(ORDER, [1, 2], 1, map[]) == map["a" := QueuedRun(1)];
  }

  lemma AfterAFails(disk: Statuses)
    requires IsTopo(PAIR, ORDER) && disk == map["a" := QueuedRun(1), "b" := QueuedRun(2)]
    ensures var after := Step(PAIR, TickAFails(), disk);
            after.Keys == {"a", "b"} && after["a"].lifecycle == Failed && after["b"].lifecycle == Skipped
  {
    TickPair(disk, TickAFails());
  }

  lemma AfterCutOff(disk: Statuses)
    requires IsTopo(PAIR, ORDER)
    ensures Step(PAIR, ResubmitCutOff(), disk) == disk["a" := QueuedRun(3)]
  {
    assert Requeue(ORDER, [3], 0, disk) == disk;
  }

  lemma AfterASucceeds(disk: Statuses)
    requires IsTopo(PAIR, ORDER) && disk.Keys == {"a", "b"}
    requires disk["a"] == QueuedRun(3) && disk["b"].lifecycle == Skipped
    ensures var after := Step(PAIR, TickASucceeds(), disk);
            after.Keys == {"a", "b"} && after["a"].lifecycle == Success && after["b"].lifecycle == Skipped
  {
    TickPair(disk, TickASucceeds());
  }

  function CutOffRun(): seq<Event> {
    [] + [SubmitBoth()] + [TickAFails()] + [ResubmitCutOff()] + [TickASucceeds()]
  }

  lemma CutOffRunEnds() returns (disk: Statuses)
    ensures AllPossible(PAIR, CutOffRun()) && Run(PAIR, CutOffRun(), map[]) == disk
    ensures disk.Keys == {"a", "b"} && disk["a"].lifecycle == Success && disk["b"].lifecycle == Skipped
  {
    PairOrder();
    var h0: seq<Event> := [];
    var h1 := h0 + [SubmitBoth()];
    RunSnoc(PAIR, h0, SubmitBoth(), map[]);
    AfterBoth();
    var h2 := h1 + [TickAFails()];
    RunSnoc(PAIR, h1, TickAFails(), map[]);
    AfterAFails(Run(PAIR, h1, map[]));
    var h3 := h2 + [ResubmitCutOff()];
    RunSnoc(PAIR, h2, ResubmitCutOff(), map[]);
    AfterCutOff(Run(PAIR, h2, map[]));
    RunSnoc(PAIR, h3, TickASucceeds(), map[]);
    AfterASucceeds(Run(PAIR, h3, map[]));
    disk := Run(PAIR, CutOffRun(), map[]);
  }

  /** A run that is not orderly reaches PARTIAL: everything is submitted, `a` fails and `b` is
      skipped, a second submit is cut off after `a`, and `a` then succeeds. */
  lemma CutOffResubmitReachesPartial()
    ensures AllPossible(PAIR, CutOffRun())
    ensures Listing.FlowRowOf(Listing.Collected("u", PAIR, Run(PAIR, CutOffRun(), map[]), {}, 0)).status
              == Listing.FlowPartial
  {
    var disk := CutOffRunEnds();
    PairIsPartial(disk);
  }

  /** A full tick of the pair solves the equation for both jobs. */
  lemma TickPair(disk: Statuses, e: Event)
    requires e.Ticked? && e.order == ["a", "b"] && e.seen == {"a", "b"} && e.visited == 2
    requires IsTopo(PAIR, e.order) && disk.Keys == {"a", "b"}
    ensures var after := Step(PAIR, e, disk);
            && after.Keys == disk.Keys
            && Solved(PAIR, e.ans, disk, after, "a") && Solved(PAIR, e.ans, disk, after, "b")
  {
    var cur := Current(PAIR, e.seen, disk);
    assert cur == disk;
    FullPassSettles(PAIR, e.ans, e.order, disk);
    var now := FullPass(PAIR, e.ans, e.order, disk);
    assert Solved(PAIR, e.ans, disk, now, "a") && Solved(PAIR, e.ans, disk, now, "b");
    assert Step(PAIR, e, disk) == now;
  }

  lemma PairIsPartial(disk: Statuses)
    requires disk.Keys == {"a", "b"} && disk["a"].lifecycle == Success && disk["b"].lifecycle == Skipped
    ensures Listing.FlowRowOf(Listing.Collected("u", PAIR, disk, {}, 0)).status == Listing.FlowPartial
  {
    var cf := Listing.Collected("u", PAIR, disk, {}, 0);
    var keys := SortedKeys(PAIR.Keys);
    var ds := Listing.Displays(cf, keys);
    assert "a" in keys && "b" in keys;
    var i :| 0 <= i < |keys| && keys[i] == "b";
    assert ds[i] == Listing.Real(Skipped);
    forall d | d in ds ensures d == Listing.Real(Success) || d == Listing.Real(Skipped) {
      var k :| 0 <= k < |ds| && ds[k] == d;
      assert keys[k] in keys;
    }
    Listing.StatusMeaning(ds);
  }

  /** A step that ends in '_' does not come back once an axis follows it. */
  lemma TrailingUnderscoreIsLost()
    ensures ValidNames("a_", [("b", 0)])
    ensures Parsed(Built("a_", [("b", 0)])) != Ok(JobIdParts("a_", [("b", 0)]))
  {
    assert ValidateStepId("a_").Ok? && ValidateStepId("b").Ok?;
    assert EndsWithUnderscore("a_");
    RoundTrip("a_", [("b", 0)]);
  }

  /** What a dry run returns is empty exactly when no visible, readable status file of the flow's
      jobs carries an id. */
  lemma DryRunMapIsEmpty(runner: FlowRunner, fr: FlowRun)
    ensures runner.Recorded(fr.jobs.Keys) == map[] <==>
              forall j | j in fr.jobs && j in runner.disk.Visible() && j !in runner.disk.unreadable ::
                runner.disk.status[j].slurmJobid == None
  {
    forall j | j in fr.jobs && j in runner.disk.Visible() && j !in runner.disk.unreadable
      ensures runner.disk.status[j].slurmJobid.Some? ==> j in runner.Recorded(fr.jobs.Keys)
    {
    }
  }

  const SINGLE: Jobs := map["a" := Job([], "g16", "", CONFIG)]

  lemma SingleIsOrdered()
    ensures TopoResult(SINGLE).Ordered? && IsTopo(SINGLE, TopoResult(SINGLE).order)
  {
    assert Froms(SINGLE, "a") == [];
    forall p ensures !Cycle(SINGLE, p) {
      assert Chain(SINGLE, p) && |p| > 1 ==> Link(SINGLE, p, 1);
    }
    OrderedExactlyWhenAcyclic(SINGLE);
  }

  /** Every job of the flow is `a`, with an empty plan entry. */
  function SingleRun(): FlowRun {
    FlowRun("u", SINGLE, map["a" := map[]], config => config)
  }

  lemma SingleNeverStops(order: seq<JobId>, rendered: nat, error: JobManagerError)
    requires IsTopo(SINGLE, order)
    ensures !RenderStops(SingleRun(), order, rendered, true, error)
  {
    RoundTrip("a", []);
    assert rendered < |order| ==> order[rendered] in order;
  }

  lemma OneOldId(runner: FlowRunner)
    requires runner.disk.status == map["a" := QueuedRun(7)]
    requires runner.disk.hidden == {} && runner.disk.unreadable == {}
    ensures runner.Recorded(SINGLE.Keys) == map["a" := 7]
  {
  }

  /** With that one record on disk, a dry run of that one job returns the old id, although it
      submits nothing. */
  method DryRunReturnsOldId(runner: FlowRunner) returns (r: Result<map<JobId, nat>, JobManagerError>)
    requires runner.disk.status == map["a" := QueuedRun(7)] && runner.disk.reliable
    requires runner.disk.hidden == {} && runner.disk.unreadable == {}
    modifies runner.disk`snapshot, runner.disk`batch, runner.disk`status, runner.executor
    ensures r == Ok(map["a" := 7])
    ensures runner.disk.status == old(runner.disk.status)
    ensures runner.executor.callsLog == old(runner.executor.callsLog)
  {
    SingleIsOrdered();
    OneOldId(runner);
    ghost var e, sent, rendered;
    r, e, sent, rendered := runner.Submit(SingleRun(), true);
    if r.Err? {
      SingleNeverStops(TopoResult(SINGLE).order, rendered, r.error);
    }
  }
}

/** `jm ls`: the per-job and per-flow projections, their limits, and how they agree with each
    other and with the states the runner reaches. */
module Listing {
  import opened Wrappers
  import opened Keys
  import opened Flow
  import opened Topology
  import TopologyLoop
  import opened Fifo
  import opened Transitions
  import opened Tick
  import opened History

  datatype DisplayLifecycle = PendingJob | Real(lifecycle: Lifecycle)

  datatype FlowStatus = FlowFailed | FlowRunning | FlowQueued | FlowDone | FlowPartial | FlowPending

  /** A flow with its readable status per job (`None`: absent or unreadable). */
  datatype CollectedFlow = CollectedFlow(uuid: string, jobs: Jobs, statuses: map<JobId, Option<JobRun>>,
                                         createdAt: int)

  /** `accepts` is the search predicate on one job; `isDefault` says that no field is set. */
  datatype SearchFilter = SearchFilter(isDefault: bool, accepts: (CollectedFlow, JobId) -> bool)

  datatype JobRow = JobRow(flowUuid: string, jobId: JobId, status: DisplayLifecycle,
                           slurmJobid: Option<nat>, program: string, createdAt: int)

  datatype FlowRow = FlowRow(flowUuid: string, total: nat, done: nat, status: FlowStatus, createdAt: int)

  function StatusOf(cf: CollectedFlow, j: JobId): Option<JobRun> {
    if j in cf.statuses then cf.statuses[j] else None
  }

  function JobDisplay(cf: CollectedFlow, j: JobId): DisplayLifecycle {
    match StatusOf(cf, j)
    case Some(run) => Real(run.lifecycle)
    case None => PendingJob
  }

  predicate AllAre(ds: seq<DisplayLifecycle>, d: DisplayLifecycle) {
    forall i | 0 <= i < |ds| :: ds[i] == d
  }

  function AggregateFlowStatus(ds: seq<DisplayLifecycle>): FlowStatus {
    if ds == [] then FlowPending
    else if Real(Failed) in ds then FlowFailed
    else if Real(Running) in ds then FlowRunning
    else if Real(Queued) in ds then FlowQueued
    else if AllAre(ds, Real(Success)) then FlowDone
    else if Real(Skipped) in ds
         && (forall i | 0 <= i < |ds| :: ds[i] == Real(Success) || ds[i] == Real(Skipped))
    then FlowPartial
    else FlowPending
  }

  /** What each rolled-up status says about the jobs. */
  lemma StatusMeaning(ds: seq<DisplayLifecycle>)
    ensures var status := AggregateFlowStatus(ds);
            && (status == FlowFailed <==> Real(Failed) in ds)
            && (status == FlowRunning <==> Real(Running) in ds && Real(Failed) !in ds)
            && (status == FlowQueued <==> Real(Queued) in ds && Real(Failed) !in ds && Real(Running) !in ds)
            && (status == FlowDone <==> ds != [] && forall d | d in ds :: d == Real(Success))
            && (status == FlowPartial <==>
                  Real(Skipped) in ds && forall d | d in ds :: d == Real(Success) || d == Real(Skipped))
            && (status == FlowPending <==>
                  ds == [] || (PendingJob in ds && forall d | d in ds ::
                    d == PendingJob || d == Real(Success) || d == Real(Skipped)))
  {
    if ds != [] {
      assert ds[0] in ds;
    }
    forall i | 0 <= i < |ds| ensures ds[i] in ds {
    }
    forall d | d in ds
      ensures d == PendingJob || d == Real(Queued) || d == Real(Running) || d == Real(Success)
              || d == Real(Failed) || d == Real(Skipped)
    {
      EveryDisplay(d);
    }
  }

  lemma EveryDisplay(d: DisplayLifecycle)
    ensures d == PendingJob || d == Real(Queued) || d == Real(Running) || d == Real(Success)
            || d == Real(Failed) || d == Real(Skipped)
  {
    if d.Real? {
      match d.lifecycle
      case Queued => case Running => case Success => case Failed => case Skipped =>
    }
  }

  /** The displays of all jobs, in key order. */
  function Displays(cf: CollectedFlow, keys: seq<JobId>): (r: seq<DisplayLifecycle>)
    ensures |r| == |keys|
    ensures forall i | 0 <= i < |keys| :: r[i] == JobDisplay(cf, keys[i])
  {
    seq(|keys|, i requires 0 <= i < |keys| => JobDisplay(cf, keys[i]))
  }

  function CountSuccess(ds: seq<DisplayLifecycle>): nat {
    if ds == [] then 0
    else CountSuccess(ds[..|ds| - 1]) + if ds[|ds| - 1] == Real(Success) then 1 else 0
  }

  function FlowRowOf(cf: CollectedFlow): FlowRow {
    var ds := Displays(cf, KeyOrder(cf.jobs));
    FlowRow(cf.uuid, |cf.jobs|, CountSuccess(ds), AggregateFlowStatus(ds), cf.createdAt)
  }

  lemma {:induction false} CountSuccessBounds(ds: seq<DisplayLifecycle>)
    ensures CountSuccess(ds) <= |ds|
    ensures CountSuccess(ds) == |ds| <==> AllAre(ds, Real(Success))
  {
    if ds != [] {
      var n := |ds| - 1;
      CountSuccessBounds(ds[..n]);
      assert AllAre(ds, Real(Success)) <==> AllAre(ds[..n], Real(Success)) && ds[n] == Real(Success);
    }
  }

  lemma AllSucceeded(cf: CollectedFlow)
    ensures AllAre(Displays(cf, KeyOrder(cf.jobs)), Real(Success)) <==>
              forall j | j in cf.jobs :: JobDisplay(cf, j) == Real(Success)
  {
    var keys := KeyOrder(cf.jobs);
    var ds := Displays(cf, keys);
    if AllAre(ds, Real(Success)) {
      forall j | j in cf.jobs ensures JobDisplay(cf, j) == Real(Success) {
        assert j in keys;
        var i :| 0 <= i < |keys| && keys[i] == j;
        assert ds[i] == Real(Success);
      }
    } else {
      var i :| 0 <= i < |ds| && ds[i] != Real(Success);
      assert keys[i] in keys;
    }
  }

  lemma DoneMeansAllAre(ds: seq<DisplayLifecycle>)
    ensures AggregateFlowStatus(ds) == FlowDone <==> ds != [] && AllAre(ds, Real(Success))
  {
    if ds != [] && AllAre(ds, Real(Success)) {
      assert forall l: Lifecycle | Real(l) in ds :: l == Success;
    }
  }

  /** A flow row is DONE exactly when every one of its jobs succeeded and there is one. */
  lemma DoneMeansAllSucceeded(cf: CollectedFlow)
    ensures var row := FlowRowOf(cf);
            && row.done <= row.total
            && (row.status == FlowDone <==> row.done == row.total > 0)
            && (row.status == FlowDone <==>
                  cf.jobs != map[] && forall j | j in cf.jobs :: JobDisplay(cf, j) == Real(Success))
  {
    var ds := Displays(cf, KeyOrder(cf.jobs));
    SortedKeysOrdered(cf.jobs.Keys);
    CountSuccessBounds(ds);
    DoneMeansAllAre(ds);
    AllSucceeded(cf);
  }

  // ---- Projections ----

  /** Topological order, or key order when the flow has none. */
  ghost function TopoOrKeyOrder(jobs: Jobs): seq<JobId> {
    match TopoResult(jobs)
    case Ordered(order) => order
    case DependencyCycle(_) => KeyOrder(jobs)
  }

  method TopoOrKey(jobs: Jobs) returns (order: seq<JobId>)
    ensures order == TopoOrKeyOrder(jobs)
  {
    var r := TopologyLoop.TopologicalOrder(jobs);
    match r {
      case Ordered(o) => order := o;
      case DependencyCycle(_) => order := KeyOrder(jobs);
    }
  }

  /** A flow without a cycle whose edges are well formed is listed in its topological order,
      as `topological_order` fixes it; any other flow in key order. */
  lemma ListingOrder(jobs: Jobs)
    ensures var order := TopoOrKeyOrder(jobs);
            if (forall j | j in jobs :: WellEdged(jobs, j)) && Acyclic(jobs)
            then IsTopo(jobs, order) && InWakingOrder(jobs, order, order)
            else Sorted(order)
  {
    OrderedExactlyWhenAcyclic(jobs);
    SortedKeysOrdered(jobs.Keys);
    if TopoResult(jobs).Ordered? {
      OrderExactly(jobs, TopoResult(jobs).order);
    }
  }

  /** Every job is listed exactly once, cycle or not. */
  lemma ListsEveryJobOnce(jobs: Jobs)
    ensures NoDup(TopoOrKeyOrder(jobs))
    ensures forall j :: j in TopoOrKeyOrder(jobs) <==> j in jobs
  {
    KeyOrderDistinct(jobs);
    OrderedExactlyWhenAcyclic(jobs);
    if TopoResult(jobs).Ordered? {
      ParentsFirstNoDup(jobs, TopoResult(jobs).order);
    }
  }

  function RowOf(cf: CollectedFlow, j: JobId): JobRow
    requires j in cf.jobs
  {
    var status := StatusOf(cf, j);
    JobRow(cf.uuid, j, JobDisplay(cf, j), if status.Some? then status.value.slurmJobid else None,
           cf.jobs[j].program, cf.createdAt)
  }

  /** The row of an accepted job, or nothing. */
  function JobRowOf(cf: CollectedFlow, f: SearchFilter): JobId -> seq<JobRow> {
    (j: JobId) => if j in cf.jobs && f.accepts(cf, j) then [RowOf(cf, j)] else []
  }

  /** One flow's rows, in listing order. */
  ghost function RowsOfFlow(f: SearchFilter): CollectedFlow -> seq<JobRow> {
    (cf: CollectedFlow) => FlatMap(TopoOrKeyOrder(cf.jobs), JobRowOf(cf, f))
  }

  /** All job rows, flow by flow. */
  ghost function AllJobRows(collected: seq<CollectedFlow>, f: SearchFilter): seq<JobRow> {
    FlatMap(collected, RowsOfFlow(f))
  }

  predicate Includes(cf: CollectedFlow, f: SearchFilter) {
    if cf.jobs == map[] then f.isDefault
    else exists j :: j in cf.jobs && f.accepts(cf, j)
  }

  function MatchOf(f: SearchFilter): CollectedFlow -> seq<CollectedFlow> {
    (cf: CollectedFlow) => if Includes(cf, f) then [cf] else []
  }

  function AllMatchedFlows(collected: seq<CollectedFlow>, f: SearchFilter): seq<CollectedFlow> {
    FlatMap(collected, MatchOf(f))
  }

  /** A limit keeps a prefix; a limit of zero acts as one, since the cap is only checked
      after a row was added. */
  function Limited<T>(xs: seq<T>, limit: Option<nat>): seq<T> {
    match limit
    case None => xs
    case Some(n) => var cap := if n == 0 then 1 else n; if cap <= |xs| then xs[..cap] else xs
  }

  predicate Full<T>(xs: seq<T>, limit: Option<nat>) {
    limit.Some? && |xs| >= limit.value && xs != []
  }

  /** Items after the cap are irrelevant; below the cap nothing is cut. */
  lemma FullIsFinal<T>(part: seq<T>, all: seq<T>, limit: Option<nat>)
    requires part <= all
    ensures Full(Limited(part, limit), limit) ==> Limited(part, limit) == Limited(all, limit)
    ensures !Full(Limited(part, limit), limit) ==> Limited(part, limit) == part
  {
  }

  /** Adding the next element's items up to the limit either reaches the final result or
      keeps the prefix exact. */
  lemma LimitSteps<S, T>(xs: seq<S>, n: nat, g: S -> seq<T>, base: seq<T>, limit: Option<nat>, out: seq<T>)
    requires n < |xs|
    requires out == Limited((base + FlatMap(xs[..n], g)) + g(xs[n]), limit)
    ensures Full(out, limit) ==> out == Limited(base + FlatMap(xs, g), limit)
    ensures !Full(out, limit) ==> out == base + FlatMap(xs[..n + 1], g)
  {
    FlatMapGrows(xs, n, g, base);
    FlatMapPrefix(xs, n + 1, g);
    FullIsFinal(base + FlatMap(xs[..n + 1], g), base + FlatMap(xs, g), limit);
  }

  /** Adding at most one item to a list that is not full never needs cutting. */
  lemma OneMoreFits<T>(xs: seq<T>, more: seq<T>, limit: Option<nat>)
    requires !Full(xs, limit) && |more| <= 1
    ensures Limited(xs + more, limit) == xs + more
  {
  }

  /** Adding an element that yields at most one item to a list that is not full. */
  lemma OneMoreSteps<S, T>(xs: seq<S>, n: nat, g: S -> seq<T>, base: seq<T>, limit: Option<nat>, out: seq<T>)
    requires n < |xs| && |g(xs[n])| <= 1
    requires out == base + FlatMap(xs[..n], g) && !Full(out, limit)
    ensures var next := out + g(xs[n]);
            && (Full(next, limit) ==> next == Limited(base + FlatMap(xs, g), limit))
            && (!Full(next, limit) ==> next == base + FlatMap(xs[..n + 1], g))
            && (g(xs[n]) == [] ==> next == out)
  {
    OneMoreFits(out, g(xs[n]), limit);
    LimitSteps(xs, n, g, base, limit, out + g(xs[n]));
  }

  lemma AllSteps<S, T>(xs: seq<S>, g: S -> seq<T>, base: seq<T>, limit: Option<nat>, out: seq<T>)
    requires out == base + FlatMap(xs[..|xs|], g) && !Full(out, limit)
    ensures out == Limited(base + FlatMap(xs, g), limit)
  {
    WholePrefix(xs);
    FullIsFinal(out, out, limit);
  }

  /** Adds the accepted jobs of `order` until the limit is reached. */
  method AppendOrdered(cf: CollectedFlow, f: SearchFilter, limit: Option<nat>, before: seq<JobRow>, order: seq<JobId>)
    returns (out: seq<JobRow>)
    requires !Full(before, limit) && forall j | j in order :: j in cf.jobs
    ensures out == Limited(before + FlatMap(order, JobRowOf(cf, f)), limit)
  {
    out := before;
    assert before + [] == before;
    for i := 0 to |order|
      invariant out == before + FlatMap(order[..i], JobRowOf(cf, f))
      invariant !Full(out, limit)
    {
      var jid := order[i];
      OneMoreSteps(order, i, JobRowOf(cf, f), before, limit, out);
      if f.accepts(cf, jid) {
        out := out + [RowOf(cf, jid)];
        if limit.Some? && |out| >= limit.value {
          return;
        }
      }
    }
    AllSteps(order, JobRowOf(cf, f), before, limit, out);
  }

  method AppendRows(cf: CollectedFlow, f: SearchFilter, limit: Option<nat>, before: seq<JobRow>)
    returns (out: seq<JobRow>)
    requires !Full(before, limit)
    ensures out == Limited(before + RowsOfFlow(f)(cf), limit)
  {
    var order := TopoOrKey(cf.jobs);
    ListsEveryJobOnce(cf.jobs);
    out := AppendOrdered(cf, f, limit, before, order);
  }

  method JobRows(collected: seq<CollectedFlow>, f: SearchFilter, limit: Option<nat>)
    returns (out: seq<JobRow>)
    ensures out == Limited(AllJobRows(collected, f), limit)
  {
    out := [];
    EmptyBase(AllJobRows(collected, f));
    for c := 0 to |collected|
      invariant out == [] + FlatMap(collected[..c], RowsOfFlow(f))
      invariant !Full(out, limit)
    {
      out := AppendRows(collected[c], f, limit, out);
      LimitSteps(collected, c, RowsOfFlow(f), [], limit, out);
      if limit.Some? && |out| >= limit.value && out != [] {
        return;
      }
    }
    WholePrefix(collected);
    FullIsFinal(out, out, limit);
  }

  method MatchedFlows(collected: seq<CollectedFlow>, f: SearchFilter, limit: Option<nat>)
    returns (out: seq<CollectedFlow>)
    ensures out == Limited(AllMatchedFlows(collected, f), limit)
  {
    out := [];
    EmptyBase(AllMatchedFlows(collected, f));
    for c := 0 to |collected|
      invariant out == [] + FlatMap(collected[..c], MatchOf(f))
      invariant !Full(out, limit)
    {
      OneMoreSteps(collected, c, MatchOf(f), [], limit, out);
      if Includes(collected[c], f) {
        out := out + [collected[c]];
        if limit.Some? && |out| >= limit.value {
          return;
        }
      }
    }
    AllSteps(collected, MatchOf(f), [], limit, out);
  }

  method FlowRows(collected: seq<CollectedFlow>, f: SearchFilter, limit: Option<nat>)
    returns (rows: seq<FlowRow>)
    ensures var matched := Limited(AllMatchedFlows(collected, f), limit);
            |rows| == |matched| && forall i | 0 <= i < |rows| :: rows[i] == FlowRowOf(matched[i])
  {
    var flows := MatchedFlows(collected, f, limit);
    rows := seq(|flows|, i requires 0 <= i < |flows| => FlowRowOf(flows[i]));
  }

  /** For a limit of at least one, the result is the first `min(n, total)` items. */
  lemma LimitTakesPrefix<T>(xs: seq<T>, n: nat)
    requires n >= 1
    ensures Limited(xs, Some(n)) <= xs
    ensures |Limited(xs, Some(n))| == if n <= |xs| then n else |xs|
    ensures Limited(xs, Some(0)) == Limited(xs, Some(1))
    ensures Limited(xs, None) == xs
  {
  }

  /** A flow's rows are exactly the rows of its accepted jobs. */
  lemma RowsCoverAccepted(cf: CollectedFlow, f: SearchFilter, row: JobRow)
    ensures row in RowsOfFlow(f)(cf) <==>
              exists j :: j in cf.jobs && f.accepts(cf, j) && row == RowOf(cf, j)
  {
    var order := TopoOrKeyOrder(cf.jobs);
    ListsEveryJobOnce(cf.jobs);
    FlatMapMembers(order, JobRowOf(cf, f), row);
    if exists j :: j in cf.jobs && f.accepts(cf, j) && row == RowOf(cf, j) {
      var j :| j in cf.jobs && f.accepts(cf, j) && row == RowOf(cf, j);
      assert j in order;
      var i :| 0 <= i < |order| && order[i] == j;
      assert row in JobRowOf(cf, f)(order[i]);
    }
  }

  /** A flow with jobs is matched exactly when it contributes a job row. */
  lemma MatchedMeansRows(cf: CollectedFlow, f: SearchFilter)
    requires cf.jobs != map[]
    ensures Includes(cf, f) <==> RowsOfFlow(f)(cf) != []
  {
    var rows := RowsOfFlow(f)(cf);
    if Includes(cf, f) {
      var j :| j in cf.jobs && f.accepts(cf, j);
      RowsCoverAccepted(cf, f, RowOf(cf, j));
    }
    if rows != [] {
      RowsCoverAccepted(cf, f, rows[0]);
    }
  }

  // ---- Agreement with the runner ----

  /** What `collect` builds when the status files of `unreadable` cannot be read. */
  function Collected(uuid: string, jobs: Jobs, disk: Statuses, unreadable: set<JobId>, createdAt: int): CollectedFlow {
    CollectedFlow(uuid, jobs, map j | j in jobs :: if j in disk && j !in unreadable then Some(disk[j]) else None,
                  createdAt)
  }

  /** A Skipped job shown comes with a job that is recorded Failed: shown as such if it can be
      read, as pending otherwise. */
  lemma SkippedShowsFailed(uuid: string, jobs: Jobs, events: seq<Event>, unreadable: set<JobId>, createdAt: int,
                           j: JobId)
    returns (f: JobId)
    requires AllPossible(jobs, events) && Orderly(jobs, events)
    requires var disk := Run(jobs, events, map[]); j in disk && disk[j].lifecycle.Skipped?
    ensures var disk := Run(jobs, events, map[]); f in jobs && f in disk && disk[f].lifecycle.Failed?
    ensures var cf := Collected(uuid, jobs, Run(jobs, events, map[]), unreadable, createdAt);
            (if f in unreadable then PendingJob else Real(Failed)) in Displays(cf, KeyOrder(jobs))
  {
    var disk := Run(jobs, events, map[]);
    var keys := KeyOrder(jobs);
    SkippedBelowFailed(jobs, events, j);
    var p :| BlameChain(jobs, disk, p) && p[|p| - 1] == j;
    f := p[0];
    assert f in keys;
    var k :| 0 <= k < |keys| && keys[k] == f;
    assert JobDisplay(Collected(uuid, jobs, disk, unreadable, createdAt), keys[k]) ==
           if f in unreadable then PendingJob else Real(Failed);
  }

  /** In every state an orderly run reaches, PARTIAL never appears, whichever status files are
      unreadable; and one Skipped job makes the flow FAILED if every Failed record can be read. */
  lemma SkippedMakesFlowFailed(uuid: string, jobs: Jobs, events: seq<Event>, unreadable: set<JobId>, createdAt: int)
    requires AllPossible(jobs, events) && Orderly(jobs, events)
    ensures var disk := Run(jobs, events, map[]);
            var status := FlowRowOf(Collected(uuid, jobs, disk, unreadable, createdAt)).status;
            && status != FlowPartial
            && ((exists j :: j in disk && disk[j].lifecycle.Skipped?)
                && (forall j | j in disk && j in unreadable :: !disk[j].lifecycle.Failed?)
                ==> status == FlowFailed)
  {
    var disk := Run(jobs, events, map[]);
    var keys := KeyOrder(jobs);
    var ds := Displays(Collected(uuid, jobs, disk, unreadable, createdAt), keys);
    StatusMeaning(ds);
    if j :| j in disk && disk[j].lifecycle.Skipped? {
      var f := SkippedShowsFailed(uuid, jobs, events, unreadable, createdAt, j);
    }
  }
}

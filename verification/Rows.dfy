/** What the rows of `jm ls` hold and how they stand, read off the collected flows alone. */
module Rows {
  import opened Wrappers
  import opened Keys
  import opened Flow
  import opened Topology
  import opened Fifo
  import opened Transitions
  import opened Listing

  predicate Readable(cf: CollectedFlow, j: JobId) {
    j in cf.statuses && cf.statuses[j].Some?
  }

  /** `d` is what the readable status file of `j` says; without one, `j` is pending. */
  predicate Shows(cf: CollectedFlow, j: JobId, d: DisplayLifecycle) {
    d == if Readable(cf, j) then Real(cf.statuses[j].value.lifecycle) else PendingJob
  }

  // ---- Job rows ----

  /** Flows are listed in input order, each on its own. */
  lemma FlowsInTurn(xs: seq<CollectedFlow>, ys: seq<CollectedFlow>, f: SearchFilter)
    ensures AllJobRows(xs + ys, f) == AllJobRows(xs, f) + AllJobRows(ys, f)
    ensures AllMatchedFlows(xs + ys, f) == AllMatchedFlows(xs, f) + AllMatchedFlows(ys, f)
  {
    FlatMapConcat(xs, ys, RowsOfFlow(f));
    FlatMapConcat(xs, ys, MatchOf(f));
  }

  function AcceptedBy(cf: CollectedFlow, f: SearchFilter): JobId -> bool {
    (j: JobId) => j in cf.jobs && f.accepts(cf, j)
  }

  lemma {:induction false} RowsAreFiltered(cf: CollectedFlow, f: SearchFilter, xs: seq<JobId>)
    ensures var rows, ids := FlatMap(xs, JobRowOf(cf, f)), Filter(xs, AcceptedBy(cf, f));
            |rows| == |ids| && forall m | 0 <= m < |rows| :: ids[m] in cf.jobs && rows[m] == RowOf(cf, ids[m])
  {
    if xs != [] {
      var n := |xs| - 1;
      RowsAreFiltered(cf, f, xs[..n]);
      assert AcceptedBy(cf, f)(xs[n]) <==> JobRowOf(cf, f)(xs[n]) != [];
    }
  }

  lemma RowsOfOneFlow(cf: CollectedFlow, f: SearchFilter)
    ensures var rows, ids := AllJobRows([cf], f), Filter(TopoOrKeyOrder(cf.jobs), AcceptedBy(cf, f));
            |rows| == |ids| && forall m | 0 <= m < |rows| :: ids[m] in cf.jobs && rows[m] == RowOf(cf, ids[m])
  {
    FlatMapOne(cf, RowsOfFlow(f));
    RowsAreFiltered(cf, f, TopoOrKeyOrder(cf.jobs));
  }

  /** A row describes an accepted job of its flow, with the status and id its file shows. */
  lemma RowFields(cf: CollectedFlow, f: SearchFilter, m: nat)
    requires m < |AllJobRows([cf], f)|
    ensures var row := AllJobRows([cf], f)[m];
            && row.jobId in cf.jobs && f.accepts(cf, row.jobId)
            && row.flowUuid == cf.uuid && row.createdAt == cf.createdAt
            && row.program == cf.jobs[row.jobId].program
            && Shows(cf, row.jobId, row.status)
            && row.slurmJobid == if Readable(cf, row.jobId) then cf.statuses[row.jobId].value.slurmJobid else None
  {
    RowsOfOneFlow(cf, f);
    var ids := Filter(TopoOrKeyOrder(cf.jobs), AcceptedBy(cf, f));
    assert ids[m] in ids;
  }

  /** Every accepted job has exactly one row. */
  lemma OneRowEach(cf: CollectedFlow, f: SearchFilter, j: JobId)
    requires j in cf.jobs && f.accepts(cf, j)
    ensures exists m :: 0 <= m < |AllJobRows([cf], f)| && AllJobRows([cf], f)[m].jobId == j
    ensures forall m, n | 0 <= m < n < |AllJobRows([cf], f)| ::
              AllJobRows([cf], f)[m].jobId != AllJobRows([cf], f)[n].jobId
  {
    var order := TopoOrKeyOrder(cf.jobs);
    var ids := Filter(order, AcceptedBy(cf, f));
    RowsOfOneFlow(cf, f);
    ListsEveryJobOnce(cf.jobs);
    FilterKeepsOrder(order, AcceptedBy(cf, f));
    assert AcceptedBy(cf, f)(j) && j in ids;
    var m :| 0 <= m < |ids| && ids[m] == j;
    assert AllJobRows([cf], f)[m].jobId == j;
  }

  /** Rows of one flow stand in its topological order, the one `topological_order` fixes, so a
      parent never stands below its child; without such an order they stand in key order. */
  lemma RowsStandInOrder(cf: CollectedFlow, f: SearchFilter, m: nat, n: nat) returns (i: nat, k: nat)
    requires m < n < |AllJobRows([cf], f)|
    ensures var above, below := AllJobRows([cf], f)[m].jobId, AllJobRows([cf], f)[n].jobId;
            if (forall j | j in cf.jobs :: WellEdged(cf.jobs, j)) && Acyclic(cf.jobs) then
              && below !in Froms(cf.jobs, above)
              && (forall order | IsTopo(cf.jobs, order) && InWakingOrder(cf.jobs, order, order) ::
                    i < k < |order| && order[i] == above && order[k] == below)
            else Less(above, below)
  {
    var jobs := cf.jobs;
    var order := TopoOrKeyOrder(jobs);
    RowsOfOneFlow(cf, f);
    i, k := FilterPositions(order, AcceptedBy(cf, f), m, n);
    ListingOrder(jobs);
    if (forall j | j in jobs :: WellEdged(jobs, j)) && Acyclic(jobs) {
      ParentsFirstAt(jobs, order, i);
      ParentsFirstNoDup(jobs, order);
      assert order[k] !in order[..i];
      forall other | IsTopo(jobs, other) && InWakingOrder(jobs, other, other) ensures other == order {
        WakingOrderIsUnique(jobs, other, order);
      }
    }
  }

  // ---- Flow rows ----

  /** A flow with jobs is matched exactly when one is accepted, a flow without jobs exactly by the
      default filter. */
  lemma MatchedExactly(cf: CollectedFlow, f: SearchFilter)
    ensures AllMatchedFlows([cf], f) ==
              if (cf.jobs.Keys == {} && f.isDefault) || (exists j :: j in cf.jobs && f.accepts(cf, j))
              then [cf] else []
  {
    FlatMapOne(cf, MatchOf(f));
    assert cf.jobs == map[] <==> cf.jobs.Keys == {};
  }

  function Succeeded(cf: CollectedFlow): set<JobId> {
    set j | j in cf.jobs && Shows(cf, j, Real(Success))
  }

  function SucceededIn(cf: CollectedFlow, keys: seq<JobId>): set<JobId> {
    set j | j in keys && Shows(cf, j, Real(Success))
  }

  lemma SucceededGrows(cf: CollectedFlow, keys: seq<JobId>, j: JobId)
    requires j !in keys
    ensures |SucceededIn(cf, keys + [j])| ==
              |SucceededIn(cf, keys)| + if Shows(cf, j, Real(Success)) then 1 else 0
  {
    assert SucceededIn(cf, keys + [j]) ==
           SucceededIn(cf, keys) + if Shows(cf, j, Real(Success)) then {j} else {};
  }

  lemma CountGrows(cf: CollectedFlow, keys: seq<JobId>, j: JobId)
    ensures CountSuccess(Displays(cf, keys + [j])) ==
              CountSuccess(Displays(cf, keys)) + if Shows(cf, j, Real(Success)) then 1 else 0
  {
    var all := Displays(cf, keys + [j]);
    assert all[..|keys|] == Displays(cf, keys);
  }

  lemma {:induction false} CountsSucceeded(cf: CollectedFlow, keys: seq<JobId>)
    requires NoDup(keys)
    ensures CountSuccess(Displays(cf, keys)) == |SucceededIn(cf, keys)|
  {
    if keys == [] {
      assert SucceededIn(cf, keys) == {};
    } else {
      var n := |keys| - 1;
      assert keys == keys[..n] + [keys[n]];
      CountsSucceeded(cf, keys[..n]);
      SucceededGrows(cf, keys[..n], keys[n]);
      CountGrows(cf, keys[..n], keys[n]);
    }
  }

  lemma DisplaysShown(cf: CollectedFlow, d: DisplayLifecycle)
    ensures d in Displays(cf, KeyOrder(cf.jobs)) <==> exists j :: j in cf.jobs && Shows(cf, j, d)
  {
    var keys := KeyOrder(cf.jobs);
    var ds := Displays(cf, keys);
    if j :| j in cf.jobs && Shows(cf, j, d) {
      assert j in keys;
      var k :| 0 <= k < |keys| && keys[k] == j;
      assert ds[k] == d;
    }
    if d in ds {
      var k :| 0 <= k < |ds| && ds[k] == d;
      assert keys[k] in keys && Shows(cf, keys[k], d);
    }
  }

  ghost predicate SomeShows(cf: CollectedFlow, d: DisplayLifecycle) {
    exists j :: j in cf.jobs && Shows(cf, j, d)
  }

  /** A flow row counts its jobs and the succeeded ones, and rolls up what its jobs show:
      FAILED before RUNNING before QUEUED, then DONE, PARTIAL or PENDING. */
  lemma FlowRowFields(cf: CollectedFlow)
    ensures var row := FlowRowOf(cf);
            && row.flowUuid == cf.uuid && row.createdAt == cf.createdAt
            && row.total == |cf.jobs| && row.done == |Succeeded(cf)|
            && row.status ==
                 if SomeShows(cf, Real(Failed)) then FlowFailed
                 else if SomeShows(cf, Real(Running)) then FlowRunning
                 else if SomeShows(cf, Real(Queued)) then FlowQueued
                 else if SomeShows(cf, PendingJob) || cf.jobs.Keys == {} then FlowPending
                 else if SomeShows(cf, Real(Skipped)) then FlowPartial
                 else FlowDone
  {
    var keys := KeyOrder(cf.jobs);
    var ds := Displays(cf, keys);
    SortedKeysOrdered(cf.jobs.Keys);
    CountsSucceeded(cf, keys);
    assert Succeeded(cf) == SucceededIn(cf, keys);
    forall d ensures d in ds <==> SomeShows(cf, d) {
      DisplaysShown(cf, d);
    }
    forall d | d in ds
      ensures d == PendingJob || d == Real(Queued) || d == Real(Running) || d == Real(Success)
              || d == Real(Failed) || d == Real(Skipped)
    {
      EveryDisplay(d);
    }
    StatusMeaning(ds);
    assert ds == [] <==> cf.jobs.Keys == {};
  }
}

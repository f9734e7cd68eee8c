/** When a submit that is cut off can end in PARTIAL. */
module Partial {
  import opened Wrappers
  import opened Keys
  import opened Flow
  import opened Transitions
  import opened Tick
  import opened History
  import Listing
  import Topology

  /** Every job is recorded, as Success or Skipped, and one is Skipped. */
  predicate IsPartial(jobs: Jobs, disk: Statuses) {
    (forall j | j in jobs :: j in disk && (disk[j].lifecycle.Success? || disk[j].lifecycle.Skipped?))
    && exists j :: j in jobs && j in disk && disk[j].lifecycle.Skipped?
  }

  function Shown(disk: Statuses, j: JobId): Listing.DisplayLifecycle {
    if j in disk then Listing.Real(disk[j].lifecycle) else Listing.PendingJob
  }

  lemma ShownExactly(cf: Listing.CollectedFlow, disk: Statuses, d: Listing.DisplayLifecycle)
    requires forall j | j in cf.jobs :: Listing.JobDisplay(cf, j) == Shown(disk, j)
    ensures d in Listing.Displays(cf, Topology.KeyOrder(cf.jobs)) <==>
              exists j :: j in cf.jobs && d == Shown(disk, j)
  {
    var keys := Topology.KeyOrder(cf.jobs);
    var ds := Listing.Displays(cf, keys);
    if j :| j in cf.jobs && d == Shown(disk, j) {
      assert j in keys;
      var k :| 0 <= k < |keys| && keys[k] == j;
      assert ds[k] == d;
    }
    if d in ds {
      var k :| 0 <= k < |ds| && ds[k] == d;
      assert keys[k] in keys;
    }
  }

  lemma AllShownArePartial(jobs: Jobs, disk: Statuses, ds: seq<Listing.DisplayLifecycle>)
    requires forall d :: d in ds <==> exists j :: j in jobs && d == Shown(disk, j)
    ensures IsPartial(jobs, disk) <==>
              Listing.Real(Skipped) in ds
              && forall d | d in ds :: d == Listing.Real(Success) || d == Listing.Real(Skipped)
  {
    forall j | j in jobs ensures Shown(disk, j) in ds {
    }
  }

  /** That is what `jm ls` lists as PARTIAL. */
  lemma PartialIsListed(uuid: string, jobs: Jobs, disk: Statuses, createdAt: int)
    ensures IsPartial(jobs, disk) <==>
              Listing.FlowRowOf(Listing.Collected(uuid, jobs, disk, {}, createdAt)).status == Listing.FlowPartial
  {
    var cf := Listing.Collected(uuid, jobs, disk, {}, createdAt);
    var ds := Listing.Displays(cf, Topology.KeyOrder(jobs));
    forall d ensures d in ds <==> exists j :: j in jobs && d == Shown(disk, j) {
      ShownExactly(cf, disk, d);
    }
    AllShownArePartial(jobs, disk, ds);
    Listing.StatusMeaning(ds);
  }

  /** From position `w` on every job is recorded, none as Failed, and one as Skipped. */
  predicate StaleTail(order: seq<JobId>, w: nat, disk: Statuses) {
    w <= |order|
    && (forall k | w <= k < |order| :: order[k] in disk && !disk[order[k]].lifecycle.Failed?)
    && exists k :: w <= k < |order| && order[k] in disk && disk[order[k]].lifecycle.Skipped?
  }

  /** A submit cut off after `w` records, followed by `ticks`, ends in PARTIAL. */
  ghost predicate TurnsPartial(jobs: Jobs, order: seq<JobId>, disk: Statuses, ids: seq<nat>, w: nat,
                               ticks: seq<Event>)
  {
    Possible(jobs, Submitted(order, ids, w)) && AllPossible(jobs, ticks)
    && (forall i | 0 <= i < |ticks| :: !ticks[i].Submitted?)
    && IsPartial(jobs, Run(jobs, ticks, Step(jobs, Submitted(order, ids, w), disk)))
  }

  // ---- Only from a stale tail ----

  lemma {:induction false} TicksKeepGrounded(jobs: Jobs, ticks: seq<Event>, disk: Statuses)
    requires AllPossible(jobs, ticks) && Grounded(jobs, disk)
    requires forall i | 0 <= i < |ticks| :: !ticks[i].Submitted?
    ensures Grounded(jobs, Run(jobs, ticks, disk))
  {
    if ticks != [] {
      var n := |ticks| - 1;
      TicksKeepGrounded(jobs, ticks[..n], disk);
      if ticks[n].Ticked? {
        TickKeepsGrounded(jobs, ticks[n], Run(jobs, ticks[..n], disk));
      }
    }
  }

  /** PARTIAL holds a Skipped job without a Failed one above it. */
  lemma PartialIsUngrounded(jobs: Jobs, order: seq<JobId>, disk: Statuses)
    requires IsTopo(jobs, order) && IsPartial(jobs, disk)
    ensures !Grounded(jobs, disk)
  {
    if Grounded(jobs, disk) {
      var j :| j in jobs && disk[j].lifecycle.Skipped?;
      assert j in order;
      var i :| 0 <= i < |order| && order[i] == j;
      var p := BadHasBlame(jobs, order, disk, i);
    }
  }

  lemma TailIsStale(jobs: Jobs, order: seq<JobId>, disk: Statuses, ids: seq<nat>, w: nat, ticks: seq<Event>)
    requires IsTopo(jobs, order) && disk.Keys <= jobs.Keys
    requires TurnsPartial(jobs, order, disk, ids, w, ticks)
    ensures StaleTail(order, w, disk)
  {
    var after := Step(jobs, Submitted(order, ids, w), disk);
    var end := Run(jobs, ticks, after);
    TicksNeverUndo(jobs, ticks, after);
    ParentsFirstNoDup(jobs, order);
    RequeueRecords(order, ids, w, disk);
    forall k | w <= k < |order|
      ensures order[k] in disk && after[order[k]] == disk[order[k]] && !disk[order[k]].lifecycle.Failed?
    {
      assert order[k] in jobs && order[k] in end;
    }
    if forall k | w <= k < |order| :: !disk[order[k]].lifecycle.Skipped? {
      forall j | j in after ensures !after[j].lifecycle.Skipped? {
        assert j in order;
        var k :| 0 <= k < |order| && order[k] == j;
        assert k < w ==> after[order[k]] == QueuedRun(ids[k]);
      }
      TicksKeepGrounded(jobs, ticks, after);
      PartialIsUngrounded(jobs, order, end);
    }
  }

  // ---- And from every stale tail ----

  function IdsOf(disk: Statuses): set<nat> {
    set j | j in disk && disk[j].slurmJobid.Some? :: disk[j].slurmJobid.value
  }

  /** SLURM reports every recorded id as completed. */
  function AllCompleted(disk: Statuses): Answers {
    map id | id in IdsOf(disk) :: JobStatus(Completed, "")
  }

  lemma AnswersCompleted(disk: Statuses, j: JobId)
    requires j in disk && disk[j].slurmJobid.Some?
    ensures Answer(disk[j], AllCompleted(disk)) == Some(JobStatus(Completed, ""))
  {
    assert disk[j].slurmJobid.value in IdsOf(disk);
  }

  /** Once all have completed, a job that was not Failed is Success or, by the skip rule, Skipped. */
  lemma CompletedOrSkipped(jobs: Jobs, was: Statuses, now: Statuses, j: JobId)
    requires Settled(jobs, AllCompleted(was), was, now) && j in was && was[j].slurmJobid.Some?
    requires !was[j].lifecycle.Failed?
    ensures now[j].lifecycle.Success? || now[j].lifecycle.Skipped?
    ensures now[j].lifecycle.Skipped? <==>
              was[j].lifecycle.Skipped? || (was[j].lifecycle.Queued? && BadParent(jobs, j, now))
  {
    NewlySkipped(jobs, AllCompleted(was), was, now, j);
    AnswersCompleted(was, j);
    assert Solved(jobs, AllCompleted(was), was, now, j);
  }

  /** The requeued prefix succeeds. */
  lemma {:induction false} PrefixSucceeds(jobs: Jobs, order: seq<JobId>, w: nat, was: Statuses, now: Statuses)
    requires ParentsFirst(jobs, order) && w <= |order|
    requires Settled(jobs, AllCompleted(was), was, now)
    requires forall j | j in order[..w] :: j in was && was[j].lifecycle.Queued? && was[j].slurmJobid.Some?
    ensures forall j | j in order[..w] :: now[j].lifecycle.Success?
  {
    if w > 0 {
      var j := order[w - 1];
      PrefixMembers(order, w - 1);
      PrefixSucceeds(jobs, order, w - 1, was, now);
      if BadParent(jobs, j, now) {
        var m := EarlierBadParent(jobs, order, w - 1, now);
      }
      CompletedOrSkipped(jobs, was, now, j);
    }
  }

  /** The tick after which everything has completed. */
  function FinalTick(jobs: Jobs, order: seq<JobId>, disk: Statuses): Event {
    Ticked(order, jobs.Keys, AllCompleted(disk), |order|)
  }

  lemma FinalTickSettles(jobs: Jobs, order: seq<JobId>, disk: Statuses)
    requires IsTopo(jobs, order) && disk.Keys <= jobs.Keys
    ensures Possible(jobs, FinalTick(jobs, order, disk))
    ensures Settled(jobs, AllCompleted(disk), disk, Step(jobs, FinalTick(jobs, order, disk), disk))
  {
    assert Current(jobs, jobs.Keys, disk) == disk;
    FullPassSettles(jobs, AllCompleted(disk), order, disk);
    assert Step(jobs, FinalTick(jobs, order, disk), disk) == FullPass(jobs, AllCompleted(disk), order, disk);
  }

  /** The disk after the submit was cut off: the prefix is Queued, the tail as it was. */
  predicate CutOffAt(order: seq<JobId>, w: nat, disk: Statuses, after: Statuses) {
    w <= |order|
    && (forall j | j in order[..w] :: j in after && after[j].lifecycle.Queued? && after[j].slurmJobid.Some?)
    && (forall k | w <= k < |order| :: order[k] in disk && order[k] in after && after[order[k]] == disk[order[k]])
  }

  lemma SubmitCutsOff(jobs: Jobs, order: seq<JobId>, disk: Statuses, ids: seq<nat>, w: nat)
    requires IsTopo(jobs, order) && disk.Keys <= jobs.Keys && |ids| == w && StaleTail(order, w, disk)
    ensures Step(jobs, Submitted(order, ids, w), disk).Keys <= jobs.Keys
    ensures CutOffAt(order, w, disk, Step(jobs, Submitted(order, ids, w), disk))
  {
    var after := Step(jobs, Submitted(order, ids, w), disk);
    ParentsFirstNoDup(jobs, order);
    RequeueRecords(order, ids, w, disk);
    forall j | j in order[..w] ensures j in after && after[j].lifecycle.Queued? && after[j].slurmJobid.Some? {
      var k :| 0 <= k < w && order[..w][k] == j;
      assert after[order[k]] == QueuedRun(ids[k]);
    }
    forall k | w <= k < |order| ensures order[k] !in order[..w] {
    }
  }

  /** Whatever the tail held, no job of the flow ends otherwise than Success or Skipped. */
  lemma CompletionEnds(jobs: Jobs, order: seq<JobId>, w: nat, disk: Statuses, was: Statuses, now: Statuses, k: nat)
    requires IsTopo(jobs, order) && StaleTail(order, w, disk) && CutOffAt(order, w, disk, was)
    requires forall j | j in disk :: disk[j].slurmJobid.Some?
    requires Settled(jobs, AllCompleted(was), was, now) && k < |order|
    ensures order[k] in now && (now[order[k]].lifecycle.Success? || now[order[k]].lifecycle.Skipped?)
    ensures k >= w && disk[order[k]].lifecycle.Skipped? ==> now[order[k]].lifecycle.Skipped?
  {
    if k < w {
      PrefixSucceeds(jobs, order, w, was, now);
      assert order[..w][k] in order[..w];
    } else {
      CompletedOrSkipped(jobs, was, now, order[k]);
    }
  }

  lemma CompletionIsPartial(jobs: Jobs, order: seq<JobId>, w: nat, disk: Statuses, was: Statuses, now: Statuses)
    requires IsTopo(jobs, order) && StaleTail(order, w, disk) && CutOffAt(order, w, disk, was)
    requires forall j | j in disk :: disk[j].slurmJobid.Some?
    requires Settled(jobs, AllCompleted(was), was, now)
    ensures IsPartial(jobs, now)
  {
    forall j | j in jobs ensures j in now && (now[j].lifecycle.Success? || now[j].lifecycle.Skipped?) {
      assert j in order;
      var k :| 0 <= k < |order| && order[k] == j;
      CompletionEnds(jobs, order, w, disk, was, now, k);
    }
    var k :| w <= k < |order| && order[k] in disk && disk[order[k]].lifecycle.Skipped?;
    CompletionEnds(jobs, order, w, disk, was, now, k);
    assert order[k] in order;
  }

  lemma OneEvent(jobs: Jobs, e: Event, disk: Statuses)
    requires Possible(jobs, e)
    ensures AllPossible(jobs, [e]) && Run(jobs, [e], disk) == Step(jobs, e, disk)
  {
    var none: seq<Event> := [];
    RunSnoc(jobs, none, e, disk);
    EmptyBase([e]);
  }

  lemma StaleTailTurnsPartial(jobs: Jobs, order: seq<JobId>, disk: Statuses, ids: seq<nat>, w: nat)
    requires IsTopo(jobs, order) && disk.Keys <= jobs.Keys && |ids| == w
    requires forall j | j in disk :: disk[j].slurmJobid.Some?
    requires StaleTail(order, w, disk)
    ensures var after := Step(jobs, Submitted(order, ids, w), disk);
            TurnsPartial(jobs, order, disk, ids, w, [FinalTick(jobs, order, after)])
  {
    var after := Step(jobs, Submitted(order, ids, w), disk);
    var tick := FinalTick(jobs, order, after);
    SubmitCutsOff(jobs, order, disk, ids, w);
    FinalTickSettles(jobs, order, after);
    CompletionIsPartial(jobs, order, w, disk, after, Step(jobs, tick, after));
    OneEvent(jobs, tick, after);
  }

  /** A submit of recorded jobs, cut off after `w` records, can end in PARTIAL through ticks alone
      exactly when the jobs it did not reach are all recorded, none as Failed, and one as Skipped. */
  lemma PartialExactlyFromStaleTail(jobs: Jobs, order: seq<JobId>, disk: Statuses, w: nat)
    requires IsTopo(jobs, order) && disk.Keys <= jobs.Keys
    requires forall j | j in disk :: disk[j].slurmJobid.Some?
    ensures (exists ids: seq<nat>, ticks: seq<Event> :: TurnsPartial(jobs, order, disk, ids, w, ticks))
              <==> StaleTail(order, w, disk)
  {
    if StaleTail(order, w, disk) {
      var ids: seq<nat> := seq(w, _ => 0);
      StaleTailTurnsPartial(jobs, order, disk, ids, w);
    }
    forall ids: seq<nat>, ticks: seq<Event> | TurnsPartial(jobs, order, disk, ids, w, ticks)
      ensures StaleTail(order, w, disk)
    {
      TailIsStale(jobs, order, disk, ids, w, ticks);
    }
  }

  /** Some recorded job is Skipped, and those after it are all recorded, none as Failed. */
  predicate EndsStale(order: seq<JobId>, disk: Statuses) {
    exists k | 0 <= k < |order| && order[k] in disk && disk[order[k]].lifecycle.Skipped? ::
      forall m | k <= m < |order| :: order[m] in disk && !disk[order[m]].lifecycle.Failed?
  }

  /** So before a submit, PARTIAL is out of reach exactly unless the order ends like that. */
  lemma PartialExactlyIfEndsStale(jobs: Jobs, order: seq<JobId>, disk: Statuses)
    requires IsTopo(jobs, order) && disk.Keys <= jobs.Keys
    requires forall j | j in disk :: disk[j].slurmJobid.Some?
    ensures (exists ids: seq<nat>, w: nat, ticks: seq<Event> :: TurnsPartial(jobs, order, disk, ids, w, ticks))
              <==> EndsStale(order, disk)
  {
    if ids: seq<nat>, w: nat, ticks: seq<Event> :| TurnsPartial(jobs, order, disk, ids, w, ticks) {
      PartialExactlyFromStaleTail(jobs, order, disk, w);
      var k :| w <= k < |order| && order[k] in disk && disk[order[k]].lifecycle.Skipped?;
    }
    if EndsStale(order, disk) {
      var k :| 0 <= k < |order| && order[k] in disk && disk[order[k]].lifecycle.Skipped?
               && forall m | k <= m < |order| :: order[m] in disk && !disk[order[m]].lifecycle.Failed?;
      assert StaleTail(order, k, disk);
      PartialExactlyFromStaleTail(jobs, order, disk, k);
    }
  }
}

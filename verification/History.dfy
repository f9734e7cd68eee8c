/** Every sequence of submits and ticks on one flow, each complete or cut off at any step,
    under arbitrary changing SLURM answers. */
module History {
  import opened Wrappers
  import opened Keys
  import opened Flow
  import opened Transitions
  import opened Tick

  /** What one call did to the status files.
      - `Submitted`: the executor issued `ids` for the first jobs of `order`, and the first
        `written` of them reached the disk.
      - `Ticked`: the call could see the status files of `seen`, got the answers `ans`, and
        was finished with the first `visited` jobs of `order` when it ended.
      - `Idle`: the call changed no status file. */
  datatype Event =
    | Submitted(order: seq<JobId>, ids: seq<nat>, written: nat)
    | Ticked(order: seq<JobId>, seen: set<JobId>, ans: Answers, visited: nat)
    | Idle

  ghost predicate Possible(jobs: Jobs, e: Event) {
    match e
    case Submitted(order, ids, written) =>
      IsTopo(jobs, order) && written <= |ids| <= written + 1 && |ids| <= |order|
    case Ticked(order, _, _, visited) => IsTopo(jobs, order) && visited <= |order|
    case Idle => true
  }

  /** `disk` with the first `n` jobs of `order` freshly queued under `ids`. */
  function Requeue(order: seq<JobId>, ids: seq<nat>, n: nat, disk: Statuses): Statuses
    requires n <= |order| && n <= |ids|
  {
    if n == 0 then disk
    else Requeue(order, ids, n - 1, disk)[order[n - 1] := QueuedRun(ids[n - 1])]
  }

  /** The part of the disk a tick works on. */
  function Current(jobs: Jobs, seen: set<JobId>, disk: Statuses): Statuses {
    map j | j in disk && j in jobs && j in seen :: disk[j]
  }

  ghost function Step(jobs: Jobs, e: Event, disk: Statuses): Statuses
    requires Possible(jobs, e)
  {
    match e
    case Submitted(order, ids, written) => Requeue(order, ids, written, disk)
    case Ticked(order, seen, ans, visited) =>
      disk + Pass(jobs, ans, order, visited, Current(jobs, seen, disk))
    case Idle => disk
  }

  ghost predicate AllPossible(jobs: Jobs, events: seq<Event>) {
    forall i | 0 <= i < |events| :: Possible(jobs, events[i])
  }

  /** The status files after a run of calls. */
  ghost function Run(jobs: Jobs, events: seq<Event>, disk: Statuses): Statuses
    requires AllPossible(jobs, events)
  {
    if events == [] then disk
    else Step(jobs, events[|events| - 1], Run(jobs, events[..|events| - 1], disk))
  }

  lemma RunSnoc(jobs: Jobs, events: seq<Event>, e: Event, disk: Statuses)
    requires AllPossible(jobs, events) && Possible(jobs, e)
    ensures AllPossible(jobs, events + [e])
    ensures Run(jobs, events + [e], disk) == Step(jobs, e, Run(jobs, events, disk))
  {
    assert (events + [e])[..|events|] == events;
  }

  // ---- Single steps ----

  lemma {:induction false} RequeueRecords(order: seq<JobId>, ids: seq<nat>, n: nat, disk: Statuses)
    requires NoDup(order) && n <= |order| && n <= |ids|
    ensures var after := Requeue(order, ids, n, disk);
            && (forall j :: j in after <==> j in disk || j in order[..n])
            && (forall k | 0 <= k < n :: after[order[k]] == JobRun(Queued, Some(ids[k]), None, None))
            && forall j | j in disk && j !in order[..n] :: after[j] == disk[j]
  {
    if n > 0 {
      RequeueRecords(order, ids, n - 1, disk);
      PrefixMembers(order, n - 1);
      forall k | 0 <= k < n - 1 ensures order[k] != order[n - 1] && order[k] in order[..n - 1] {
        assert order[..n - 1][k] == order[k];
      }
    }
  }

  /** SLURM's answer for the record's id vouches for its lifecycle, and is the answer it holds. */
  predicate HoldsAnswer(run: JobRun, ans: Answers) {
    run.slurmJobid.Some? && run.slurmJobid.value in ans
    && Vouches(ans[run.slurmJobid.value].state, run.lifecycle)
    && run.slurmStatus == Some(ans[run.slurmJobid.value])
  }

  /** One decision: ids, notes and terminal records stay, and a changed record was either
      skipped below a bad parent or moved to what the querier reported. */
  predicate DecidedStep(jobs: Jobs, ans: Answers, j: JobId, run: JobRun, after: JobRun, now: Statuses) {
    after.slurmJobid == run.slurmJobid && after.note == run.note
    && (run.lifecycle.IsTerminal() ==> after == run)
    && (after != run ==>
          if after.lifecycle.Skipped? then BadParent(jobs, j, now) && after.slurmStatus == None
          else HoldsAnswer(after, ans))
  }

  lemma DecisionIsStep(jobs: Jobs, ans: Answers, j: JobId, run: JobRun, now: Statuses)
    ensures DecidedStep(jobs, ans, j, run, Apply(run, DecideJob(jobs, j, run, ans, now)), now)
  {
    BadParentDecides(jobs, j, now);
    if Answer(run, ans).Some? {
      VouchersAreExclusive(Answer(run, ans).value.state, run.lifecycle);
    }
  }

  lemma TickStepIsPass(jobs: Jobs, e: Event, disk: Statuses, j: JobId)
    requires Possible(jobs, e) && e.Ticked?
    ensures Step(jobs, e, disk).Keys == disk.Keys
    ensures var now := Pass(jobs, e.ans, e.order, e.visited, Current(jobs, e.seen, disk));
            forall k | k in now :: k in disk && Step(jobs, e, disk)[k] == now[k]
    ensures var now := Pass(jobs, e.ans, e.order, e.visited, Current(jobs, e.seen, disk));
            var visited := j in now && j in e.order[..e.visited];
            && (j in disk && visited ==>
                  Step(jobs, e, disk)[j] == Apply(disk[j], DecideJob(jobs, j, disk[j], e.ans, now)))
            && (j in disk && !visited ==> Step(jobs, e, disk)[j] == disk[j])
  {
    var cur := Current(jobs, e.seen, disk);
    PassSolves(jobs, e.ans, e.order, e.visited, cur);
    if j in cur && j in e.order[..e.visited] {
      assert Solved(jobs, e.ans, cur, Pass(jobs, e.ans, e.order, e.visited, cur), j);
    }
  }

  lemma BadParentGrows(jobs: Jobs, j: JobId, now: Statuses, after: Statuses)
    requires BadParent(jobs, j, now)
    requires forall k | k in now :: k in after && after[k] == now[k]
    ensures BadParent(jobs, j, after)
  {
    var i :| 0 <= i < |ParentsOf(jobs, j)| && BadEdge(ParentsOf(jobs, j)[i], now);
    assert BadEdge(ParentsOf(jobs, j)[i], after);
  }

  /** A tick, complete or cut off, moves each record by at most one such decision. */
  lemma TickStep(jobs: Jobs, e: Event, disk: Statuses, j: JobId)
    requires Possible(jobs, e) && e.Ticked?
    ensures Step(jobs, e, disk).Keys == disk.Keys
    ensures j in disk ==>
              DecidedStep(jobs, e.ans, j, disk[j], Step(jobs, e, disk)[j], Step(jobs, e, disk))
  {
    TickStepIsPass(jobs, e, disk, j);
    var now := Pass(jobs, e.ans, e.order, e.visited, Current(jobs, e.seen, disk));
    if j in disk {
      DecisionIsStep(jobs, e.ans, j, disk[j], now);
      if BadParent(jobs, j, now) {
        BadParentGrows(jobs, j, now, Step(jobs, e, disk));
      }
    }
  }

  // ---- Closure under parents ----

  ghost predicate ClosedUnderParents(jobs: Jobs, disk: Statuses) {
    forall j | j in disk :: j in jobs && forall f | f in Froms(jobs, j) :: f in disk
  }

  lemma StepKeepsClosed(jobs: Jobs, e: Event, disk: Statuses)
    requires Possible(jobs, e) && ClosedUnderParents(jobs, disk)
    ensures ClosedUnderParents(jobs, Step(jobs, e, disk))
  {
    match e
    case Idle =>
    case Ticked(_, _, _, _) => TickStep(jobs, e, disk, "");
    case Submitted(order, ids, written) =>
      ParentsFirstNoDup(jobs, order);
      RequeueRecords(order, ids, written, disk);
      forall j | j in order[..written]
        ensures j in jobs && forall f | f in Froms(jobs, j) :: f in order[..written]
      {
        var i :| 0 <= i < written && order[i] == j;
        ParentsFirstAt(jobs, order, i);
        assert forall f | f in order[..i] :: f in order[..written];
      }
  }

  /** Whatever fails and wherever it is cut off, recorded jobs have recorded parents. */
  lemma {:induction false} RunIsClosed(jobs: Jobs, events: seq<Event>)
    requires AllPossible(jobs, events)
    ensures ClosedUnderParents(jobs, Run(jobs, events, map[]))
  {
    if events != [] {
      var n := |events| - 1;
      RunIsClosed(jobs, events[..n]);
      StepKeepsClosed(jobs, events[n], Run(jobs, events[..n], map[]));
    }
  }

  // ---- Ticks never undo ----

  /** Over any ticks, recorded ids and notes stay, and a terminal record never changes again. */
  lemma {:induction false} TicksNeverUndo(jobs: Jobs, events: seq<Event>, disk: Statuses)
    requires AllPossible(jobs, events)
    requires forall i | 0 <= i < |events| :: !events[i].Submitted?
    ensures Run(jobs, events, disk).Keys == disk.Keys
    ensures forall j | j in disk ::
              && Run(jobs, events, disk)[j].slurmJobid == disk[j].slurmJobid
              && Run(jobs, events, disk)[j].note == disk[j].note
              && (disk[j].lifecycle.IsTerminal() ==> Run(jobs, events, disk)[j] == disk[j])
  {
    if events != [] {
      var n := |events| - 1;
      TicksNeverUndo(jobs, events[..n], disk);
      var mid := Run(jobs, events[..n], disk);
      if events[n].Ticked? {
        TickStep(jobs, events[n], mid, "");
        forall j | j in disk
          ensures Run(jobs, events, disk)[j].slurmJobid == disk[j].slurmJobid
          ensures Run(jobs, events, disk)[j].note == disk[j].note
          ensures disk[j].lifecycle.IsTerminal() ==> Run(jobs, events, disk)[j] == disk[j]
        {
          TickStep(jobs, events[n], mid, j);
        }
      }
    }
  }

  // ---- Where ids and outcomes come from ----

  predicate Writes(e: Event, j: JobId) {
    e.Submitted? && e.written <= |e.order| && j in e.order[..e.written]
  }

  predicate IssuedHere(e: Event, j: JobId, id: nat) {
    e.Submitted? && e.written <= |e.order| && e.written <= |e.ids|
    && exists k | 0 <= k < e.written :: e.order[k] == j && e.ids[k] == id
  }


  /** Call `i` of the run issued `id` to `j`, and no later submit rewrote `j`. */
  predicate LastIssuedAt(events: seq<Event>, i: nat, j: JobId, id: nat) {
    i < |events| && IssuedHere(events[i], j, id) && forall k | i < k < |events| :: !Writes(events[k], j)
  }

  /** The record holds the querier's answer of call `t`, given after `j` was last submitted. */
  predicate ReportedAt(events: seq<Event>, t: nat, j: JobId, run: JobRun) {
    t < |events| && events[t].Ticked? && HoldsAnswer(run, events[t].ans)
    && forall k | t < k < |events| :: !Writes(events[k], j)
  }

  /** The record of `j` is explained by the run. */
  ghost predicate Explained(events: seq<Event>, j: JobId, run: JobRun) {
    run.slurmJobid.Some? && run.note.None?
    && (exists i :: LastIssuedAt(events, i, j, run.slurmJobid.value))
    && match run.lifecycle
       case Success | Failed | Running => exists t :: ReportedAt(events, t, j, run)
       case Queued => run.slurmStatus == None || exists t :: ReportedAt(events, t, j, run)
       case Skipped => run.slurmStatus == None
  }

  lemma ExplainedGrows(events: seq<Event>, e: Event, j: JobId, run: JobRun)
    requires Explained(events, j, run) && !Writes(e, j)
    ensures Explained(events + [e], j, run)
  {
    var all := events + [e];
    var i :| LastIssuedAt(events, i, j, run.slurmJobid.value);
    assert LastIssuedAt(all, i, j, run.slurmJobid.value);
    if t :| ReportedAt(events, t, j, run) {
      assert ReportedAt(all, t, j, run);
    }
  }

  lemma ExplainedByTick(jobs: Jobs, events: seq<Event>, e: Event, disk: Statuses, j: JobId)
    requires Possible(jobs, e) && e.Ticked? && j in disk && Explained(events, j, disk[j])
    ensures j in Step(jobs, e, disk) && Explained(events + [e], j, Step(jobs, e, disk)[j])
  {
    TickStep(jobs, e, disk, j);
    ExplainedGrows(events, e, j, disk[j]);
    var after, n := Step(jobs, e, disk)[j], |events|;
    if after != disk[j] && !after.lifecycle.Skipped? {
      assert ReportedAt(events + [e], n, j, after);
    }
  }

  lemma ExplainedBySubmit(jobs: Jobs, events: seq<Event>, e: Event, disk: Statuses, j: JobId)
    requires Possible(jobs, e) && e.Submitted? && j in Step(jobs, e, disk)
    requires j in disk ==> Explained(events, j, disk[j])
    ensures Explained(events + [e], j, Step(jobs, e, disk)[j])
  {
    ParentsFirstNoDup(jobs, e.order);
    RequeueRecords(e.order, e.ids, e.written, disk);
    if j in e.order[..e.written] {
      var k :| 0 <= k < e.written && e.order[k] == j;
      assert IssuedHere(e, j, e.ids[k]);
      assert LastIssuedAt(events + [e], |events|, j, e.ids[k]);
    } else {
      ExplainedGrows(events, e, j, disk[j]);
    }
  }

  /** Every recorded id was issued by the job's last submit; Success, Failed or Running is recorded
      only if the querier said so for that id since then, and with the answer it gave. */
  lemma {:induction false} RunExplains(jobs: Jobs, events: seq<Event>, j: JobId)
    requires AllPossible(jobs, events) && j in Run(jobs, events, map[])
    ensures Explained(events, j, Run(jobs, events, map[])[j])
  {
    if events != [] {
      var n := |events| - 1;
      var front, e, mid := events[..n], events[n], Run(jobs, events[..n], map[]);
      assert events == front + [e];
      if j in mid {
        RunExplains(jobs, front, j);
      }
      match e
      case Idle => ExplainedGrows(front, e, j, mid[j]);
      case Ticked(_, _, _, _) => TickStep(jobs, e, mid, j); ExplainedByTick(jobs, front, e, mid, j);
      case Submitted(_, _, _) => ExplainedBySubmit(jobs, front, e, mid, j);
    }
  }

  // ---- The ledger ----

  function Issued(events: seq<Event>): nat {
    if events == [] then 0
    else Issued(events[..|events| - 1])
         + if events[|events| - 1].Submitted? then |events[|events| - 1].ids| else 0
  }

  function Recorded(events: seq<Event>): nat {
    if events == [] then 0
    else Recorded(events[..|events| - 1])
         + if events[|events| - 1].Submitted? then events[|events| - 1].written else 0
  }

  function Submits(events: seq<Event>): nat {
    if events == [] then 0
    else Submits(events[..|events| - 1]) + if events[|events| - 1].Submitted? then 1 else 0
  }

  /** Executor calls that returned an id exceed status writes by at most one per submit. */
  lemma {:induction false} IdsLeakAtMostOncePerSubmit(jobs: Jobs, events: seq<Event>)
    requires AllPossible(jobs, events)
    ensures Recorded(events) <= Issued(events) <= Recorded(events) + Submits(events)
  {
    if events != [] {
      IdsLeakAtMostOncePerSubmit(jobs, events[..|events| - 1]);
      assert Possible(jobs, events[|events| - 1]);
    }
  }

  // ---- Skipped jobs have a failed ancestor ----

  ghost predicate Grounded(jobs: Jobs, disk: Statuses) {
    forall j | j in disk && disk[j].lifecycle.Skipped? :: BadParent(jobs, j, disk)
  }

  lemma TickKeepsGrounded(jobs: Jobs, e: Event, disk: Statuses)
    requires Possible(jobs, e) && e.Ticked? && Grounded(jobs, disk)
    ensures Grounded(jobs, Step(jobs, e, disk))
  {
    TickStep(jobs, e, disk, "");
    var after := Step(jobs, e, disk);
    forall j | j in after && after[j].lifecycle.Skipped? ensures BadParent(jobs, j, after) {
      TickStep(jobs, e, disk, j);
      if after[j] == disk[j] {
        var i :| 0 <= i < |ParentsOf(jobs, j)| && BadEdge(ParentsOf(jobs, j)[i], disk);
        TickStep(jobs, e, disk, ParentsOf(jobs, j)[i].from);
        assert BadEdge(ParentsOf(jobs, j)[i], after);
      }
    }
  }

  predicate NoneSkipped(disk: Statuses) {
    forall j | j in disk :: !disk[j].lifecycle.Skipped?
  }

  /** Each submit of the run completes, or starts with no record Skipped. */
  ghost predicate Orderly(jobs: Jobs, events: seq<Event>)
    requires AllPossible(jobs, events)
  {
    forall i | 0 <= i < |events| && events[i].Submitted? ::
      events[i].written == |events[i].order| || NoneSkipped(Run(jobs, events[..i], map[]))
  }

  lemma SubmitGrounds(jobs: Jobs, e: Event, disk: Statuses)
    requires Possible(jobs, e) && e.Submitted? && disk.Keys <= jobs.Keys
    requires e.written == |e.order| || NoneSkipped(disk)
    ensures Grounded(jobs, Step(jobs, e, disk))
  {
    ParentsFirstNoDup(jobs, e.order);
    RequeueRecords(e.order, e.ids, e.written, disk);
    WholePrefix(e.order);
    var after := Step(jobs, e, disk);
    forall j | j in after ensures !after[j].lifecycle.Skipped? {
      if j in e.order[..e.written] {
        var k :| 0 <= k < e.written && e.order[..e.written][k] == j;
      }
    }
  }

  /** A submit cut off just before a Skipped job requeues all its parents and leaves it Skipped. */
  lemma CutOffUngrounds(jobs: Jobs, order: seq<JobId>, ids: seq<nat>, i: nat, disk: Statuses)
    requires IsTopo(jobs, order) && i < |order| && |ids| == i
    requires order[i] in disk && disk[order[i]].lifecycle.Skipped?
    ensures Possible(jobs, Submitted(order, ids, i))
    ensures !Grounded(jobs, Step(jobs, Submitted(order, ids, i), disk))
  {
    var j, after := order[i], Step(jobs, Submitted(order, ids, i), disk);
    ParentsFirstNoDup(jobs, order);
    RequeueRecords(order, ids, i, disk);
    ParentsFirstAt(jobs, order, i);
    forall k | 0 <= k < |ParentsOf(jobs, j)| ensures !BadEdge(ParentsOf(jobs, j)[k], after) {
      assert Froms(jobs, j)[k] in order[..i];
      var m :| 0 <= m < i && order[m] == Froms(jobs, j)[k];
      assert after[order[m]] == QueuedRun(ids[m]);
    }
    assert j in after && after[j] == disk[j] && !BadParent(jobs, j, after);
  }

  /** Every Skipped job keeps a bad parent through any submit, wherever it is cut off. */
  ghost predicate SurvivesCutOffs(jobs: Jobs, disk: Statuses) {
    forall e | Possible(jobs, e) && e.Submitted? :: Grounded(jobs, Step(jobs, e, disk))
  }

  /** Before a submit that may be cut off, that is guaranteed exactly when no record is Skipped. */
  lemma SubmitIsSafeExactlyWithoutSkipped(jobs: Jobs, order: seq<JobId>, disk: Statuses)
    requires IsTopo(jobs, order) && disk.Keys <= jobs.Keys
    ensures SurvivesCutOffs(jobs, disk) <==> NoneSkipped(disk)
  {
    if NoneSkipped(disk) {
      forall e | Possible(jobs, e) && e.Submitted? ensures Grounded(jobs, Step(jobs, e, disk)) {
        SubmitGrounds(jobs, e, disk);
      }
    } else {
      var j :| j in disk && disk[j].lifecycle.Skipped?;
      assert j in order;
      var i :| 0 <= i < |order| && order[i] == j;
      CutOffUngrounds(jobs, order, seq(i, _ => 0), i, disk);
    }
  }

  lemma {:induction false} OrderlyRunIsGrounded(jobs: Jobs, events: seq<Event>)
    requires AllPossible(jobs, events) && Orderly(jobs, events)
    ensures Grounded(jobs, Run(jobs, events, map[]))
  {
    if events != [] {
      var n := |events| - 1;
      var front := events[..n];
      assert forall i | 0 <= i < n :: front[..i] == events[..i] && front[i] == events[i];
      OrderlyRunIsGrounded(jobs, front);
      RunIsClosed(jobs, front);
      match events[n]
      case Idle =>
      case Ticked(_, _, _, _) => TickKeepsGrounded(jobs, events[n], Run(jobs, front, map[]));
      case Submitted(_, _, _) => SubmitGrounds(jobs, events[n], Run(jobs, front, map[]));
    }
  }

  /** A chain of parent edges from a Failed job down through Skipped jobs. */
  predicate BlameChain(jobs: Jobs, disk: Statuses, p: seq<JobId>) {
    Chain(jobs, p)
    && p[0] in disk && disk[p[0]].lifecycle.Failed?
    && forall i | 0 < i < |p| :: p[i] in disk && disk[p[i]].lifecycle.Skipped?
  }

  lemma BlameChainGrows(jobs: Jobs, disk: Statuses, p: seq<JobId>, j: JobId)
    requires BlameChain(jobs, disk, p) && p[|p| - 1] in Froms(jobs, j)
    requires j in jobs && j in disk && disk[j].lifecycle.Skipped?
    ensures BlameChain(jobs, disk, p + [j])
  {
    ChainAppends(jobs, p, j);
  }

  lemma {:induction false} BadHasBlame(jobs: Jobs, order: seq<JobId>, disk: Statuses, i: nat) returns (p: seq<JobId>)
    requires ParentsFirst(jobs, order) && Grounded(jobs, disk) && i < |order|
    requires order[i] in disk && disk[order[i]].lifecycle.IsBad()
    ensures BlameChain(jobs, disk, p) && p[|p| - 1] == order[i]
    decreases i
  {
    var j := order[i];
    ParentsFirstAt(jobs, order, i);
    if disk[j].lifecycle.Failed? {
      p := [j];
    } else {
      var m := EarlierBadParent(jobs, order, i, disk);
      var q := BadHasBlame(jobs, order, disk, m);
      BlameChainGrows(jobs, disk, q, j);
      p := q + [j];
    }
  }

  lemma {:induction false} SomeOrder(jobs: Jobs, events: seq<Event>) returns (order: seq<JobId>)
    requires AllPossible(jobs, events) && Run(jobs, events, map[]) != map[]
    ensures IsTopo(jobs, order)
  {
    var e := events[|events| - 1];
    if e.Idle? {
      order := SomeOrder(jobs, events[..|events| - 1]);
    } else {
      order := e.order;
    }
  }

  /** In every state an orderly run reaches, a Skipped job hangs below a Failed one,
      through Skipped jobs only. */
  lemma SkippedBelowFailed(jobs: Jobs, events: seq<Event>, j: JobId)
    requires AllPossible(jobs, events) && Orderly(jobs, events)
    requires var disk := Run(jobs, events, map[]); j in disk && disk[j].lifecycle.Skipped?
    ensures exists p :: BlameChain(jobs, Run(jobs, events, map[]), p) && p[|p| - 1] == j
  {
    var disk := Run(jobs, events, map[]);
    var order := SomeOrder(jobs, events);
    OrderlyRunIsGrounded(jobs, events);
    RunIsClosed(jobs, events);
    assert j in order;
    var i :| 0 <= i < |order| && order[i] == j;
    var p := BadHasBlame(jobs, order, disk, i);
  }
}

/** What one tick records and reports, read off the old record, SLURM's answer and the parents'
    new lifecycles alone. */
module Outcome {
  import opened Wrappers
  import opened Keys
  import opened Flow
  import opened Transitions
  import opened Tick
  import opened History

  /** A parent the tick saw is Failed or Skipped in `now`. */
  predicate FailedAbove(jobs: Jobs, seen: set<JobId>, now: Statuses, j: JobId)
    requires j in jobs
  {
    exists i | 0 <= i < |jobs[j].parents| ::
      var f := jobs[j].parents[i].from;
      f in seen && f in now && (now[f].lifecycle == Failed || now[f].lifecycle == Skipped)
  }

  predicate Open(run: JobRun) {
    run.lifecycle == Queued || run.lifecycle == Running
  }

  /** SLURM answers for the recorded id, with a state that vouches for `to`. */
  predicate Reported(run: JobRun, ans: Answers, to: Lifecycle) {
    run.slurmJobid.Some? && run.slurmJobid.value in ans && Vouches(ans[run.slurmJobid.value].state, to)
  }

  /** The one outcome for a job that stood at `was`.
      - Success, Failed and Skipped stay.
      - Queued below a failure becomes Skipped, without a SLURM status.
      - Otherwise it moves exactly to the other lifecycle SLURM reports, and holds its answer.
      - Id and note stay. */
  predicate OutcomeIs(was: JobRun, ans: Answers, failedAbove: bool, now: JobRun) {
    if !Open(was) then now == was
    else if was.lifecycle == Queued && failedAbove then now == JobRun(Skipped, was.slurmJobid, None, was.note)
    else
      (forall to | to != was.lifecycle && Reported(was, ans, to) ::
         now == JobRun(to, was.slurmJobid, Some(ans[was.slurmJobid.value]), was.note))
      && ((forall to | to != was.lifecycle :: !Reported(was, ans, to)) ==> now == was)
  }

  /** And the one decision reported for it. */
  predicate DecisionIs(was: JobRun, ans: Answers, failedAbove: bool, d: Decision) {
    if was.lifecycle == Queued && failedAbove then d.SkipDueToParent?
    else
      (forall to | to != was.lifecycle && Reported(was, ans, to) ::
         d == Transition(was.lifecycle, to, Some(ans[was.slurmJobid.value])))
      && ((forall to | to != was.lifecycle :: !Reported(was, ans, to)) ==> d == NoChange)
  }

  lemma DecisionFollows(jobs: Jobs, ans: Answers, j: JobId, was: JobRun, now: Statuses)
    requires j in jobs && Open(was)
    ensures DecisionIs(was, ans, FailedAbove(jobs, now.Keys, now, j), DecideJob(jobs, j, was, ans, now))
    ensures OutcomeIs(was, ans, FailedAbove(jobs, now.Keys, now, j), Apply(was, DecideJob(jobs, j, was, ans, now)))
  {
    BadParentDecides(jobs, j, now);
    assert BadParent(jobs, j, now) <==> FailedAbove(jobs, now.Keys, now, j);
    if was.slurmJobid.Some? && was.slurmJobid.value in ans {
      VouchersAreExclusive(ans[was.slurmJobid.value].state, was.lifecycle);
    }
    var next := if Answer(was, ans).Some? then Bucket(Answer(was, ans).value.state, was.lifecycle) else was.lifecycle;
    assert next != was.lifecycle ==> Reported(was, ans, next);
  }

  /** Every job a tick deals with, the tick being complete or cut off later, has that outcome; a
      job it does not reach, or whose file it does not see, is left alone. */
  lemma TickRecords(jobs: Jobs, e: Event, disk: Statuses, j: JobId)
    requires Possible(jobs, e) && e.Ticked? && j in disk && j in jobs
    ensures j in Step(jobs, e, disk)
    ensures var after := Step(jobs, e, disk);
            if j in e.seen && j in e.order[..e.visited]
            then OutcomeIs(disk[j], e.ans, FailedAbove(jobs, e.seen, after, j), after[j])
            else after[j] == disk[j]
  {
    TickStepIsPass(jobs, e, disk, j);
    var cur, after := Current(jobs, e.seen, disk), Step(jobs, e, disk);
    var now := Pass(jobs, e.ans, e.order, e.visited, cur);
    PassSolves(jobs, e.ans, e.order, e.visited, cur);
    if j in e.seen && j in e.order[..e.visited] {
      SameFailures(jobs, e, disk, now, j);
      if Open(disk[j]) {
        DecisionFollows(jobs, e.ans, j, disk[j], now);
      }
    }
  }

  /** The parents a tick saw are the recorded ones of its cache. */
  lemma SameFailures(jobs: Jobs, e: Event, disk: Statuses, now: Statuses, j: JobId)
    requires Possible(jobs, e) && e.Ticked? && j in jobs
    requires now == Pass(jobs, e.ans, e.order, e.visited, Current(jobs, e.seen, disk))
    ensures FailedAbove(jobs, e.seen, Step(jobs, e, disk), j) <==> FailedAbove(jobs, now.Keys, now, j)
  {
    var after := Step(jobs, e, disk);
    TickStepIsPass(jobs, e, disk, j);
    PassSolves(jobs, e.ans, e.order, e.visited, Current(jobs, e.seen, disk));
    assert j in e.order;
    var k :| 0 <= k < |e.order| && e.order[k] == j;
    ParentsFirstAt(jobs, e.order, k);
    forall i | 0 <= i < |jobs[j].parents|
      ensures var f := jobs[j].parents[i].from; f in e.seen && f in after <==> f in now
    {
      assert Froms(jobs, j)[i] in e.order[..k];
    }
  }

  /** A finished tick reports on exactly the jobs it saw Queued or Running, as it decided. */
  lemma TickReports(jobs: Jobs, ans: Answers, order: seq<JobId>, was: Statuses, j: JobId)
    requires IsTopo(jobs, order) && was.Keys <= jobs.Keys
    ensures var now := FullPass(jobs, ans, order, was);
            var report := Decisions(jobs, ans, was, now);
            && (j in report <==> j in was && Open(was[j]))
            && (j in report ==> DecisionIs(was[j], ans, FailedAbove(jobs, now.Keys, now, j), report[j]))
  {
    var now := FullPass(jobs, ans, order, was);
    if j in was && Open(was[j]) {
      DecisionFollows(jobs, ans, j, was[j], now);
    }
  }
}

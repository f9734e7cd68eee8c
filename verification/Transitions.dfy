/** Lifecycles, SLURM answers, and the pure decision for one job. */
module Transitions {
  import opened Wrappers
  import opened Flow

  /** A job without a status file is pending; that is not a lifecycle. */
  datatype Lifecycle = Queued | Running | Success | Failed | Skipped {
    predicate IsTerminal() { Success? || Failed? || Skipped? }

    predicate IsBad() { Failed? || Skipped? }
  }

  datatype JobState =
    | Pending | Configuring | Requeued | RequeueFed | RequeueHold | ResvDelHold | Suspended | Stopped
    | RunningState | Completing | Resizing | Signaling | StageOut
    | Completed
    | BootFail | Cancelled | Deadline | FailedState | NodeFail | OutOfMemory | Preempted | Revoked
    | SpecialExit | Timeout
    | Unknown

  /** `detail` stands for the fields of the SLURM answer that are copied but never inspected. */
  datatype JobStatus = JobStatus(state: JobState, detail: string)

  datatype Decision =
    | NoChange
    | Transition(from: Lifecycle, to: Lifecycle, slurmStatus: Option<JobStatus>)
    | SkipDueToParent(parent: JobId)

  /** The lifecycle a SLURM state calls for, given the current one. */
  function Bucket(state: JobState, current: Lifecycle): Lifecycle {
    match state
    case Pending | Configuring | Requeued | RequeueFed | RequeueHold | ResvDelHold
       | Suspended | Stopped => Queued
    case RunningState | Completing | Resizing | Signaling | StageOut => Running
    case Completed => Success
    case BootFail | Cancelled | Deadline | FailedState | NodeFail | OutOfMemory | Preempted
       | Revoked | SpecialExit | Timeout => Failed
    case Unknown => current
  }

  const WAITING_STATES: set<JobState> :=
    {Pending, Configuring, Requeued, RequeueFed, RequeueHold, ResvDelHold, Suspended, Stopped}

  const ALIVE_STATES: set<JobState> := {RunningState, Completing, Resizing, Signaling, StageOut}

  const FAILURE_STATES: set<JobState> :=
    {BootFail, Cancelled, Deadline, FailedState, NodeFail, OutOfMemory, Preempted, Revoked, SpecialExit, Timeout}

  /** The SLURM states that vouch for a lifecycle. */
  predicate Vouches(state: JobState, outcome: Lifecycle) {
    match outcome
    case Queued => state in WAITING_STATES
    case Running => state in ALIVE_STATES
    case Success => state == Completed
    case Failed => state in FAILURE_STATES
    case Skipped => false
  }

  /** The first parent whose lifecycle is Failed or Skipped. */
  function FirstBad(parents: seq<(JobId, Lifecycle)>): Option<JobId> {
    if parents == [] then None
    else if parents[0].1.IsBad() then Some(parents[0].0)
    else FirstBad(parents[1..])
  }

  function DecideTransition(current: Lifecycle, query: Option<JobStatus>,
                            parents: seq<(JobId, Lifecycle)>): Decision
  {
    if current.IsTerminal() then NoChange
    else if current.Queued? && FirstBad(parents).Some? then SkipDueToParent(FirstBad(parents).value)
    else match query
      case None => NoChange
      case Some(status) =>
        var next := Bucket(status.state, current);
        if next == current then NoChange
        else Transition(current, next, Some(status))
  }

  datatype JobRun = JobRun(lifecycle: Lifecycle, slurmJobid: Option<nat>,
                           slurmStatus: Option<JobStatus>, note: Option<string>)

  function QueuedRun(id: nat): JobRun {
    JobRun(Queued, Some(id), None, None)
  }

  /** The whole decision: a job is skipped exactly when it is Queued below a bad parent; it
      moves exactly when it is not terminal, is not skipped, and SLURM vouches for another
      lifecycle; otherwise, `Unknown` included, nothing changes. */
  lemma DecisionMeaning(current: Lifecycle, query: Option<JobStatus>, parents: seq<(JobId, Lifecycle)>)
    ensures var d := DecideTransition(current, query, parents);
            && (d.SkipDueToParent? <==>
                  current.Queued? && exists i | 0 <= i < |parents| :: parents[i].1.IsBad())
            && (forall to :: (d.Transition? && d.to == to) <==>
                  && !current.IsTerminal() && !d.SkipDueToParent? && to != current
                  && query.Some? && Vouches(query.value.state, to))
            && (d.Transition? ==> d.from == current && d.slurmStatus == query)
  {
    FirstBadExists(parents);
    if query.Some? {
      VouchersAreExclusive(query.value.state, current);
    }
  }

  lemma {:induction false} FirstBadExists(parents: seq<(JobId, Lifecycle)>)
    ensures FirstBad(parents).Some? <==> exists i | 0 <= i < |parents| :: parents[i].1.IsBad()
  {
    if parents != [] {
      FirstBadExists(parents[1..]);
      if exists i | 0 <= i < |parents| :: parents[i].1.IsBad() {
        var i :| 0 <= i < |parents| && parents[i].1.IsBad();
        assert i > 0 ==> parents[1..][i - 1].1.IsBad();
      }
    }
  }

  lemma BucketIsVouched(state: JobState, current: Lifecycle)
    requires state != Unknown
    ensures Vouches(state, Bucket(state, current))
  {
    match Bucket(state, current)
    case Queued => assert state in WAITING_STATES;
    case Running => assert state in ALIVE_STATES;
    case Success =>
    case Failed => assert state in FAILURE_STATES;
  }

  lemma VouchedIsBucket(state: JobState, outcome: Lifecycle, current: Lifecycle)
    requires Vouches(state, outcome)
    ensures state != Unknown && Bucket(state, current) == outcome
  {
    match outcome
    case Queued => assert state in WAITING_STATES;
    case Running => assert state in ALIVE_STATES;
    case Success =>
    case Failed => assert state in FAILURE_STATES;
  }

  lemma VouchersAreExclusive(state: JobState, current: Lifecycle)
    ensures forall to :: Vouches(state, to) ==> Bucket(state, current) == to
    ensures state == Unknown ==> Bucket(state, current) == current
    ensures state != Unknown ==> Vouches(state, Bucket(state, current))
    ensures forall to :: !Vouches(Unknown, to)
  {
    forall to | Vouches(state, to) ensures Bucket(state, current) == to {
      VouchedIsBucket(state, to, current);
    }
    forall to ensures !Vouches(Unknown, to) {
      if Vouches(Unknown, to) {
        VouchedIsBucket(Unknown, to, current);
      }
    }
    if state != Unknown {
      BucketIsVouched(state, current);
    }
  }
}

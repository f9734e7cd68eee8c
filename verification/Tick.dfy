/** One tick: the in-place pass over the jobs, the equation it solves, and what follows
    for order, repetition, interruption and failure propagation. */
module Tick {
  import opened Wrappers
  import opened Keys
  import opened Flow
  import opened Transitions

  type Statuses = map<JobId, JobRun>
  type Answers = map<nat, JobStatus>

  // ---- The pass ----

  function Answer(run: JobRun, ans: Answers): Option<JobStatus> {
    if run.slurmJobid.Some? && run.slurmJobid.value in ans then Some(ans[run.slurmJobid.value])
    else None
  }

  /** The recorded parents with their lifecycles, in edge order. */
  function ParentLifecycles(edges: seq<Edge>, current: Statuses): seq<(JobId, Lifecycle)> {
    if edges == [] then []
    else
      (if edges[0].from in current then [(edges[0].from, current[edges[0].from].lifecycle)] else [])
      + ParentLifecycles(edges[1..], current)
  }

  /** The decision for `j` when it stands at `run` and its parents at `current`. */
  function DecideJob(jobs: Jobs, j: JobId, run: JobRun, ans: Answers, current: Statuses): Decision {
    DecideTransition(run.lifecycle, Answer(run, ans), ParentLifecycles(ParentsOf(jobs, j), current))
  }

  function Apply(run: JobRun, d: Decision): JobRun {
    match d
    case NoChange => run
    case Transition(_, to, status) => run.(lifecycle := to, slurmStatus := status)
    case SkipDueToParent(_) => run.(lifecycle := Skipped, slurmStatus := None)
  }

  function TickJob(jobs: Jobs, ans: Answers, current: Statuses, j: JobId): Statuses {
    if j in current then current[j := Apply(current[j], DecideJob(jobs, j, current[j], ans, current))]
    else current
  }

  /** The cache after the first `n` jobs of `order`, each seeing its predecessors' results. */
  function Pass(jobs: Jobs, ans: Answers, order: seq<JobId>, n: nat, current: Statuses): Statuses
    requires n <= |order|
  {
    if n == 0 then current
    else TickJob(jobs, ans, Pass(jobs, ans, order, n - 1, current), order[n - 1])
  }

  function FullPass(jobs: Jobs, ans: Answers, order: seq<JobId>, current: Statuses): Statuses {
    Pass(jobs, ans, order, |order|, current)
  }

  // ---- The equation ----

  predicate Solved(jobs: Jobs, ans: Answers, was: Statuses, now: Statuses, j: JobId)
    requires j in was && j in now
  {
    now[j] == Apply(was[j], DecideJob(jobs, j, was[j], ans, now))
  }

  /** `now` satisfies the DAG equation: each record is decided from its old self, its
      answer, and its parents' new lifecycles. */
  predicate Settled(jobs: Jobs, ans: Answers, was: Statuses, now: Statuses) {
    now.Keys == was.Keys
    && forall j | j in was :: Solved(jobs, ans, was, now, j)
  }

  /** What `tick` reports: one decision per job that was not terminal. */
  function Decisions(jobs: Jobs, ans: Answers, was: Statuses, now: Statuses): map<JobId, Decision> {
    map j | j in was && !was[j].lifecycle.IsTerminal() :: DecideJob(jobs, j, was[j], ans, now)
  }

  lemma {:induction false} ParentsAgree(edges: seq<Edge>, a: Statuses, b: Statuses)
    requires forall i | 0 <= i < |edges| ::
               && (edges[i].from in a <==> edges[i].from in b)
               && (edges[i].from in a ==> a[edges[i].from].lifecycle == b[edges[i].from].lifecycle)
    ensures ParentLifecycles(edges, a) == ParentLifecycles(edges, b)
  {
    if edges != [] {
      ParentsAgree(edges[1..], a, b);
    }
  }

  /** A job whose parents all lie in `done` is decided the same from statuses that agree there. */
  lemma DecisionLocal(jobs: Jobs, ans: Answers, j: JobId, run: JobRun, done: seq<JobId>, a: Statuses, b: Statuses)
    requires Ready(jobs, j, done) && a.Keys == b.Keys
    requires forall x | x in done && x in a :: a[x] == b[x]
    ensures DecideJob(jobs, j, run, ans, a) == DecideJob(jobs, j, run, ans, b)
  {
    forall i | 0 <= i < |ParentsOf(jobs, j)|
      ensures ParentsOf(jobs, j)[i].from in done
    {
      assert Froms(jobs, j)[i] in Froms(jobs, j);
    }
    ParentsAgree(ParentsOf(jobs, j), a, b);
  }

  /** Changing a job placed later leaves the equation of an earlier job solved. */
  lemma LaterJobKeepsSolved(jobs: Jobs, ans: Answers, order: seq<JobId>, i: nat, m: nat,
                            was: Statuses, now: Statuses, run: JobRun)
    requires ParentsFirst(jobs, order) && i < m < |order|
    requires order[i] in was && order[i] in now && order[m] in now
    requires Solved(jobs, ans, was, now, order[i])
    ensures order[i] != order[m]
    ensures Solved(jobs, ans, was, now[order[m] := run], order[i])
  {
    ParentsFirstAt(jobs, order, i);
    ParentsFirstAt(jobs, order, m);
    forall y | y in order[..i] ensures y != order[m] {
      assert y in order[..m];
    }
    assert order[..m][i] == order[i];
    DecisionLocal(jobs, ans, order[i], was[order[i]], order[..i], now, now[order[m] := run]);
  }

  /** Visiting a job solves its own equation. */
  lemma VisitSolves(jobs: Jobs, ans: Answers, order: seq<JobId>, m: nat, was: Statuses, now: Statuses)
    requires ParentsFirst(jobs, order) && m < |order|
    requires order[m] in was && order[m] in now && now[order[m]] == was[order[m]]
    ensures Solved(jobs, ans, was, TickJob(jobs, ans, now, order[m]), order[m])
  {
    ParentsFirstAt(jobs, order, m);
    DecisionLocal(jobs, ans, order[m], was[order[m]], order[..m], now, TickJob(jobs, ans, now, order[m]));
  }

  /** Visiting a job leaves the equations of the earlier ones solved. */
  lemma VisitKeepsSolved(jobs: Jobs, ans: Answers, order: seq<JobId>, m: nat, was: Statuses, now: Statuses, j: JobId)
    requires ParentsFirst(jobs, order) && m < |order| && j in order[..m]
    requires j in was && was.Keys == now.Keys && Solved(jobs, ans, was, now, j)
    ensures Solved(jobs, ans, was, TickJob(jobs, ans, now, order[m]), j)
  {
    if order[m] in was {
      var i :| 0 <= i < m && order[..m][i] == j;
      LaterJobKeepsSolved(jobs, ans, order, i, m, was, now, TickJob(jobs, ans, now, order[m])[order[m]]);
    }
  }

  /** A pass records no new job and leaves the jobs it has not visited alone. */
  lemma {:induction false} PassLeavesRest(jobs: Jobs, ans: Answers, order: seq<JobId>, n: nat, was: Statuses)
    requires n <= |order|
    ensures Pass(jobs, ans, order, n, was).Keys == was.Keys
    ensures forall j | j in was && j !in order[..n] :: Pass(jobs, ans, order, n, was)[j] == was[j]
  {
    if n > 0 {
      PassLeavesRest(jobs, ans, order, n - 1, was);
      PrefixMembers(order, n - 1);
    }
  }

  /** After `n` jobs, those jobs satisfy the equation and the others are untouched. */
  lemma {:induction false} PassSolves(jobs: Jobs, ans: Answers, order: seq<JobId>, n: nat, was: Statuses)
    requires ParentsFirst(jobs, order) && n <= |order|
    ensures Pass(jobs, ans, order, n, was).Keys == was.Keys
    ensures forall j | j in was && j !in order[..n] :: Pass(jobs, ans, order, n, was)[j] == was[j]
    ensures forall j | j in was && j in order[..n] :: Solved(jobs, ans, was, Pass(jobs, ans, order, n, was), j)
  {
    PassLeavesRest(jobs, ans, order, n, was);
    if n > 0 {
      var m, prev, cur := n - 1, Pass(jobs, ans, order, n - 1, was), Pass(jobs, ans, order, n, was);
      PassSolves(jobs, ans, order, m, was);
      ParentsFirstAt(jobs, order, m);
      PrefixMembers(order, m);
      forall j | j in was && j in order[..n] ensures Solved(jobs, ans, was, cur, j) {
        if j == order[m] {
          VisitSolves(jobs, ans, order, m, was, prev);
        } else {
          VisitKeepsSolved(jobs, ans, order, m, was, prev, j);
        }
      }
    }
  }

  /** A finished pass solves the equation, whatever topological order it took. */
  lemma FullPassSettles(jobs: Jobs, ans: Answers, order: seq<JobId>, was: Statuses)
    requires IsTopo(jobs, order) && was.Keys <= jobs.Keys
    ensures Settled(jobs, ans, was, FullPass(jobs, ans, order, was))
  {
    PassSolves(jobs, ans, order, |order|, was);
    assert order[..|order|] == order;
  }

  /** On an acyclic flow the equation has one solution. */
  lemma {:induction false} SettledUniqueTo(jobs: Jobs, ans: Answers, order: seq<JobId>, n: nat, was: Statuses,
                                           a: Statuses, b: Statuses)
    requires ParentsFirst(jobs, order) && n <= |order|
    requires Settled(jobs, ans, was, a) && Settled(jobs, ans, was, b)
    ensures forall j | j in order[..n] && j in was :: a[j] == b[j]
  {
    if n > 0 {
      SettledUniqueTo(jobs, ans, order, n - 1, was, a, b);
      ParentsFirstAt(jobs, order, n - 1);
      var x := order[n - 1];
      PrefixMembers(order, n - 1);
      if x in was {
        DecisionLocal(jobs, ans, x, was[x], order[..n - 1], a, b);
      }
    }
  }

  lemma SettledUnique(jobs: Jobs, ans: Answers, order: seq<JobId>, was: Statuses, a: Statuses, b: Statuses)
    requires IsTopo(jobs, order) && was.Keys <= jobs.Keys
    requires Settled(jobs, ans, was, a) && Settled(jobs, ans, was, b)
    ensures a == b
  {
    SettledUniqueTo(jobs, ans, order, |order|, was, a, b);
    assert order[..|order|] == order;
  }

  /** Final records and decisions do not depend on which topological order is taken. */
  lemma OrderIndependent(jobs: Jobs, ans: Answers, order1: seq<JobId>, order2: seq<JobId>, was: Statuses)
    requires IsTopo(jobs, order1) && IsTopo(jobs, order2) && was.Keys <= jobs.Keys
    ensures FullPass(jobs, ans, order1, was) == FullPass(jobs, ans, order2, was)
    ensures Decisions(jobs, ans, was, FullPass(jobs, ans, order1, was)) ==
            Decisions(jobs, ans, was, FullPass(jobs, ans, order2, was))
  {
    FullPassSettles(jobs, ans, order1, was);
    FullPassSettles(jobs, ans, order2, was);
    SettledUnique(jobs, ans, order1, was, FullPass(jobs, ans, order1, was), FullPass(jobs, ans, order2, was));
  }

  /** The decisions taken for the first `n` jobs, each against the cache of its moment. */
  function VisitedDecisions(jobs: Jobs, ans: Answers, order: seq<JobId>, n: nat, was: Statuses): map<JobId, Decision>
    requires n <= |order|
  {
    if n == 0 then map[]
    else
      var x, before := order[n - 1], VisitedDecisions(jobs, ans, order, n - 1, was);
      if x in was && !was[x].lifecycle.IsTerminal()
      then before[x := DecideJob(jobs, x, was[x], ans, Pass(jobs, ans, order, n - 1, was))]
      else before
  }

  /** A decision taken against the cache of its moment is the one against the final cache. */
  lemma {:induction false} VisitedDecisionsAreFinal(jobs: Jobs, ans: Answers, order: seq<JobId>, n: nat, was: Statuses)
    requires ParentsFirst(jobs, order) && n <= |order|
    ensures var done := VisitedDecisions(jobs, ans, order, n, was);
            var full := FullPass(jobs, ans, order, was);
            && (forall j :: j in done <==> j in order[..n] && j in was && !was[j].lifecycle.IsTerminal())
            && forall j | j in done :: done[j] == DecideJob(jobs, j, was[j], ans, full)
  {
    if n > 0 {
      var x, m := order[n - 1], n - 1;
      VisitedDecisionsAreFinal(jobs, ans, order, m, was);
      ParentsFirstAt(jobs, order, m);
      PrefixMembers(order, m);
      VisitedAreFinal(jobs, ans, order, m, |order|, was);
      if x in was {
        DecisionLocal(jobs, ans, x, was[x], order[..m],
                      Pass(jobs, ans, order, m, was), FullPass(jobs, ans, order, was));
      }
    }
  }

  /** `tick` reports the decisions of the DAG equation. */
  lemma ReportIsDecisions(jobs: Jobs, ans: Answers, order: seq<JobId>, was: Statuses)
    requires IsTopo(jobs, order) && was.Keys <= jobs.Keys
    ensures VisitedDecisions(jobs, ans, order, |order|, was) ==
              Decisions(jobs, ans, was, FullPass(jobs, ans, order, was))
  {
    VisitedDecisionsAreFinal(jobs, ans, order, |order|, was);
    WholePrefix(order);
  }

  /** Visiting job `n`: it still stands at its first record, and the cache and the report change
      as its decision says. */
  lemma VisitNext(jobs: Jobs, ans: Answers, order: seq<JobId>, n: nat, was: Statuses)
    requires ParentsFirst(jobs, order) && n < |order|
    ensures var x, cur, next := order[n], Pass(jobs, ans, order, n, was), Pass(jobs, ans, order, n + 1, was);
            var done := VisitedDecisions(jobs, ans, order, n, was);
            var more := VisitedDecisions(jobs, ans, order, n + 1, was);
            && (x in cur <==> x in was)
            && (x !in cur ==> next == cur && more == done)
            && (x in cur ==>
                  var d := DecideJob(jobs, x, cur[x], ans, cur);
                  && cur[x] == was[x]
                  && next == cur[x := Apply(cur[x], d)]
                  && (d.NoChange? ==> next == cur)
                  && (cur[x].lifecycle.IsTerminal() ==> d.NoChange? && more == done)
                  && (!cur[x].lifecycle.IsTerminal() ==> more == done[x := d]))
  {
    PassSolves(jobs, ans, order, n, was);
    ParentsFirstAt(jobs, order, n);
    var cur := Pass(jobs, ans, order, n, was);
    if order[n] in cur {
      assert cur[order[n] := cur[order[n]]] == cur;
    }
  }

  /** Answers that agree on every id of a non-terminal record lead to the same pass. */
  lemma {:induction false} EnoughAnswers(jobs: Jobs, a: Answers, b: Answers, order: seq<JobId>, n: nat, was: Statuses)
    requires ParentsFirst(jobs, order) && n <= |order|
    requires forall j | j in was && !was[j].lifecycle.IsTerminal() :: Answer(was[j], a) == Answer(was[j], b)
    ensures Pass(jobs, a, order, n, was) == Pass(jobs, b, order, n, was)
    ensures VisitedDecisions(jobs, a, order, n, was) == VisitedDecisions(jobs, b, order, n, was)
  {
    if n > 0 {
      EnoughAnswers(jobs, a, b, order, n - 1, was);
      PassSolves(jobs, a, order, n - 1, was);
      ParentsFirstAt(jobs, order, n - 1);
    }
  }

  // ---- Repetition and interruption ----

  /** Some recorded parent of `j` is Failed or Skipped. */
  predicate BadParent(jobs: Jobs, j: JobId, current: Statuses) {
    exists i | 0 <= i < |ParentsOf(jobs, j)| :: BadEdge(ParentsOf(jobs, j)[i], current)
  }

  predicate BadEdge(e: Edge, current: Statuses) {
    e.from in current && current[e.from].lifecycle.IsBad()
  }

  /** `FirstBad` finds the first bad edge. */
  lemma {:induction false} FirstBadEdge(edges: seq<Edge>, current: Statuses)
    ensures FirstBad(ParentLifecycles(edges, current)).Some? <==>
              exists i | 0 <= i < |edges| :: BadEdge(edges[i], current)
    ensures forall q :: FirstBad(ParentLifecycles(edges, current)) == Some(q) <==>
              exists i | 0 <= i < |edges| :: BadEdge(edges[i], current) && edges[i].from == q
                && forall k | 0 <= k < i :: !BadEdge(edges[k], current)
  {
    if edges != [] {
      var rest := edges[1..];
      FirstBadEdge(rest, current);
      var all := ParentLifecycles(edges, current);
      if edges[0].from in current {
        assert all[1..] == ParentLifecycles(rest, current);
      } else {
        assert all == ParentLifecycles(rest, current);
      }
      assert forall i | 0 <= i < |rest| :: rest[i] == edges[i + 1];
      if BadEdge(edges[0], current) {
        assert FirstBad(all) == Some(edges[0].from);
      }
    }
  }

  /** `j` was seen Running, is now reported pending, and hangs below a failure: the tick puts
      it back to Queued, and the next look at it skips it. */
  predicate Flaps(jobs: Jobs, ans: Answers, was: Statuses, now: Statuses, j: JobId) {
    j in was && was[j].lifecycle.Running?
    && Answer(was[j], ans).Some? && Vouches(Answer(was[j], ans).value.state, Queued)
    && BadParent(jobs, j, now)
  }

  lemma BadParentDecides(jobs: Jobs, j: JobId, current: Statuses)
    ensures BadParent(jobs, j, current) <==>
              FirstBad(ParentLifecycles(ParentsOf(jobs, j), current)).Some?
  {
    FirstBadEdge(ParentsOf(jobs, j), current);
  }

  lemma NewlySkipped(jobs: Jobs, ans: Answers, was: Statuses, now: Statuses, j: JobId)
    requires Settled(jobs, ans, was, now) && j in was
    ensures now[j].lifecycle.Skipped? <==>
              was[j].lifecycle.Skipped? || (was[j].lifecycle.Queued? && BadParent(jobs, j, now))
  {
    BadParentDecides(jobs, j, now);
  }

  /** Deciding a settled record again leaves it alone, exactly unless the job flapped. */
  lemma SettledIsFixed(jobs: Jobs, ans: Answers, was: Statuses, now: Statuses, j: JobId)
    requires Settled(jobs, ans, was, now) && j in was
    ensures Apply(now[j], DecideJob(jobs, j, now[j], ans, now)) == now[j] <==>
              !Flaps(jobs, ans, was, now, j)
    ensures Flaps(jobs, ans, was, now, j) ==> now[j].lifecycle.Queued?
  {
    BadParentDecides(jobs, j, now);
    if Answer(was[j], ans).Some? {
      VouchersAreExclusive(Answer(was[j], ans).value.state, was[j].lifecycle);
    }
    assert Solved(jobs, ans, was, now, j);
    assert now[j].slurmJobid == was[j].slurmJobid;
  }

  /** A finished pass has no job left that is Running and reported pending. */
  lemma NoFlapAfterTick(jobs: Jobs, ans: Answers, was: Statuses, now: Statuses, next: Statuses, j: JobId)
    requires Settled(jobs, ans, was, now)
    ensures !Flaps(jobs, ans, now, next, j)
  {
    if j in was {
      if Answer(was[j], ans).Some? {
        VouchersAreExclusive(Answer(was[j], ans).value.state, was[j].lifecycle);
      }
      assert Solved(jobs, ans, was, now, j);
    }
  }

  lemma TerminalStays(jobs: Jobs, ans: Answers, order: seq<JobId>, n: nat, was: Statuses, j: JobId)
    requires ParentsFirst(jobs, order) && n <= |order|
    requires j in was && was[j].lifecycle.IsTerminal()
    ensures Pass(jobs, ans, order, n, was).Keys == was.Keys
    ensures Pass(jobs, ans, order, n, was)[j] == was[j]
  {
    PassSolves(jobs, ans, order, n, was);
  }

  /** The finished pass agrees with the interrupted one on the jobs already visited. */
  lemma {:induction false} VisitedAreFinal(jobs: Jobs, ans: Answers, order: seq<JobId>, n: nat, m: nat, was: Statuses)
    requires ParentsFirst(jobs, order) && n <= m <= |order|
    ensures Pass(jobs, ans, order, n, was).Keys == Pass(jobs, ans, order, m, was).Keys == was.Keys
    ensures forall j | j in was && j in order[..n] ::
              Pass(jobs, ans, order, n, was)[j] == Pass(jobs, ans, order, m, was)[j]
  {
    if n < m {
      VisitedAreFinal(jobs, ans, order, n, m - 1, was);
      ParentsFirstAt(jobs, order, m - 1);
      forall j | j in order[..n] ensures j != order[m - 1] {
        assert j in order[..m - 1];
      }
    } else {
      PassSolves(jobs, ans, order, n, was);
    }
  }

  /** If no visited job flapped, the interrupted state has the finished state as its solution. */
  lemma InterruptedSettles(jobs: Jobs, ans: Answers, order: seq<JobId>, n: nat, was: Statuses)
    requires IsTopo(jobs, order) && n <= |order| && was.Keys <= jobs.Keys
    requires var full := FullPass(jobs, ans, order, was);
             forall j | j in order[..n] :: !Flaps(jobs, ans, was, full, j)
    ensures Settled(jobs, ans, Pass(jobs, ans, order, n, was), FullPass(jobs, ans, order, was))
  {
    var part, full := Pass(jobs, ans, order, n, was), FullPass(jobs, ans, order, was);
    FullPassSettles(jobs, ans, order, was);
    VisitedAreFinal(jobs, ans, order, n, |order|, was);
    PassSolves(jobs, ans, order, n, was);
    forall j | j in part ensures Solved(jobs, ans, part, full, j) {
      if j in order[..n] {
        SettledIsFixed(jobs, ans, was, full, j);
      }
    }
  }

  /** A visited job that flapped is Queued in the finished tick and Skipped after the rerun. */
  lemma FlapDiverges(jobs: Jobs, ans: Answers, order: seq<JobId>, n: nat, was: Statuses, i: nat)
    requires IsTopo(jobs, order) && i < n <= |order| && was.Keys <= jobs.Keys
    requires Flaps(jobs, ans, was, FullPass(jobs, ans, order, was), order[i])
    ensures var part, full := Pass(jobs, ans, order, n, was), FullPass(jobs, ans, order, was);
            var rerun := FullPass(jobs, ans, order, part);
            && order[i] in full && full[order[i]].lifecycle.Queued?
            && order[i] in rerun && rerun[order[i]].lifecycle.Skipped?
  {
    var part, full := Pass(jobs, ans, order, n, was), FullPass(jobs, ans, order, was);
    var rerun, j := FullPass(jobs, ans, order, part), order[i];
    FullPassSettles(jobs, ans, order, was);
    VisitedAreFinal(jobs, ans, order, n, |order|, was);
    FullPassSettles(jobs, ans, order, part);
    SettledIsFixed(jobs, ans, was, full, j);
    assert j in order[..n] && part[j] == full[j];
    ParentsFirstAt(jobs, order, i);
    var k :| 0 <= k < |ParentsOf(jobs, j)| && BadEdge(ParentsOf(jobs, j)[k], full);
    var p := ParentsOf(jobs, j)[k].from;
    assert p == Froms(jobs, j)[k] && p in order[..i];
    assert p in order[..n] && part[p] == full[p];
    TerminalStays(jobs, ans, order, |order|, part, p);
    assert BadEdge(ParentsOf(jobs, j)[k], rerun);
    NewlySkipped(jobs, ans, part, rerun, j);
  }

  /** A tick cut off after `n` jobs and run again with the same answers ends where the
      uninterrupted tick ends, exactly when none of those `n` jobs flapped. */
  lemma InterruptedTick(jobs: Jobs, ans: Answers, order: seq<JobId>, n: nat, was: Statuses)
    requires IsTopo(jobs, order) && n <= |order| && was.Keys <= jobs.Keys
    ensures var full := FullPass(jobs, ans, order, was);
            var rerun := FullPass(jobs, ans, order, Pass(jobs, ans, order, n, was));
            && rerun.Keys == full.Keys == was.Keys
            && ((forall j | j in order[..n] :: !Flaps(jobs, ans, was, full, j)) <==> rerun == full)
            && ((forall j | j in order[..n] :: !Flaps(jobs, ans, was, full, j)) <==>
                  forall j | j in was :: rerun[j].lifecycle == full[j].lifecycle)
  {
    var part, full := Pass(jobs, ans, order, n, was), FullPass(jobs, ans, order, was);
    var rerun := FullPass(jobs, ans, order, part);
    VisitedAreFinal(jobs, ans, order, n, |order|, was);
    PassSolves(jobs, ans, order, |order|, part);
    if forall j | j in order[..n] :: !Flaps(jobs, ans, was, full, j) {
      InterruptedSettles(jobs, ans, order, n, was);
      FullPassSettles(jobs, ans, order, part);
      SettledUnique(jobs, ans, order, part, rerun, full);
    } else {
      var i :| 0 <= i < n && Flaps(jobs, ans, was, full, order[..n][i]);
      FlapDiverges(jobs, ans, order, n, was, i);
      assert rerun[order[i]].lifecycle != full[order[i]].lifecycle;
    }
  }

  /** With answers held fixed, a second tick moves some lifecycle exactly when some job flapped
      in the first, and a third tick changes nothing. */
  lemma RepeatedTick(jobs: Jobs, ans: Answers, order: seq<JobId>, was: Statuses)
    requires IsTopo(jobs, order) && was.Keys <= jobs.Keys
    ensures var first := FullPass(jobs, ans, order, was);
            var second := FullPass(jobs, ans, order, first);
            && first.Keys == second.Keys == was.Keys
            && ((exists j | j in was :: second[j].lifecycle != first[j].lifecycle) <==>
                  exists j :: Flaps(jobs, ans, was, first, j))
            && FullPass(jobs, ans, order, second) == second
  {
    var first := FullPass(jobs, ans, order, was);
    var second := FullPass(jobs, ans, order, first);
    InterruptedTick(jobs, ans, order, |order|, was);
    assert order[..|order|] == order;
    assert (exists j :: Flaps(jobs, ans, was, first, j)) <==>
           exists j | j in order :: Flaps(jobs, ans, was, first, j);
    FullPassSettles(jobs, ans, order, was);
    InterruptedTick(jobs, ans, order, |order|, first);
    forall j ensures !Flaps(jobs, ans, first, second, j) {
      NoFlapAfterTick(jobs, ans, was, first, second, j);
    }
  }

  // ---- Failure propagation ----

  /** A job is skipped exactly when it was Queued below a bad parent, and the decision
      names the first recorded parent edge that is Failed or Skipped after the tick. */
  lemma SkipNamesFirstBadEdge(jobs: Jobs, ans: Answers, was: Statuses, now: Statuses, j: JobId, q: JobId)
    requires Settled(jobs, ans, was, now) && j in was
    ensures (j in Decisions(jobs, ans, was, now) && Decisions(jobs, ans, was, now)[j] == SkipDueToParent(q)) <==>
              was[j].lifecycle.Queued?
              && exists i | 0 <= i < |ParentsOf(jobs, j)| ::
                   BadEdge(ParentsOf(jobs, j)[i], now) && ParentsOf(jobs, j)[i].from == q
                   && forall k | 0 <= k < i :: !BadEdge(ParentsOf(jobs, j)[k], now)
  {
    FirstBadEdge(ParentsOf(jobs, j), now);
  }

  lemma SkipReachesChild(jobs: Jobs, ans: Answers, was: Statuses, now: Statuses, p: JobId, c: JobId)
    requires Settled(jobs, ans, was, now) && p in Froms(jobs, c)
    requires p in now && now[p].lifecycle.IsBad()
    requires c in was && was[c].lifecycle.Queued?
    ensures now[c].lifecycle.Skipped?
  {
    var k :| 0 <= k < |Froms(jobs, c)| && Froms(jobs, c)[k] == p;
    assert BadEdge(ParentsOf(jobs, c)[k], now);
    NewlySkipped(jobs, ans, was, now, c);
  }

  /** `p` runs from a root cause (Failed after the tick, or Skipped before it) down through
      jobs that were Queued when the tick began. */
  predicate SkipChain(jobs: Jobs, was: Statuses, now: Statuses, p: seq<JobId>) {
    Chain(jobs, p)
    && (p[0] in now && p[0] in was && (now[p[0]].lifecycle.Failed? || was[p[0]].lifecycle.Skipped?))
    && forall i | 0 < i < |p| :: p[i] in was && was[p[i]].lifecycle.Queued?
  }

  /** Every job below a failed or skipped one, reached through Queued jobs, ends Skipped. */
  lemma {:induction false} SkipsPropagate(jobs: Jobs, ans: Answers, was: Statuses, now: Statuses, p: seq<JobId>)
    requires Settled(jobs, ans, was, now)
    requires Chain(jobs, p) && p[0] in now && now[p[0]].lifecycle.IsBad()
    requires forall i | 0 < i < |p| :: p[i] in was && was[p[i]].lifecycle.Queued?
    ensures p[|p| - 1] in now && now[p[|p| - 1]].lifecycle.IsBad()
    ensures |p| > 1 ==> now[p[|p| - 1]].lifecycle.Skipped?
    decreases |p|
  {
    if |p| > 1 {
      assert Link(jobs, p, 1);
      SkipReachesChild(jobs, ans, was, now, p[0], p[1]);
      ChainSlice(jobs, p, 1, |p|);
      SkipsPropagate(jobs, ans, was, now, p[1..|p|]);
    }
  }

  /** A bad parent of an ordered job stands earlier in the order. */
  lemma EarlierBadParent(jobs: Jobs, order: seq<JobId>, i: nat, now: Statuses) returns (m: nat)
    requires ParentsFirst(jobs, order) && i < |order| && BadParent(jobs, order[i], now)
    ensures m < i && order[m] in Froms(jobs, order[i])
    ensures order[m] in now && now[order[m]].lifecycle.IsBad()
  {
    ParentsFirstAt(jobs, order, i);
    var k :| 0 <= k < |ParentsOf(jobs, order[i])| && BadEdge(ParentsOf(jobs, order[i])[k], now);
    assert Froms(jobs, order[i])[k] in order[..i];
    m :| 0 <= m < i && order[m] == Froms(jobs, order[i])[k];
  }

  lemma SkipChainGrows(jobs: Jobs, was: Statuses, now: Statuses, q: seq<JobId>, j: JobId)
    requires SkipChain(jobs, was, now, q) && q[|q| - 1] in Froms(jobs, j)
    requires j in jobs && j in was && was[j].lifecycle.Queued?
    ensures SkipChain(jobs, was, now, q + [j])
  {
    ChainAppends(jobs, q, j);
  }

  lemma {:induction false} SkipHasChain(jobs: Jobs, ans: Answers, order: seq<JobId>, was: Statuses, now: Statuses,
                                        i: nat)
    returns (p: seq<JobId>)
    requires Settled(jobs, ans, was, now) && ParentsFirst(jobs, order) && i < |order|
    requires order[i] in now && now[order[i]].lifecycle.IsBad()
    ensures SkipChain(jobs, was, now, p) && p[|p| - 1] == order[i]
    ensures now[order[i]].lifecycle.Skipped? && !was[order[i]].lifecycle.Skipped? ==> |p| > 1
    decreases i
  {
    var j := order[i];
    ParentsFirstAt(jobs, order, i);
    NewlySkipped(jobs, ans, was, now, j);
    if now[j].lifecycle.Failed? || was[j].lifecycle.Skipped? {
      p := [j];
    } else {
      var m := EarlierBadParent(jobs, order, i, now);
      var q := SkipHasChain(jobs, ans, order, was, now, m);
      SkipChainGrows(jobs, was, now, q, j);
      p := q + [j];
    }
  }

  /** One tick newly skips exactly the jobs hanging, through jobs Queued at its start,
      below a job it leaves Failed or found Skipped. */
  lemma SkippedExactlyBelowFailures(jobs: Jobs, ans: Answers, order: seq<JobId>, was: Statuses, now: Statuses, j: JobId)
    requires IsTopo(jobs, order) && was.Keys <= jobs.Keys
    requires Settled(jobs, ans, was, now) && j in was
    ensures now[j].lifecycle.Skipped? && !was[j].lifecycle.Skipped? <==>
              exists p :: SkipChain(jobs, was, now, p) && |p| > 1 && p[|p| - 1] == j
  {
    if now[j].lifecycle.Skipped? && !was[j].lifecycle.Skipped? {
      assert j in order;
      var i :| 0 <= i < |order| && order[i] == j;
      var p := SkipHasChain(jobs, ans, order, was, now, i);
    }
    forall p | SkipChain(jobs, was, now, p) && |p| > 1 && p[|p| - 1] == j
      ensures now[j].lifecycle.Skipped? && !was[j].lifecycle.Skipped?
    {
      NewlySkipped(jobs, ans, was, now, p[0]);
      SkipsPropagate(jobs, ans, was, now, p);
    }
  }
}

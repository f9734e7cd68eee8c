/** `FlowRunner`: the imperative submit and tick over the disk, the executor and the querier. */
module Runner {
  import opened Wrappers
  import opened Keys
  import opened Flow
  import opened Topology
  import TopologyLoop
  import opened Transitions
  import opened Tick
  import opened History
  import opened JobIdText
  import opened Render
  import opened Slurm

  datatype JobManagerError =
    | FlowHasCycle(remaining: seq<JobId>)
    | LogDirMissing(job: JobId, field: string, dir: string)
    | MissingPlanEntry(job: JobId)
    | RenderError(job: JobId, reason: IdError)
    | Io
    | SubmitFailed(job: JobId)
    | SlurmError

  /** `merge` overlays a job's config on the common defaults. */
  datatype FlowRun = FlowRun(flowUuid: string, jobs: Jobs, plan: map<JobId, map<string, TomlValue>>,
                             merge: SlurmConfig -> SlurmConfig)

  function EffectiveConfig(fr: FlowRun, j: JobId): SlurmConfig
    requires j in fr.jobs
  {
    fr.merge(fr.jobs[j].config)
  }

  predicate Renderable(fr: FlowRun, j: JobId) {
    j in fr.jobs && j in fr.plan && Parsed(j).Ok?
  }

  function ScriptOf(fr: FlowRun, j: JobId): string
    requires Renderable(fr, j)
  {
    Rendered(fr.flowUuid, j, Parsed(j).value.axisCombo, fr.plan[j], fr.jobs[j].body)
  }

  predicate InPlace(fr: FlowRun, j: JobId, files: map<JobId, string>) {
    Renderable(fr, j) && j in files && files[j] == ScriptOf(fr, j)
  }

  /** The scripts of the first `n` jobs of `order` are in place; no other file changed. */
  ghost predicate Scripts(fr: FlowRun, order: seq<JobId>, n: nat, before: map<JobId, string>,
                          after: map<JobId, string>)
  {
    n <= |order|
    && (forall j | j in order[..n] :: InPlace(fr, j, after))
    && (forall j | j in after :: j in before || j in order[..n])
    && (forall j | j in before && j !in order[..n] :: j in after && after[j] == before[j])
  }

  /** So each of those jobs has a script that runs as this job, and every other file is as it was. */
  lemma ScriptsRunAs(fr: FlowRun, order: seq<JobId>, n: nat, before: map<JobId, string>,
                     after: map<JobId, string>, j: JobId)
    requires Scripts(fr, order, n, before, after)
    ensures j in order[..n] ==>
              && j in after && j in fr.jobs && j in fr.plan && Parsed(j).Ok?
              && RunsAs(after[j], fr.flowUuid, j, Parsed(j).value.axisCombo, fr.plan[j], fr.jobs[j].body)
    ensures j !in order[..n] ==> (j in after <==> j in before) && (j in after ==> after[j] == before[j])
  {
    if j in order[..n] {
      assert InPlace(fr, j, after);
      RenderedRunsAs(fr.flowUuid, j, Parsed(j).value.axisCombo, fr.plan[j], fr.jobs[j].body);
    }
  }

  lemma StaysInPlace(fr: FlowRun, j: JobId, files: map<JobId, string>, next: map<JobId, string>)
    requires InPlace(fr, j, files) && j in next && next[j] == files[j]
    ensures InPlace(fr, j, next)
  {
  }

  lemma ScriptsStep(fr: FlowRun, order: seq<JobId>, n: nat, before: map<JobId, string>,
                    after: map<JobId, string>, next: map<JobId, string>)
    requires n < |order| && Scripts(fr, order, n, before, after) && InPlace(fr, order[n], next)
    requires next == after[order[n] := next[order[n]]]
    ensures Scripts(fr, order, n + 1, before, next)
  {
    PrefixMembers(order, n);
    forall j | j in order[..n + 1] ensures InPlace(fr, j, next) {
      if j != order[n] {
        StaysInPlace(fr, j, after, next);
      }
    }
  }

  // ---- What a tick asks ----

  function IdToQuery(current: Statuses): JobId -> seq<nat> {
    (j: JobId) =>
      if j in current && !current[j].lifecycle.IsTerminal() && current[j].slurmJobid.Some?
      then [current[j].slurmJobid.value] else []
  }

  function IdsToQuery(current: Statuses): seq<nat> {
    FlatMap(SortedKeys(current.Keys), IdToQuery(current))
  }

  /** The record of `j` is Queued or Running and carries `id`. */
  predicate OpenUnder(current: Statuses, j: JobId, id: nat) {
    j in current && current[j].slurmJobid == Some(id)
    && (current[j].lifecycle == Queued || current[j].lifecycle == Running)
  }

  ghost predicate NeedsAnswer(current: Statuses) {
    exists j, id :: OpenUnder(current, j, id)
  }

  lemma AsksForOne(current: Statuses, j: JobId, id: nat)
    ensures id in IdToQuery(current)(j) <==> OpenUnder(current, j, id)
  {
  }

  /** The ids asked about are exactly those of the records that are Queued or Running. */
  lemma AsksForOpenIds(current: Statuses, id: nat)
    ensures id in IdsToQuery(current) <==> exists j :: OpenUnder(current, j, id)
  {
    var keys := SortedKeys(current.Keys);
    FlatMapMembers(keys, IdToQuery(current), id);
    if i :| 0 <= i < |keys| && id in IdToQuery(current)(keys[i]) {
      AsksForOne(current, keys[i], id);
    }
    if j :| OpenUnder(current, j, id) {
      assert j in keys;
      var i :| 0 <= i < |keys| && keys[i] == j;
      AsksForOne(current, keys[i], id);
    }
  }

  lemma AsksWhenNeeded(current: Statuses)
    ensures IdsToQuery(current) != [] <==> NeedsAnswer(current)
  {
    var ids := IdsToQuery(current);
    if ids != [] {
      AsksForOpenIds(current, ids[0]);
    }
    if j, id: nat :| OpenUnder(current, j, id) {
      AsksForOpenIds(current, id);
    }
  }

  /** Asking only for the ids of non-terminal records loses nothing. */
  lemma QueriedIsEnough(current: Statuses, asked: Answers, all: Answers, j: JobId)
    requires forall id :: id in asked <==> id in IdsToQuery(current) && id in all
    requires forall id | id in asked :: asked[id] == all[id]
    requires j in current && !current[j].lifecycle.IsTerminal()
    ensures Answer(current[j], asked) == Answer(current[j], all)
  {
    if current[j].slurmJobid.Some? {
      var keys, id := SortedKeys(current.Keys), current[j].slurmJobid.value;
      assert j in keys;
      var i :| 0 <= i < |keys| && keys[i] == j;
      FlatMapMembers(keys, IdToQuery(current), id);
      assert id in IdToQuery(current)(keys[i]);
    }
  }

  // ---- What a submit sends ----

  /** One dependency per parent edge, in edge order, on the id issued to that parent earlier in
      this same submit. */
  ghost predicate FreshDependencies(jobs: Jobs, order: seq<JobId>, ids: seq<nat>, k: nat, dep: Option<Dependencies>)
    requires k < |order| && k <= |ids|
  {
    var parents := ParentsOf(jobs, order[k]);
    if parents == [] then dep == None
    else
      dep.Some? && |dep.value| == |parents|
      && forall i | 0 <= i < |parents| ::
           dep.value[i].0 == parents[i].kind
           && exists q | 0 <= q < k :: order[q] == parents[i].from && dep.value[i].1 == ids[q]
  }

  /** Whether the SLURM library accepts a dependency list. */
  type Parser = Dependencies -> bool

  predicate Accepted(parses: Parser, dep: Option<Dependencies>) {
    dep.Some? ==> parses(dep.value)
  }

  /** The library rejects the dependency list of job `k`. */
  ghost predicate Rejected(fr: FlowRun, parses: Parser, order: seq<JobId>, ids: seq<nat>, k: nat)
    requires k < |order| && k <= |ids|
  {
    exists dep :: FreshDependencies(fr.jobs, order, ids, k, dep) && !Accepted(parses, dep)
  }

  ghost predicate CommandFor(fr: FlowRun, parses: Parser, order: seq<JobId>, ids: seq<nat>, k: nat, cmd: SbatchCmd)
    requires k < |order| && k <= |ids|
  {
    cmd.job == order[k] && order[k] in fr.jobs && cmd.config == fr.merge(fr.jobs[order[k]].config)
    && FreshDependencies(fr.jobs, order, ids, k, cmd.dependency) && Accepted(parses, cmd.dependency)
  }

  /** The executor calls of one submit: one per job in order, the last one possibly failed. */
  ghost predicate CommandsFor(fr: FlowRun, parses: Parser, order: seq<JobId>, ids: seq<nat>, cmds: seq<SbatchCmd>) {
    |ids| <= |cmds| <= |ids| + 1 && |cmds| <= |order|
    && forall k | 0 <= k < |cmds| :: CommandFor(fr, parses, order, ids, k, cmds[k])
  }

  /** The list of job `k` is determined by the order and the ids. */
  lemma FreshIsUnique(jobs: Jobs, order: seq<JobId>, ids: seq<nat>, k: nat,
                      a: Option<Dependencies>, b: Option<Dependencies>)
    requires NoDup(order) && k < |order| && k <= |ids|
    requires FreshDependencies(jobs, order, ids, k, a) && FreshDependencies(jobs, order, ids, k, b)
    ensures a == b
  {
    var parents := ParentsOf(jobs, order[k]);
    if parents != [] {
      forall i | 0 <= i < |parents| ensures a.value[i] == b.value[i] {
        var q :| 0 <= q < k && order[q] == parents[i].from && a.value[i].1 == ids[q];
        var r :| 0 <= r < k && order[r] == parents[i].from && b.value[i].1 == ids[r];
        assert q == r;
      }
      assert a.value == b.value;
    }
  }

  lemma CommandsGrow(fr: FlowRun, parses: Parser, order: seq<JobId>, ids: seq<nat>, id: nat, k: nat, cmd: SbatchCmd)
    requires k < |order| && k <= |ids| && CommandFor(fr, parses, order, ids, k, cmd)
    ensures CommandFor(fr, parses, order, ids + [id], k, cmd)
  {
    var parents := ParentsOf(fr.jobs, order[k]);
    if parents != [] {
      forall i | 0 <= i < |parents|
        ensures exists q | 0 <= q < k :: order[q] == parents[i].from && cmd.dependency.value[i].1 == (ids + [id])[q]
      {
        var q :| 0 <= q < k && order[q] == parents[i].from && cmd.dependency.value[i].1 == ids[q];
        assert (ids + [id])[q] == ids[q];
      }
    }
  }

  /** The `submitted` map at job `k`: the jobs already sent carry this submit's ids. */
  ghost predicate SubmittedSoFar(order: seq<JobId>, ids: seq<nat>, submitted: map<JobId, nat>) {
    |ids| <= |order|
    && forall q | 0 <= q < |ids| :: order[q] in submitted && submitted[order[q]] == ids[q]
  }

  lemma DependenciesAreFresh(fr: FlowRun, order: seq<JobId>, ids: seq<nat>, submitted: map<JobId, nat>)
    requires ParentsFirst(fr.jobs, order) && |ids| < |order| && SubmittedSoFar(order, ids, submitted)
    ensures FreshDependencies(fr.jobs, order, ids, |ids|, BuildDependency(ParentsOf(fr.jobs, order[|ids|]), submitted))
  {
    var k := |ids|;
    var parents := ParentsOf(fr.jobs, order[k]);
    ParentsFirstAt(fr.jobs, order, k);
    forall i | 0 <= i < |parents|
      ensures parents[i].from in submitted
      ensures exists q | 0 <= q < k :: order[q] == parents[i].from && submitted[parents[i].from] == ids[q]
    {
      assert Froms(fr.jobs, order[k])[i] in Froms(fr.jobs, order[k]);
      var q :| 0 <= q < k && order[..k][q] == parents[i].from;
      assert order[q] == parents[i].from && submitted[order[q]] == ids[q];
    }
    NoEdgeDropped(parents, submitted);
  }

  lemma RejectedExactly(fr: FlowRun, parses: Parser, order: seq<JobId>, ids: seq<nat>, k: nat,
                        dep: Option<Dependencies>)
    requires ParentsFirst(fr.jobs, order) && k < |order| && k <= |ids|
    requires FreshDependencies(fr.jobs, order, ids, k, dep)
    ensures Rejected(fr, parses, order, ids, k) <==> !Accepted(parses, dep)
  {
    ParentsFirstNoDup(fr.jobs, order);
    forall other | FreshDependencies(fr.jobs, order, ids, k, other) ensures other == dep {
      FreshIsUnique(fr.jobs, order, ids, k, dep, other);
    }
  }

  /** The list built for the next job is rejected, or its command is the one to send. */
  lemma CommandFits(fr: FlowRun, parses: Parser, order: seq<JobId>, ids: seq<nat>, submitted: map<JobId, nat>)
    requires ParentsFirst(fr.jobs, order) && |ids| < |order| && SubmittedSoFar(order, ids, submitted)
    requires order[|ids|] in fr.jobs
    ensures var jid := order[|ids|];
            var dep := BuildDependency(ParentsOf(fr.jobs, jid), submitted);
            && (Rejected(fr, parses, order, ids, |ids|) <==> !Accepted(parses, dep))
            && (Accepted(parses, dep) ==>
                  var cmd := SbatchCmd(jid, EffectiveConfig(fr, jid), dep);
                  forall c | c in [cmd] :: CommandFor(fr, parses, order, ids, |ids|, c))
  {
    DependenciesAreFresh(fr, order, ids, submitted);
    RejectedExactly(fr, parses, order, ids, |ids|, BuildDependency(ParentsOf(fr.jobs, order[|ids|]), submitted));
  }

  lemma SubmittedStep(jobs: Jobs, order: seq<JobId>, ids: seq<nat>, submitted: map<JobId, nat>)
    requires ParentsFirst(jobs, order) && |ids| < |order| && SubmittedSoFar(order, ids, submitted)
    ensures forall id: nat :: SubmittedSoFar(order, ids + [id], submitted[order[|ids|] := id])
  {
    ParentsFirstNoDup(jobs, order);
  }

  /** The config cache still serves every job from position `i` on. */
  predicate Serves(fr: FlowRun, order: seq<JobId>, i: nat, configs: map<JobId, SlurmConfig>) {
    forall k | i <= k < |order| ::
      order[k] in fr.jobs && order[k] in configs && configs[order[k]] == EffectiveConfig(fr, order[k])
  }

  /** Taking job `i`'s config out leaves those of the later jobs. */
  lemma ServesStep(fr: FlowRun, order: seq<JobId>, i: nat, configs: map<JobId, SlurmConfig>)
    requires ParentsFirst(fr.jobs, order) && i < |order| && Serves(fr, order, i, configs)
    ensures Serves(fr, order, i + 1, configs - {order[i]})
  {
    ParentsFirstNoDup(fr.jobs, order);
  }

  lemma SubmittedCovers(jobs: Jobs, order: seq<JobId>, ids: seq<nat>, submitted: map<JobId, nat>)
    requires IsTopo(jobs, order) && |ids| == |order| && SubmittedSoFar(order, ids, submitted)
    requires submitted.Keys <= jobs.Keys
    ensures submitted.Keys == jobs.Keys
  {
    forall j | j in jobs ensures j in submitted {
      assert j in order;
    }
  }

  /** The ids recorded in the readable status files. */
  function RecordedIds(disk: Statuses, seen: set<JobId>): (ids: map<JobId, nat>)
    ensures forall j, id :: (j in ids && ids[j] == id) <==> j in seen && j in disk && disk[j].slurmJobid == Some(id)
  {
    map j | j in disk && j in seen && disk[j].slurmJobid.Some? :: disk[j].slurmJobid.value
  }

  lemma {:induction false} RequeuePrefix(order: seq<JobId>, ids: seq<nat>, more: seq<nat>, n: nat, disk: Statuses)
    requires n <= |order| && n <= |ids|
    ensures Requeue(order, ids + more, n, disk) == Requeue(order, ids, n, disk)
  {
    if n > 0 {
      RequeuePrefix(order, ids, more, n - 1, disk);
      assert (ids + more)[n - 1] == ids[n - 1];
    }
  }

  lemma CommandsExtend(fr: FlowRun, parses: Parser, order: seq<JobId>, ids: seq<nat>, cmds: seq<SbatchCmd>,
                       issued: seq<nat>, sent: seq<SbatchCmd>)
    requires CommandsFor(fr, parses, order, ids, cmds) && |cmds| == |ids| < |order|
    requires |issued| <= |sent| <= 1
    requires forall cmd | cmd in sent :: CommandFor(fr, parses, order, ids, |ids|, cmd)
    ensures CommandsFor(fr, parses, order, ids + issued, cmds + sent)
  {
    var all, now := cmds + sent, ids + issued;
    forall k | 0 <= k < |all| ensures CommandFor(fr, parses, order, now, k, all[k]) {
      assert k < |cmds| || all[k] in sent;
      if issued != [] {
        assert now == ids + [issued[0]];
        CommandsGrow(fr, parses, order, ids, issued[0], k, all[k]);
      } else {
        assert now == ids;
      }
    }
  }

  lemma OverlayUpdates(base: Statuses, top: Statuses, j: JobId, run: JobRun)
    ensures (base + top)[j := run] == base + top[j := run]
  {
  }

  /** What a real submit has done after its first `|ids|` jobs: status files, executor log and
      remaining recordings, against their values at the start. */
  ghost predicate Progress(fr: FlowRun, parses: Parser, order: seq<JobId>, ids: seq<nat>, sent: seq<SbatchCmd>,
                           status0: Statuses, status: Statuses, log0: seq<SbatchCmd>, log: seq<SbatchCmd>,
                           rec0: seq<nat>, rec: seq<nat>)
  {
    |sent| == |ids| <= |order|
    && status == Requeue(order, ids, |ids|, status0)
    && log == log0 + sent && CommandsFor(fr, parses, order, ids, sent)
    && rec0 == ids + rec
  }

  /** The job after those: one more call and id at most, whether or not its record was written. */
  lemma ProgressStep(fr: FlowRun, parses: Parser, order: seq<JobId>, ids: seq<nat>, sent: seq<SbatchCmd>,
                     status0: Statuses, status: Statuses, log0: seq<SbatchCmd>, log: seq<SbatchCmd>,
                     rec0: seq<nat>, rec: seq<nat>, call: seq<SbatchCmd>, issued: seq<nat>, rest: seq<nat>)
    requires Progress(fr, parses, order, ids, sent, status0, status, log0, log, rec0, rec)
    requires |ids| < |order| && |issued| <= |call| <= 1 && rec == issued + rest
    requires forall cmd | cmd in call :: CommandFor(fr, parses, order, ids, |ids|, cmd)
    ensures CommandsFor(fr, parses, order, ids + issued, sent + call)
    ensures log + call == log0 + (sent + call)
    ensures rec0 == (ids + issued) + rest
    ensures status == Requeue(order, ids + issued, |ids|, status0)
    ensures |issued| == 1 ==>
              Progress(fr, parses, order, ids + issued, sent + call, status0,
                       status[order[|ids|] := QueuedRun(issued[0])], log0, log + call, rec0, rest)
  {
    CommandsExtend(fr, parses, order, ids, sent, issued, call);
    RequeuePrefix(order, ids, issued, |ids|, status0);
  }

  // ---- Why a submit stops ----

  /** The job whose turn it is cannot be rendered, or the disk fails. */
  predicate RenderStops(fr: FlowRun, order: seq<JobId>, rendered: nat, reliable: bool, error: JobManagerError) {
    match error
    case MissingPlanEntry(j) => rendered < |order| && j == order[rendered] && j !in fr.plan
    case RenderError(j, why) =>
      rendered < |order| && j == order[rendered] && j in fr.plan && Parsed(j) == Err(why)
    case Io => !reliable
    case _ => false
  }

  /** Why the real loop stopped after `rendered` scripts, `|sent|` calls, `|ids|` ids and `written`
      records, with the ids `rec0` to give at the start.
      - An id without a record: the disk failed.
      - A call without an id: the executor had none left.
      - A script without a call: the library rejects that job's dependency list.
      - Otherwise the next job could not be rendered, or the disk failed. */
  ghost predicate LoopStops(fr: FlowRun, parses: Parser, order: seq<JobId>, ids: seq<nat>, written: nat,
                            sent: seq<SbatchCmd>, rendered: nat, rec0: seq<nat>, reliable: bool,
                            error: JobManagerError)
  {
    if written < |ids| then error == Io && !reliable
    else if |ids| < |sent| then
      |ids| < |order| && error == SubmitFailed(order[|ids|]) && |rec0| == |ids|
    else if |sent| < rendered then
      |ids| < |order| && error == SubmitFailed(order[|ids|]) && Rejected(fr, parses, order, ids, |ids|)
    else RenderStops(fr, order, rendered, reliable, error)
  }

  /** The call for job `|ids|` and what became of it account for a stop there. */
  lemma CallStops(fr: FlowRun, parses: Parser, order: seq<JobId>, ids: seq<nat>, sent: seq<SbatchCmd>,
                  call: seq<SbatchCmd>, issued: seq<nat>, rec0: seq<nat>, rec: seq<nat>, reliable: bool,
                  error: JobManagerError)
    requires |sent| == |ids| < |order| && |issued| <= |call| <= 1 && rec0 == ids + rec
    requires call == [] <==> Rejected(fr, parses, order, ids, |ids|)
    requires issued == [] <==> call == [] || rec == []
    requires issued == [] ==> error == SubmitFailed(order[|ids|])
    requires issued != [] ==> error == Io && !reliable
    ensures LoopStops(fr, parses, order, ids + issued, |ids|, sent + call, |ids| + 1, rec0, reliable, error)
  {
    if issued == [] {
      assert ids + issued == ids;
    }
  }

  /** Jobs of the flow and every id their edges name. */
  function Candidates(jobs: Jobs): set<JobId> {
    jobs.Keys + set j, i | j in jobs && 0 <= i < |jobs[j].parents| :: jobs[j].parents[i].from
  }

  lemma CandidatesAreJobs(jobs: Jobs)
    requires forall j | j in jobs :: WellEdged(jobs, j)
    ensures Candidates(jobs) == jobs.Keys
  {
    forall j, i | j in jobs && 0 <= i < |jobs[j].parents| ensures jobs[j].parents[i].from in jobs {
      assert Froms(jobs, j)[i] in Froms(jobs, j);
    }
  }

  class FlowRunner {
    const executor: MockExecutor
    const querier: Querier
    const disk: Disk
    const parses: Parser

    constructor (executor: MockExecutor, querier: Querier, disk: Disk, parses: Parser)
      ensures this.executor == executor && this.querier == querier && this.disk == disk
      ensures this.parses == parses
    {
      this.executor, this.querier, this.disk, this.parses := executor, querier, disk, parses;
    }

    // ---- tick ----

    /** A visible status file cannot be read. */
    ghost predicate FileBlocked(jobs: Jobs) reads this, disk {
      exists j :: j in jobs && j in disk.Visible() && j in disk.unreadable
    }

    /** Reads the visible status files; one that exists but cannot be read is fatal. */
    method Collect(jobs: Jobs, order: seq<JobId>) returns (current: Option<Statuses>)
      requires forall j :: j in order <==> j in jobs
      ensures current.Some? ==> current.value == Current(jobs, disk.Visible(), disk.status)
      ensures current == None <==> FileBlocked(jobs)
    {
      var out: Statuses := map[];
      for i := 0 to |order|
        invariant forall j :: j in out <==> j in order[..i] && j in disk.Visible()
        invariant forall j | j in out :: out[j] == disk.status[j] && j !in disk.unreadable
      {
        PrefixMembers(order, i);
        assert order[i] in order;
        var found := disk.StatusExists(order[i]);
        if found {
          var run := disk.ReadStatus(order[i]);
          if run == None {
            return None;
          }
          out := out[order[i] := run.value];
        }
      }
      WholePrefix(order);
      return Some(out);
    }

    /** Asks for the non-terminal jobs; without any id to ask for there is no call. */
    method AskSlurm(current: Statuses) returns (asked: Option<Answers>)
      ensures asked.Some? ==> forall j | j in current && !current[j].lifecycle.IsTerminal() ::
                Answer(current[j], asked.value) == Answer(current[j], querier.responses)
      ensures asked == None <==> !querier.reachable && NeedsAnswer(current)
    {
      var ids := IdsToQuery(current);
      AsksWhenNeeded(current);
      if ids == [] {
        asked := Some(map[]);
      } else {
        asked := querier.Query(ids);
      }
      if asked.Some? {
        forall j | j in current && !current[j].lifecycle.IsTerminal()
          ensures Answer(current[j], asked.value) == Answer(current[j], querier.responses)
        {
          QueriedIsEnough(current, asked.value, querier.responses, j);
        }
      }
    }

    /** The in-place pass. `visited` counts the jobs dealt with when the call ended. */
    method ApplyAll(jobs: Jobs, order: seq<JobId>, start: Statuses, ans: Answers)
      returns (r: Option<map<JobId, Decision>>, ghost visited: nat)
      requires ParentsFirst(jobs, order)
      requires forall j | j in start :: j in disk.status && disk.status[j] == start[j]
      modifies disk`status
      ensures visited <= |order|
      ensures disk.status == old(disk.status) + Pass(jobs, ans, order, visited, start)
      ensures r.Some? ==> visited == |order| && r.value == VisitedDecisions(jobs, ans, order, visited, start)
      ensures r == None ==> visited < |order| && !disk.reliable
    {
      var current, transitions: map<JobId, Decision> := start, map[];
      visited := 0;
      for i := 0 to |order|
        invariant visited == i
        invariant current == Pass(jobs, ans, order, i, start)
        invariant transitions == VisitedDecisions(jobs, ans, order, i, start)
        invariant disk.status == old(disk.status) + current
      {
        var jid := order[i];
        VisitNext(jobs, ans, order, i, start);
        if jid in current {
          var run := current[jid];
          if !run.lifecycle.IsTerminal() {
            var decision := DecideJob(jobs, jid, run, ans, current);
            if decision.NoChange? {
              transitions := transitions[jid := decision];
            } else {
              var updated := Apply(run, decision);
              OverlayUpdates(old(disk.status), current, jid, updated);
              var ok := disk.WriteStatus(jid, updated);
              if !ok {
                return None, visited;
              }
              transitions := transitions[jid := decision];
              current := current[jid := updated];
            }
          }
        }
        visited := i + 1;
      }
      return Some(transitions), visited;
    }

    /** A visible status file cannot be read, or SLURM is needed and does not answer. */
    ghost predicate TickBlocked(jobs: Jobs) reads this, disk, querier {
      FileBlocked(jobs) || (!querier.reachable && NeedsAnswer(Current(jobs, disk.Visible(), disk.status)))
    }

    /** A tick whose order is known. */
    method TickOrdered(jobs: Jobs, order: seq<JobId>)
      returns (r: Result<map<JobId, Decision>, JobManagerError>, ghost e: Event)
      requires IsTopo(jobs, order)
      modifies disk`status
      ensures Possible(jobs, e) && !e.Submitted?
      ensures disk.status == Step(jobs, e, old(disk.status))
      ensures e.Ticked? ==> e.order == order && e.ans == querier.responses && e.seen == old(disk.Visible())
      ensures e.Idle? <==> old(TickBlocked(jobs))
      ensures e.Idle? ==> r == Err(if old(FileBlocked(jobs)) then Io else SlurmError)
      ensures e.Ticked? && r.Err? ==> r.error == Io && !disk.reliable && e.visited < |e.order|
      ensures r.Ok? ==>
                && e.Ticked? && e.visited == |e.order|
                && var start := Current(jobs, e.seen, old(disk.status));
                   r.value == Decisions(jobs, e.ans, start, FullPass(jobs, e.ans, e.order, start))
    {
      ghost var seen := disk.Visible();
      var current := Collect(jobs, order);
      if current == None {
        return Err(Io), Idle;
      }
      var asked := AskSlurm(current.value);
      if asked == None {
        return Err(SlurmError), Idle;
      }
      var done: Option<map<JobId, Decision>>;
      ghost var visited;
      done, visited := ApplyAll(jobs, order, current.value, asked.value);
      EnoughAnswers(jobs, asked.value, querier.responses, order, visited, current.value);
      e := Ticked(order, seen, querier.responses, visited);
      if done == None {
        return Err(Io), e;
      }
      ReportIsDecisions(jobs, querier.responses, order, current.value);
      return Ok(done.value), e;
    }

    /** One reconciliation. The effect on the status files is one event of the history; on
        success the report is the solution of the DAG equation, for SLURM's full answers. */
    method Tick(fr: FlowRun) returns (r: Result<map<JobId, Decision>, JobManagerError>, ghost e: Event)
      modifies disk`status
      ensures Possible(fr.jobs, e) && !e.Submitted?
      ensures disk.status == Step(fr.jobs, e, old(disk.status))
      ensures e.Ticked? ==>
                TopoResult(fr.jobs) == Ordered(e.order) && e.ans == querier.responses && e.seen == old(disk.Visible())
      ensures e.Idle? <==> TopoResult(fr.jobs).DependencyCycle? || old(TickBlocked(fr.jobs))
      ensures TopoResult(fr.jobs).Ordered? && e.Idle? ==>
                r == Err(if old(FileBlocked(fr.jobs)) then Io else SlurmError)
      ensures e.Ticked? && r.Err? ==> r.error == Io && !disk.reliable && e.visited < |e.order|
      ensures r.Ok? ==>
                && e.Ticked? && e.visited == |e.order|
                && var start := Current(fr.jobs, e.seen, old(disk.status));
                   r.value == Decisions(fr.jobs, e.ans, start, FullPass(fr.jobs, e.ans, e.order, start))
      ensures TopoResult(fr.jobs).DependencyCycle? ==>
                r == Err(FlowHasCycle(TopoResult(fr.jobs).remaining)) && e == Idle
    {
      var sorted := TopologyLoop.TopologicalOrder(fr.jobs);
      if sorted.DependencyCycle? {
        return Err(FlowHasCycle(sorted.remaining)), Idle;
      }
      OrderedExactlyWhenAcyclic(fr.jobs);
      r, e := TickOrdered(fr.jobs, sorted.order);
    }

    // ---- submit ----

    /** The ids recorded in visible, readable status files of the candidates. */
    function Recorded(candidates: set<JobId>): map<JobId, nat> reads this, disk {
      RecordedIds(disk.status, candidates * disk.Visible() - disk.unreadable)
    }

    /** Ids left by earlier runs; unreadable files are passed over. */
    method Preseed(jobs: Jobs) returns (submitted: map<JobId, nat>)
      ensures submitted == Recorded(Candidates(jobs))
    {
      submitted := map[];
      var keys := SortedKeys(Candidates(jobs));
      ghost var all := Recorded(Candidates(jobs));
      for i := 0 to |keys|
        invariant forall j :: j in submitted <==> j in keys[..i] && j in all
        invariant forall j | j in submitted :: submitted[j] == all[j]
      {
        PrefixMembers(keys, i);
        assert keys[i] in Candidates(jobs);
        var found := disk.StatusExists(keys[i]);
        if found {
          var run := disk.ReadStatus(keys[i]);
          if run.Some? && run.value.slurmJobid.Some? {
            submitted := submitted[keys[i] := run.value.slurmJobid.value];
          }
        }
      }
      WholePrefix(keys);
    }

    /** The error names the first job in order with a missing log directory, and its first one. */
    ghost predicate NamesFirstMissing(fr: FlowRun, order: seq<JobId>, error: JobManagerError) reads this {
      (forall j | j in order :: j in fr.jobs)
      && exists k | 0 <= k < |order| ::
           var dirs := disk.missingLogDirs(EffectiveConfig(fr, order[k]));
           dirs != [] && error == LogDirMissing(order[k], dirs[0].0, dirs[0].1)
           && forall j | j in order[..k] :: disk.missingLogDirs(EffectiveConfig(fr, j)) == []
    }

    /** Resolves every config, or names the first job in order with a missing log directory. */
    method Preflight(fr: FlowRun, order: seq<JobId>)
      returns (r: Result<map<JobId, SlurmConfig>, JobManagerError>)
      requires forall j | j in order :: j in fr.jobs
      ensures r.Ok? ==> forall j :: j in r.value <==> j in order
      ensures r.Ok? ==> forall j | j in order ::
                r.value[j] == EffectiveConfig(fr, j) && disk.missingLogDirs(EffectiveConfig(fr, j)) == []
      ensures r.Err? ==> NamesFirstMissing(fr, order, r.error)
    {
      var effective: map<JobId, SlurmConfig> := map[];
      for i := 0 to |order|
        invariant forall j :: j in effective <==> j in order[..i]
        invariant forall j | j in order[..i] ::
          effective[j] == EffectiveConfig(fr, j) && disk.missingLogDirs(EffectiveConfig(fr, j)) == []
      {
        var jid := order[i];
        assert jid in order && order[..i + 1] == order[..i] + [jid];
        var config := EffectiveConfig(fr, jid);
        var dirs := disk.missingLogDirs(config);
        if dirs != [] {
          return Err(LogDirMissing(jid, dirs[0].0, dirs[0].1));
        }
        effective := effective[jid := config];
      }
      WholePrefix(order);
      return Ok(effective);
    }

    /** Renders one job's script and writes it. */
    method RenderJob(fr: FlowRun, jid: JobId) returns (error: Option<JobManagerError>)
      requires jid in fr.jobs
      modifies disk`batch
      ensures error == None ==>
                InPlace(fr, jid, disk.batch) && disk.batch == old(disk.batch)[jid := disk.batch[jid]]
      ensures error.Some? ==> disk.batch == old(disk.batch)
      ensures jid !in fr.plan ==> error == Some(MissingPlanEntry(jid))
      ensures jid in fr.plan && Parsed(jid).Err? ==> error == Some(RenderError(jid, Parsed(jid).error))
      ensures jid in fr.plan && Parsed(jid).Ok? ==> error == None || (error == Some(Io) && !disk.reliable)
    {
      if jid !in fr.plan {
        return Some(MissingPlanEntry(jid));
      }
      var parts := ParseJobId(jid);
      if parts.Err? {
        return Some(RenderError(jid, parts.error));
      }
      var script := RenderBatchBash(fr.flowUuid, jid, parts.value, fr.plan[jid], fr.jobs[jid].body);
      var ok := disk.WriteBatch(jid, script);
      return if ok then None else Some(Io);
    }

    /** The next script, or the reason there is none. */
    method RenderNext(fr: FlowRun, order: seq<JobId>, n: nat, ghost batch0: map<JobId, string>)
      returns (error: Option<JobManagerError>)
      requires n < |order| && order[n] in fr.jobs && Scripts(fr, order, n, batch0, disk.batch)
      modifies disk`batch
      ensures Scripts(fr, order, if error == None then n + 1 else n, batch0, disk.batch)
      ensures error.Some? ==> RenderStops(fr, order, n, disk.reliable, error.value)
    {
      ghost var batch := disk.batch;
      error := RenderJob(fr, order[n]);
      if error == None {
        ScriptsStep(fr, order, n, batch0, batch, disk.batch);
      }
    }

    /** Builds the command of job `|ids|`, sends it, and records the job as Queued. `sent` and
        `issued` are the call made and the id obtained, if any. */
    method SubmitJob(fr: FlowRun, order: seq<JobId>, jid: JobId, config: SlurmConfig,
                     submitted: map<JobId, nat>, ghost ids: seq<nat>)
      returns (r: Result<nat, JobManagerError>, ghost sent: seq<SbatchCmd>, ghost issued: seq<nat>)
      requires ParentsFirst(fr.jobs, order) && |ids| < |order| && jid == order[|ids|]
      requires jid in fr.jobs && config == EffectiveConfig(fr, jid)
      requires SubmittedSoFar(order, ids, submitted)
      modifies executor, disk`status
      ensures |issued| <= |sent| <= 1
      ensures forall cmd | cmd in sent :: CommandFor(fr, parses, order, ids, |ids|, cmd)
      ensures executor.callsLog == old(executor.callsLog) + sent
      ensures old(executor.recordings) == issued + executor.recordings
      ensures r.Ok? ==> issued == [r.value] && disk.status == old(disk.status)[jid := QueuedRun(r.value)]
      ensures r.Err? ==> disk.status == old(disk.status)
      ensures sent == [] <==> Rejected(fr, parses, order, ids, |ids|)
      ensures issued == [] <==> sent == [] || old(executor.recordings) == []
      ensures issued == [] ==> r == Err(SubmitFailed(jid))
      ensures issued != [] ==> r == Ok(issued[0]) || (r == Err(Io) && !disk.reliable)
    {
      CommandFits(fr, parses, order, ids, submitted);
      sent, issued := [], [];
      var dependency := BuildDependency(ParentsOf(fr.jobs, jid), submitted);
      if dependency.Some? && !parses(dependency.value) {
        return Err(SubmitFailed(jid)), sent, issued;
      }
      var cmd := SbatchCmd(jid, config, dependency);
      var id := executor.Submit(cmd);
      sent := [cmd];
      if id == None {
        return Err(SubmitFailed(jid)), sent, issued;
      }
      issued := [id.value];
      var ok := disk.WriteStatus(jid, QueuedRun(id.value));
      if !ok {
        return Err(Io), sent, issued;
      }
      return Ok(id.value), sent, issued;
    }

    /** One round of the loop: render, send, record. */
    method SubmitNext(fr: FlowRun, order: seq<JobId>, config: SlurmConfig, submitted: map<JobId, nat>,
                      ghost ids: seq<nat>, ghost sent: seq<SbatchCmd>, ghost status0: Statuses,
                      ghost log0: seq<SbatchCmd>, ghost rec0: seq<nat>, ghost batch0: map<JobId, string>,
                      i: nat)
      returns (r: Result<nat, JobManagerError>, ghost ids': seq<nat>, ghost sent': seq<SbatchCmd>, ghost rendered: nat)
      requires ParentsFirst(fr.jobs, order) && |ids| == i < |order| && order[i] in fr.jobs
      requires config == EffectiveConfig(fr, order[i]) && SubmittedSoFar(order, ids, submitted)
      requires Progress(fr, parses, order, ids, sent, status0, disk.status, log0, executor.callsLog,
                        rec0, executor.recordings)
      requires Scripts(fr, order, |ids|, batch0, disk.batch)
      modifies executor, disk`status, disk`batch
      ensures CommandsFor(fr, parses, order, ids', sent') && |ids| <= |ids'| <= |ids| + 1
      ensures executor.callsLog == log0 + sent' && rec0 == ids' + executor.recordings
      ensures |sent'| <= rendered <= |sent'| + 1 && Scripts(fr, order, rendered, batch0, disk.batch)
      ensures r.Ok? ==>
                && ids' == ids + [r.value] && rendered == |ids'|
                && Progress(fr, parses, order, ids', sent', status0, disk.status, log0, executor.callsLog,
                            rec0, executor.recordings)
      ensures r.Err? ==>
                && disk.status == Requeue(order, ids', |ids|, status0)
                && LoopStops(fr, parses, order, ids', |ids|, sent', rendered, rec0, disk.reliable, r.error)
    {
      ids', sent', rendered := ids, sent, |ids|;
      ghost var status := disk.status;
      ghost var log, rec := executor.callsLog, executor.recordings;
      var error := RenderNext(fr, order, i, batch0);
      if error.Some? {
        return Err(error.value), ids', sent', rendered;
      }
      rendered := |ids| + 1;
      ghost var call: seq<SbatchCmd>;
      ghost var issued: seq<nat>;
      r, call, issued := SubmitJob(fr, order, order[i], config, submitted, ids);
      ProgressStep(fr, parses, order, ids, sent, status0, status, log0, log, rec0, rec,
                   call, issued, executor.recordings);
      if r.Err? {
        CallStops(fr, parses, order, ids, sent, call, issued, rec0, rec, disk.reliable, r.error);
      }
      ids', sent' := ids + issued, sent + call;
    }

    /** The real submission loop. `ids` are the ids issued, `written` the records written. */
    method SubmitLoop(fr: FlowRun, order: seq<JobId>, preseeded: map<JobId, nat>, configs: map<JobId, SlurmConfig>)
      returns (r: Result<map<JobId, nat>, JobManagerError>, ghost ids: seq<nat>, ghost written: nat,
               ghost sent: seq<SbatchCmd>, ghost rendered: nat)
      requires ParentsFirst(fr.jobs, order) && Serves(fr, order, 0, configs)
      requires preseeded.Keys <= fr.jobs.Keys
      modifies executor, disk`status, disk`batch
      ensures written <= |ids| <= written + 1 && |ids| <= |order|
      ensures disk.status == Requeue(order, ids, written, old(disk.status))
      ensures executor.callsLog == old(executor.callsLog) + sent && CommandsFor(fr, parses, order, ids, sent)
      ensures old(executor.recordings) == ids + executor.recordings
      ensures |sent| <= rendered <= |sent| + 1 && Scripts(fr, order, rendered, old(disk.batch), disk.batch)
      ensures r.Ok? ==>
                && written == |ids| == |sent| == |order| == rendered
                && SubmittedSoFar(order, ids, r.value) && r.value.Keys <= fr.jobs.Keys
      ensures r.Err? ==>
                LoopStops(fr, parses, order, ids, written, sent, rendered, old(executor.recordings),
                          disk.reliable, r.error)
    {
      var submitted, effective := preseeded, configs;
      ids, sent, rendered, written := [], [], 0, 0;
      ghost var status0, batch0 := disk.status, disk.batch;
      ghost var rec0, log0 := executor.recordings, executor.callsLog;
      for i := 0 to |order|
        invariant |ids| == i == rendered == written
        invariant Scripts(fr, order, i, batch0, disk.batch)
        invariant Progress(fr, parses, order, ids, sent, status0, disk.status, log0, executor.callsLog,
                           rec0, executor.recordings)
        invariant SubmittedSoFar(order, ids, submitted) && submitted.Keys <= fr.jobs.Keys
        invariant Serves(fr, order, i, effective)
      {
        var jid := order[i];
        var config := effective[jid];
        ServesStep(fr, order, i, effective);
        effective := effective - {jid};
        SubmittedStep(fr.jobs, order, ids, submitted);
        var id: Result<nat, JobManagerError>;
        id, ids, sent, rendered :=
          SubmitNext(fr, order, config, submitted, ids, sent, status0, log0, rec0, batch0, i);
        if id.Err? {
          return Err(id.error), ids, written, sent, rendered;
        }
        submitted := submitted[jid := id.value];
        written := i + 1;
      }
      return Ok(submitted), ids, written, sent, rendered;
    }

    /** The loop as one event of the history. */
    method SubmitAll(fr: FlowRun, order: seq<JobId>, preseeded: map<JobId, nat>, configs: map<JobId, SlurmConfig>)
      returns (r: Result<map<JobId, nat>, JobManagerError>, ghost e: Event, ghost sent: seq<SbatchCmd>,
               ghost rendered: nat)
      requires IsTopo(fr.jobs, order)
      requires preseeded.Keys <= fr.jobs.Keys
      requires Serves(fr, order, 0, configs)
      modifies executor, disk`status, disk`batch
      ensures e.Submitted? && e.order == order && Possible(fr.jobs, e)
      ensures disk.status == Step(fr.jobs, e, old(disk.status))
      ensures executor.callsLog == old(executor.callsLog) + sent && CommandsFor(fr, parses, order, e.ids, sent)
      ensures old(executor.recordings) == e.ids + executor.recordings
      ensures |sent| <= rendered <= |sent| + 1 && Scripts(fr, order, rendered, old(disk.batch), disk.batch)
      ensures r.Ok? ==>
                && e.written == |e.ids| == |sent| == |order| == rendered && r.value.Keys == fr.jobs.Keys
                && (forall k | 0 <= k < |order| :: order[k] in r.value && r.value[order[k]] == e.ids[k])
      ensures r.Err? ==>
                LoopStops(fr, parses, order, e.ids, e.written, sent, rendered, old(executor.recordings),
                          disk.reliable, r.error)
    {
      ghost var ids, written;
      r, ids, written, sent, rendered := SubmitLoop(fr, order, preseeded, configs);
      e := Submitted(order, ids, written);
      if r.Ok? {
        SubmittedCovers(fr.jobs, order, ids, r.value);
      }
    }

    /** A real submit after the snapshot: preflight, then the loop. */
    method SubmitReal(fr: FlowRun, order: seq<JobId>, submitted: map<JobId, nat>)
      returns (r: Result<map<JobId, nat>, JobManagerError>, ghost e: Event, ghost sent: seq<SbatchCmd>,
               ghost rendered: nat)
      requires IsTopo(fr.jobs, order) && submitted.Keys <= fr.jobs.Keys
      modifies executor, disk`status, disk`batch
      ensures Possible(fr.jobs, e) && !e.Ticked?
      ensures disk.status == Step(fr.jobs, e, old(disk.status))
      ensures executor.callsLog == old(executor.callsLog) + sent
      ensures |sent| <= rendered && Scripts(fr, order, rendered, old(disk.batch), disk.batch)
      ensures e.Idle? ==>
                && sent == [] && rendered == 0 && executor.recordings == old(executor.recordings)
                && r.Err? && NamesFirstMissing(fr, order, r.error)
      ensures e.Submitted? ==>
                && e.order == order && rendered <= |sent| + 1 && CommandsFor(fr, parses, order, e.ids, sent)
                && old(executor.recordings) == e.ids + executor.recordings
                && (r.Err? ==> LoopStops(fr, parses, order, e.ids, e.written, sent, rendered, old(executor.recordings),
                                        disk.reliable, r.error))
                && forall j | j in fr.jobs :: disk.missingLogDirs(EffectiveConfig(fr, j)) == []
      ensures r.Ok? ==>
                && e.Submitted? && e.written == |e.ids| == |sent| == |order| == rendered
                && r.value.Keys == fr.jobs.Keys
                && forall k | 0 <= k < |order| :: order[k] in r.value && r.value[order[k]] == e.ids[k]
    {
      var effective := Preflight(fr, order);
      if effective.Err? {
        return Err(effective.error), Idle, [], 0;
      }
      forall j | j in fr.jobs ensures disk.missingLogDirs(EffectiveConfig(fr, j)) == [] {
        assert j in order;
      }
      r, e, sent, rendered := SubmitAll(fr, order, submitted, effective.value);
    }

    /** The dry run: scripts only. */
    method RenderAll(fr: FlowRun, order: seq<JobId>) returns (error: Option<JobManagerError>, ghost rendered: nat)
      requires IsTopo(fr.jobs, order)
      modifies disk`batch
      ensures Scripts(fr, order, rendered, old(disk.batch), disk.batch)
      ensures error == None ==> rendered == |order|
      ensures error.Some? ==> RenderStops(fr, order, rendered, disk.reliable, error.value)
    {
      rendered := 0;
      for i := 0 to |order|
        invariant rendered == i && Scripts(fr, order, i, old(disk.batch), disk.batch)
      {
        assert order[i] in order;
        error := RenderNext(fr, order, i, old(disk.batch));
        if error.Some? {
          return;
        }
        rendered := i + 1;
      }
      error := None;
    }

    /** The part of a submit after its order is known. */
    method SubmitOrdered(fr: FlowRun, order: seq<JobId>, dryRun: bool)
      returns (r: Result<map<JobId, nat>, JobManagerError>, ghost e: Event, ghost sent: seq<SbatchCmd>,
               ghost rendered: nat)
      requires IsTopo(fr.jobs, order) && forall j | j in fr.jobs :: WellEdged(fr.jobs, j)
      modifies disk`snapshot, disk`batch, disk`status, executor
      ensures Possible(fr.jobs, e) && !e.Ticked?
      ensures disk.status == Step(fr.jobs, e, old(disk.status))
      ensures executor.callsLog == old(executor.callsLog) + sent
      ensures e.Idle? ==> sent == [] && executor.recordings == old(executor.recordings)
      ensures e.Submitted? ==>
                && e.order == order && !dryRun && rendered <= |sent| + 1 && CommandsFor(fr, parses, order, e.ids, sent)
                && old(executor.recordings) == e.ids + executor.recordings
                && forall j | j in fr.jobs :: disk.missingLogDirs(EffectiveConfig(fr, j)) == []
      ensures Scripts(fr, order, rendered, old(disk.batch), disk.batch) && |sent| <= rendered
      ensures disk.snapshot == Some(fr.jobs)
              || (disk.snapshot == old(disk.snapshot) && r == Err(Io) && e.Idle? && rendered == 0
                 && !disk.reliable)
      ensures e.Submitted? && r.Err? ==>
                LoopStops(fr, parses, order, e.ids, e.written, sent, rendered, old(executor.recordings),
                          disk.reliable, r.error)
      ensures e.Idle? && !dryRun ==>
                && rendered == 0 && r.Err?
                && (NamesFirstMissing(fr, order, r.error) || (r.error == Io && !disk.reliable))
      ensures dryRun && r.Err? ==> RenderStops(fr, order, rendered, disk.reliable, r.error)
      ensures r.Ok? ==> rendered == |order|
      ensures r.Ok? && dryRun ==> r.value == old(Recorded(fr.jobs.Keys))
      ensures r.Ok? && !dryRun ==>
                && e.Submitted? && e.written == |e.ids| == |sent| == |order|
                && r.value.Keys == fr.jobs.Keys
                && forall k | 0 <= k < |order| :: order[k] in r.value && r.value[order[k]] == e.ids[k]
    {
      e, sent, rendered := Idle, [], 0;
      var saved := disk.WriteSnapshot(fr.jobs);
      if !saved {
        return Err(Io), e, sent, rendered;
      }
      var submitted := Preseed(fr.jobs);
      CandidatesAreJobs(fr.jobs);
      if dryRun {
        var error: Option<JobManagerError>;
        error, rendered := RenderAll(fr, order);
        if error.Some? {
          return Err(error.value), e, sent, rendered;
        }
        return Ok(submitted), e, sent, rendered;
      }
      r, e, sent, rendered := SubmitReal(fr, order, submitted);
    }

    /** Renders and, unless `dryRun`, submits the whole flow.
        - A flow without a topological order changes nothing.
        - A missing log directory stops a real submit before any script, call or record.
        - A dry run makes no call and no record, and returns the ids already recorded in the
          status files it could read.
        - A real submit is one `Submitted` event of the history; every call depends only on ids
          issued by this submit; on success exactly the flow's jobs are returned. */
    method Submit(fr: FlowRun, dryRun: bool)
      returns (r: Result<map<JobId, nat>, JobManagerError>, ghost e: Event, ghost sent: seq<SbatchCmd>,
               ghost rendered: nat)
      modifies disk`snapshot, disk`batch, disk`status, executor
      ensures Possible(fr.jobs, e) && !e.Ticked?
      ensures disk.status == Step(fr.jobs, e, old(disk.status))
      ensures executor.callsLog == old(executor.callsLog) + sent
      ensures e.Idle? ==> sent == [] && executor.recordings == old(executor.recordings)
      ensures e.Submitted? ==>
                && TopoResult(fr.jobs) == Ordered(e.order) && !dryRun && rendered <= |sent| + 1
                && CommandsFor(fr, parses, e.order, e.ids, sent)
                && old(executor.recordings) == e.ids + executor.recordings
                && forall j | j in fr.jobs :: disk.missingLogDirs(EffectiveConfig(fr, j)) == []
      ensures TopoResult(fr.jobs).DependencyCycle? ==>
                && r == Err(FlowHasCycle(TopoResult(fr.jobs).remaining)) && e.Idle?
                && disk.snapshot == old(disk.snapshot) && disk.batch == old(disk.batch)
      ensures TopoResult(fr.jobs).Ordered? ==>
                && Scripts(fr, TopoResult(fr.jobs).order, rendered, old(disk.batch), disk.batch)
                && |sent| <= rendered
                && (disk.snapshot == Some(fr.jobs)
                    || (disk.snapshot == old(disk.snapshot) && r == Err(Io) && e.Idle? && rendered == 0
                 && !disk.reliable))
      ensures e.Submitted? && r.Err? ==>
                LoopStops(fr, parses, e.order, e.ids, e.written, sent, rendered, old(executor.recordings),
                          disk.reliable, r.error)
      ensures TopoResult(fr.jobs).Ordered? && e.Idle? && !dryRun ==>
                && rendered == 0 && r.Err?
                && (NamesFirstMissing(fr, TopoResult(fr.jobs).order, r.error) || (r.error == Io && !disk.reliable))
      ensures TopoResult(fr.jobs).Ordered? && dryRun && r.Err? ==>
                RenderStops(fr, TopoResult(fr.jobs).order, rendered, disk.reliable, r.error)
      ensures r.Ok? ==> TopoResult(fr.jobs).Ordered? && rendered == |TopoResult(fr.jobs).order|
      ensures r.Ok? && dryRun ==> r.value == old(Recorded(fr.jobs.Keys))
      ensures r.Ok? && !dryRun ==>
                && e.Submitted? && e.written == |e.ids| == |sent| == |e.order|
                && r.value.Keys == fr.jobs.Keys
                && forall k | 0 <= k < |e.order| :: e.order[k] in r.value && r.value[e.order[k]] == e.ids[k]
    {
      var sorted := TopologyLoop.TopologicalOrder(fr.jobs);
      if sorted.DependencyCycle? {
        return Err(FlowHasCycle(sorted.remaining)), Idle, [], 0;
      }
      OrderedExactlyWhenAcyclic(fr.jobs);
      r, e, sent, rendered := SubmitOrdered(fr, sorted.order, dryRun);
    }
  }
}

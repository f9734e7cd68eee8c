# A Dafny model of job_manager

This project models the orchestration core of `job_manager`: a flow of jobs with parent edges
is ordered, rendered, submitted to SLURM and reconciled by ticks, and its state is listed. The
files follow the program's structure.

- `Flow`, `Topology`, `Fifo`, `TopologyLoop`, `Layers`: the job graph; Kahn's algorithm as the
  counter-free definition `TopoResult` and as the counting loop `TopologicalOrder` that computes
  it; what the FIFO queue makes of the order.
- `Transitions`, `Tick`, `Outcome`: the decision table; one tick as an in-place pass (`Pass`) and
  as an equation on the graph (`Settled`); what it records and reports for each job.
- `History`: every run of submits and ticks on one flow. An `Event` is what one call did to the
  status files, complete or cut off at any write; `Run` replays them.
- `Slurm`, `Runner`: the imperative `FlowRunner.Submit` and `FlowRunner.Tick` over a disk, an
  executor and a querier. Each returns the `Event` it amounts to, so that the theorems of
  `History` speak about every sequence of calls.
- `JobIdText`, `JobIdLanguage`, `Shell`, `Render`: job ids and scripts as text, each with its
  reader. `Shell` follows sections 2.2.1 and 2.2.2 of the Shell Command Language volume of POSIX.1-2017.
- `Listing`, `Rows`: the `jm ls` projections, and what their rows hold. `AtomicWrite`: interleaved file writers.
- `Counterexamples`: concrete inputs where the repository's prose promises more than its code.
  `EdgeKinds` and `Partial` say exactly when the code keeps two of those promises.

A pending job is one without a record. A write replaces a file or leaves it alone
(`AtomicWrite` says why) and may fail unless the disk is `reliable`; status files may be
`hidden` from the existence check or `unreadable`. `MockExecutor` is any executor as far as one
submit can tell, because a submit ends at the first failed call. Job ids are ordered by code
point, as in `BTreeMap<JobId, _>`.

## Where the code and its prose differ

The model follows the code.

- The repository's `README.md:292` calls `tick` idempotent. `src/runner/transition.rs:56-63` moves Running back to
  Queued, so a job requeued below a failed parent is Queued by one tick and Skipped by the next
  (`Counterexamples.TickIsNotIdempotent`). `Tick.RepeatedTick` gives the exact condition, and
  that a third tick is always idle.
- Its `README.md:298` limits skipping to `afterok` edges; the tick never reads an edge's kind
  (`Counterexamples.EdgeKindIsIgnored`), so a clean-up job on an `afternotok` edge is Skipped by
  the failure it waits for (`Counterexamples.CleanupJobIsSkipped`). A tick keeps the promise
  exactly when no Queued job's first bad edge is of another kind (`EdgeKinds.TickFollowsAfterOk`),
  and a flow always does exactly when all its edges are `afterok` (`EdgeKinds.FlowFollowsAfterOk`).
- The same line promises a cause chain for every Skipped job. A second submit that is cut off
  breaks it, and the flow can end as PARTIAL, with no failure at all
  (`Counterexamples.CutOffResubmitReachesPartial`). Before a submit the chains are safe exactly
  when no record is Skipped (`History.SubmitIsSafeExactlyWithoutSkipped`), and PARTIAL is out of
  reach exactly unless some Skipped record is followed, in topological order, by recorded jobs
  only, none of them Failed (`Partial.PartialExactlyIfEndsStale`).
- `src/runner/flow.rs:146` says that a dry run returns an empty map; it returns the recorded ids
  (`Runner.FlowRunner.Submit`, `Counterexamples.DryRunReturnsOldId`), and the map is empty exactly
  when there are none (`Counterexamples.DryRunMapIsEmpty`).
- A parent named twice, or not in the flow, ends in `DependencyCycle` without any cycle
  (`Topology.OrderedExactlyWhenAcyclic`, `Topology.CycleReportIsExact`,
  `Counterexamples.DuplicateParentReportsCycle`).
- `build_job_id` does not validate, and `validate_step_id` admits `__` and a trailing `_`, so not
  every valid pair of names comes back (`JobIdText.RoundTrip`,
  `Counterexamples.TrailingUnderscoreIsLost`).
- A limit of zero yields one row when anything matches (`Listing.LimitTakesPrefix`).

## Model

| member | source | states |
|---|---|---|
| TopologyLoop.TopologicalOrder | src/flow/topology.rs:9-53 | the counting loop with its FIFO queue computes the counter-free definition, order and cycle report alike |
| TopologyLoop.Relax | src/flow/topology.rs:27-37 | one scan discounts the placed job from every child once and queues, in key order, exactly the jobs it makes ready |
| TopologyLoop.MissingMeansNotReady | src/flow/topology.rs:13-16 | a counter never goes negative and is zero exactly when the parents are distinct and all placed |
| Topology.KahnSteps | src/flow/topology.rs:25-38 | placed and queued jobs are always exactly the ready ones, none twice, which bounds the loop |
| Topology.OrderedExactlyWhenAcyclic | src/flow/topology.rs:40-52 | Ok exactly when edges are distinct, resolve and form no cycle; the order is then a permutation with parents strictly first |
| Topology.CycleReportIsExact | src/flow/topology.rs:40-51 | the error lists, sorted and never empty, exactly the jobs on or below a cycle or a malformed edge list |
| Topology.CycleReportNamesCycles | src/flow/topology.rs:41-50 | with well-formed edges the report contains a whole cycle and holds exactly the jobs on or below one |
| Fifo.OrderExactly | src/flow/topology.rs:18-38 | the order returned is exactly the topological one sorted by the position of each job's last parent, parentless jobs first, and by key below the same one |
| Fifo.WakingOrderIsUnique | src/flow/topology.rs:18-38 | there is only one such order |
| Keys.LessMeaning | src/flow/topology.rs:18-27 | keys compare by their first differing code point, a proper prefix coming first |
| Layers.OrderFollowsDepth | src/flow/topology.rs:18-38 | longest-path depth never falls along the order |
| Layers.OrderedHaveDepth | src/flow/topology.rs:18-38 | every ordered job has a longest-path depth |
| Layers.RootsComeFirst | src/flow/topology.rs:18-21 | the order opens with exactly the parentless jobs in key order |
| Transitions.DecisionMeaning | src/runner/transition.rs:28-106 | a job is skipped exactly when Queued below a bad parent, and moves exactly when SLURM vouches for another lifecycle; terminal jobs and Unknown answers change nothing |
| Tick.FullPassSettles | src/runner/flow.rs:344-401 | the in-place pass solves new(j) = decide(old(j), answer(j), new(parents)) |
| Outcome.TickRecords | src/runner/flow.rs:352-400 | a job the tick deals with stays if terminal, becomes Skipped without a status if Queued below a failure, and else moves exactly to the other lifecycle SLURM reports, holding its answer; id and note stay; every other record is untouched |
| Outcome.TickReports | src/runner/flow.rs:345-403 | a finished tick reports on exactly the jobs it saw Queued or Running, with NoChange, the skip, or the transition carrying SLURM's answer |
| Tick.SettledUnique | src/runner/flow.rs:344-401 | that equation has one solution on an acyclic flow |
| Tick.OrderIndependent | src/runner/flow.rs:344-401 | records and decisions are the same for every topological order |
| Tick.ReportIsDecisions | src/runner/flow.rs:345-403 | the reported decisions, each taken against the cache of its moment, are those of the final records |
| Tick.EnoughAnswers | src/runner/flow.rs:331-342 | only the answers for non-terminal records matter to a pass |
| Tick.RepeatedTick | src/runner/flow.rs:344-401 | on fixed answers a second tick moves a lifecycle exactly when a Running job was reported waiting and has a bad parent; a third never does anything |
| Tick.InterruptedTick | src/runner/flow.rs:386-400 | a tick cut off after n jobs and rerun ends like an uninterrupted one exactly when none of those n jobs did that |
| Tick.SkipNamesFirstBadEdge | src/runner/transition.rs:36-44 | SkipDueToParent names the first recorded parent edge that is Failed or Skipped after the tick |
| Tick.SkipsPropagate | src/runner/flow.rs:346-400 | below a bad job, everything reached through Queued jobs ends Skipped in the same tick |
| Tick.SkippedExactlyBelowFailures | src/runner/flow.rs:346-400 | the newly skipped jobs are exactly those with such a chain from a job left Failed or found Skipped |
| History.TickStep | src/runner/flow.rs:345-403 | a tick, complete or cut off, keeps ids, notes and terminal records, and justifies every change |
| History.RequeueRecords | src/runner/flow.rs:295-304 | a submit, complete or cut off, queues exactly a prefix of the order under the ids issued, without status or note, and touches nothing else |
| History.RunIsClosed | src/runner/flow.rs:229-304 | after any run with any failures, recorded jobs have recorded parents |
| History.TicksNeverUndo | src/runner/flow.rs:345-403 | over any ticks, ids and notes never change and terminal records are final |
| History.RunExplains | src/runner/flow.rs:345-403 | every recorded id comes from the job's last submit, Success, Failed or Running was reported for that id since, and the recorded status is the answer then given |
| History.IdsLeakAtMostOncePerSubmit | src/runner/flow.rs:291-304 | issued ids exceed written records by at most one per submit |
| History.SubmitIsSafeExactlyWithoutSkipped | src/runner/flow.rs:229-304 | wherever a submit may be cut off, each Skipped job keeps a bad parent, exactly when no record was Skipped before it |
| History.OrderlyRunIsGrounded | src/runner/flow.rs:352-400 | after every run whose submits complete or start without a Skipped record, each Skipped job has a bad parent |
| History.SkippedBelowFailed | src/runner/flow.rs:352-400 | in those states a Skipped job hangs below a Failed one through Skipped jobs only |
| Slurm.NoEdgeDropped | src/slurm/dependency.rs:16-27 | when every parent has an id there is one dependency per edge, in order, with its kind |
| Slurm.MockExecutor.Submit | src/slurm/executor.rs:88-103 | logs every call, hands out ids in order, fails when they run out |
| Slurm.Querier.Query | src/slurm/querier.rs:56-66 | answers exactly the asked ids that have a response |
| Runner.QueriedIsEnough | src/runner/flow.rs:332-342 | asking only for non-terminal ids gives every record the answer it would get from all of SLURM |
| Runner.AsksForOpenIds | src/runner/flow.rs:331-336 | the ids asked about are exactly those of the Queued and Running records |
| Runner.ScriptsRunAs | src/runner/flow.rs:229-256 | each script a submit has written runs as its own job: the flow's and job's variables, one per axis and per plan key, no other name, then the job's own body; every other file is untouched |
| Runner.DependenciesAreFresh | src/runner/flow.rs:286-289 | every dependency is on an id this same submit obtained for that parent; a preseeded id never reaches a command |
| Runner.FlowRunner.Collect | src/runner/flow.rs:321-329 | reads exactly the visible files and fails exactly when one of them is unreadable |
| Runner.FlowRunner.ApplyAll | src/runner/flow.rs:344-403 | the loop leaves the disk at a prefix of the pass, the whole pass on success |
| Runner.FlowRunner.Tick | src/runner/flow.rs:318-404 | a tick is one event of the history; it is idle exactly on a cycle, an unreadable file or an unanswered query, each with its error; a tick cut off was stopped by a failed write; its report solves the equation for SLURM's full answers |
| Runner.FlowRunner.Preseed | src/runner/flow.rs:184-199 | collects exactly the ids of the visible, readable files of jobs and edge names |
| Runner.FlowRunner.Preflight | src/runner/flow.rs:210-227 | resolves every config, or names the first job of the order with a missing log directory and its first one |
| Runner.FlowRunner.RenderJob | src/runner/flow.rs:230-256 | the exact error for a missing plan entry or unparsable id; otherwise the rendered script is in place |
| Runner.FlowRunner.SubmitJob | src/runner/flow.rs:286-304 | one call with fresh dependencies, unless the library rejects the list built for this very job; an id exactly when the executor had one; the record exactly on success |
| Runner.FlowRunner.SubmitLoop | src/runner/flow.rs:229-307 | wherever it stops, a prefix is queued under the ids issued, scripts run ahead of calls by at most one, and how far scripts, calls, ids and records got says which job stopped it and why; the config cache never misses |
| Runner.FlowRunner.Submit | src/runner/flow.rs:148-308 | a cycle changes nothing; a missing log directory stops a real submit before any script, call or record and names the first one; a dry run only renders and returns the recorded ids; success returns exactly the flow's jobs with this submit's ids; every other failure names the job it stopped at and its cause there |
| Listing.TopoOrKey | src/listing/mod.rs:103-106 | topological order, or key order on a cycle |
| Listing.ListingOrder | src/listing/mod.rs:101-106 | a flow with well-formed edges and no cycle is listed in the order `topological_order` fixes, any other one in key order |
| Listing.ListsEveryJobOnce | src/listing/mod.rs:101-106 | every job is listed exactly once, cycle or not |
| Listing.StatusMeaning | src/listing/mod.rs:134-166 | what each rolled-up status says about the set of job displays |
| Listing.DoneMeansAllSucceeded | src/listing/collect.rs:178-192 | a row is DONE exactly when done = total > 0, exactly when all jobs succeeded and there is one |
| Listing.JobRows | src/listing/collect.rs:106-137 | the limited rows are a prefix of the unlimited ones |
| Listing.MatchedFlows | src/listing/collect.rs:142-167 | the limited flows are a prefix of the unlimited ones |
| Listing.FlowRows | src/listing/collect.rs:170-194 | one row per matched flow, in order |
| Listing.LimitTakesPrefix | src/listing/collect.rs:129-133 | a limit n >= 1 keeps the first min(n, total) items; zero acts as one; no limit keeps all |
| Rows.FlowsInTurn | src/listing/collect.rs:111-160 | rows and matched flows stand in the order of the input flows |
| Rows.RowFields | src/listing/collect.rs:119-128 | a row holds its flow, an accepted job of it, the status and id its file shows, its program and its creation date |
| Rows.OneRowEach | src/listing/collect.rs:112-128 | every accepted job has exactly one row |
| Rows.RowsStandInOrder | src/listing/collect.rs:99-113 | within a flow rows follow the topological order, a parent never below its child, or key order without one |
| Rows.MatchedExactly | src/listing/collect.rs:139-158 | a flow is matched exactly when a job is accepted, or it has none and the filter is the default |
| Rows.FlowRowFields | src/listing/collect.rs:178-192 | a flow row counts the jobs and the succeeded ones, and its status is the roll-up of what the jobs show |
| Listing.RowsCoverAccepted | src/listing/collect.rs:112-135 | a flow's rows are exactly the rows of its accepted jobs |
| Listing.MatchedMeansRows | src/listing/collect.rs:139-157 | a flow with jobs is matched exactly when it contributes a job row |
| Listing.SkippedMakesFlowFailed | src/listing/mod.rs:137-166 | in every state an orderly run reaches, PARTIAL never appears, whichever files are unreadable, and a Skipped job makes the flow FAILED if the Failed records can be read |
| Partial.PartialIsListed | src/listing/mod.rs:154-162 | PARTIAL is listed exactly when every job is recorded as Success or Skipped and one is Skipped |
| Partial.PartialExactlyFromStaleTail | src/runner/flow.rs:229-304 | a submit cut off after w records can end in PARTIAL exactly when the jobs it did not reach are all recorded, none Failed, one Skipped |
| Partial.PartialExactlyIfEndsStale | src/runner/flow.rs:229-304 | the same before the submit, over every point at which it may be cut off |
| JobIdText.ParseJobId | src/jobid.rs:67-110 | the loop computes the parse by leftmost splitting, first error included |
| JobIdText.BuildJobId | src/jobid.rs:45-58 | the loop builds step and axes in order |
| JobIdText.DecimalReadsBack | src/jobid.rs:55-104 | a printed index below the machine limit reads back |
| JobIdLanguage.ParsedExactly | src/jobid.rs:67-110 | a text parses to a step and axes exactly when the names are valid and separable and it spells them in order, indices with leading zeros or a plus sign at will |
| JobIdLanguage.ErrorIsFirst | src/jobid.rs:67-104 | a refused text gets the error of its step, or of its first piece that is no axis, with the reason |
| JobIdLanguage.StepIdExactly | src/jobid.rs:24-32 | a step id is a non-empty text of letters, digits, '_' and '-' that is not reserved; otherwise which error it gets |
| JobIdLanguage.BuiltFromFront | src/jobid.rs:45-58 | building writes "__", name, "=" and index for each axis, from the first on |
| JobIdLanguage.DigitsWeigh | src/jobid.rs:55-100 | indices are read with the leading digit weighing most |
| JobIdText.RoundTrip | src/jobid.rs:24-110 | for valid names, parse(build(x)) = x exactly when no name contains "__" and the step does not end in "_" before an axis |
| JobIdText.BuildInjective | src/jobid.rs:45-58 | on such names, building is injective |
| JobIdText.ParseIsStable | src/jobid.rs:67-110 | rebuilding and reparsing any accepted id gives the same parts |
| JobIdText.AcceptedIdIsPathSafe | src/jobid.rs:67-110 | an accepted id holds no path separator and no dot |
| JobIdText.ValidatorIsStricter | src/jobid.rs:35-42 | the validator accepts exactly the parseable ids without a plus sign |
| JobIdText.BuiltIsValid | src/jobid.rs:35-58 | ids built from valid separable names pass the validator |
| Render.QuotedReadsBack | src/render/mod.rs:23-27 | a quoted value reads as one shell word equal to it |
| Render.RenderBatchBash | src/render/mod.rs:38-78 | the text starts with the shebang; a shell reads exactly the job's variables from its header and is left with the job's own body, ended by a newline |
| Render.ScriptReadsBack | src/render/mod.rs:38-78 | a shell reads the header exactly, leaving the body, and builds the environment of its exports |
| Render.AxisVariable | src/render/mod.rs:54-61 | an axis variable holds the index of the last axis that sanitizes to it |
| Render.ParamVariable | src/render/mod.rs:63-71 | a parameter variable holds the value of the last key, in key order, that sanitizes to it |
| Render.ContextVariables | src/render/mod.rs:49-53 | the job's own variables are never overridden |
| Render.HeaderNames | src/render/mod.rs:38-78 | the header sets its own two variables, one per axis name and one per parameter key, and no other |
| Render.IntegerReadsBack | src/render/mod.rs:84 | an integer value reads back from its text, sign included |
| Render.PlainTexts | src/render/mod.rs:83-86 | a string value is itself, a boolean its name |
| Render.ArrayTexts | src/render/mod.rs:87-90 | an array is the texts of its items in order, one space between two |
| Render.SanitizedText | src/render/mod.rs:9-20 | character by character: small letters become capitals, capitals, digits and '_' stay, anything else becomes '_' |
| AtomicWrite.TargetIsAtomic | src/persistence/mod.rs:80-130 | at every moment of any interleaving with crashes, the target is the old content or the complete body of the writer that renamed last |
| AtomicWrite.NothingLeftBehind | src/persistence/mod.rs:119-129 | without crashes and failed removals no temporary file remains, and the last successful body wins |
| AtomicWrite.FileSystem.AtomicWrite | src/persistence/mod.rs:87-130 | one call is a run of the writer machine; the target changes only on success, and then completely; a failure leaves the directory as it was, unless removing the temporary file failed too |
| Counterexamples.TickIsNotIdempotent | src/runner/transition.rs:56-63 | a concrete flow on which a second tick changes a record |
| Counterexamples.DuplicateParentReportsCycle | src/flow/topology.rs:15-36 | an acyclic flow with a repeated parent is reported as a cycle |
| Counterexamples.EdgeKindIsIgnored | src/runner/flow.rs:358-366 | changing an edge's kind changes no decision |
| Counterexamples.CleanupJobIsSkipped | src/runner/flow.rs:358-366 | a job on an `afternotok` edge is Skipped by the failure it waits for, while SLURM runs it |
| Counterexamples.CleanupJobStaysSkipped | src/runner/transition.rs:33-35 | and no later tick corrects that |
| EdgeKinds.DecidedByAfterOk | src/runner/flow.rs:358-366 | a job is decided as by its `afterok` edges alone exactly when it is not Queued or its first bad edge, if any, is one |
| EdgeKinds.TickFollowsAfterOk | src/runner/flow.rs:344-401 | a whole tick reports as the flow of `afterok` edges alone would exactly when no Queued job's first bad edge is of another kind |
| EdgeKinds.FlowFollowsAfterOk | src/runner/flow.rs:344-401 | every tick of a flow does so exactly when all its edges are `afterok` |
| Counterexamples.CutOffResubmitReachesPartial | src/listing/mod.rs:154-162 | a concrete run with a cut-off resubmit that ends in PARTIAL |
| Counterexamples.TrailingUnderscoreIsLost | src/jobid.rs:45-110 | a concrete valid pair that does not come back |
| Counterexamples.DryRunMapIsEmpty | src/runner/flow.rs:145-147 | what a dry run returns is empty exactly when no visible, readable record of the flow's jobs carries an id |
| Counterexamples.DryRunReturnsOldId | src/runner/flow.rs:145-147 | a concrete dry run that returns a recorded id |

## Left out

- TOML reading and writing, UUIDs and clocks: foreign code; `updated_at` is not modelled, and the
  text of floats, datetimes and tables is taken as given.
- `SbatchManager`, `SlurmManager` and `SlurmDependency`: foreign code; dependencies stay lists of
  kinds and ids, and whether the library accepts a list is the function `parses`.
- Overlapping submits and ticks on one flow: there is no lock, and the claims are about one call
  at a time; within a call the async plumbing is sequential.
- `merge_with_defaults`, `missing_log_dirs`, `PathResolver`: a merge function, a lookup of missing
  directories, and one file per job id.
- `matches` in `src/search.rs`: the predicate `accepts`.
- `collect`, `walk_flows`, table, JSON and tree formatting, `parse_token` and `parse_status_set`:
  plumbing and interface code.
- The Python bindings, the command line and the doctor: interface code.
- `DryRunExecutor` and its hash: a one-step fact about a constant range.
- File modes, directory fsync, and power loss between a write and its sync: abstracted away;
  `atomic_write_batch_bash` follows the same steps as `AtomicWrite.FileSystem.AtomicWrite`.
- The fields of an sbatch command one by one: a command carries its job and the whole merged config.
- `usize` is the 64-bit one.

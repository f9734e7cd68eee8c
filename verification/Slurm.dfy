/** The runner's collaborators: sbatch dependencies, the executor, the querier, the disk. */
module Slurm {
  import opened Wrappers
  import opened Keys
  import opened Flow
  import opened Transitions
  import opened Tick

  type Dependencies = seq<(DependencyKind, nat)>

  datatype SbatchCmd = SbatchCmd(job: JobId, config: SlurmConfig, dependency: Option<Dependencies>)

  /** The pairs for the parents that have an id, in edge order. */
  function DependencyPairs(parents: seq<Edge>, submitted: map<JobId, nat>): Dependencies {
    if parents == [] then []
    else
      (if parents[0].from in submitted then [(parents[0].kind, submitted[parents[0].from])] else [])
      + DependencyPairs(parents[1..], submitted)
  }

  function BuildDependency(parents: seq<Edge>, submitted: map<JobId, nat>): Option<Dependencies> {
    var pairs := DependencyPairs(parents, submitted);
    if pairs == [] then None else Some(pairs)
  }

  /** When every parent has an id, no edge is dropped. */
  lemma {:induction false} NoEdgeDropped(parents: seq<Edge>, submitted: map<JobId, nat>)
    requires forall i | 0 <= i < |parents| :: parents[i].from in submitted
    ensures var pairs := DependencyPairs(parents, submitted);
            |pairs| == |parents|
            && forall i | 0 <= i < |pairs| :: pairs[i] == (parents[i].kind, submitted[parents[i].from])
  {
    if parents != [] {
      NoEdgeDropped(parents[1..], submitted);
    }
  }

  /** Hands out the recorded ids in order, fails when they run out, and logs every call. Within
      one submit this is any executor: a submit ends at the first failed call. */
  class MockExecutor {
    var recordings: seq<nat>
    var callsLog: seq<SbatchCmd>

    constructor (ids: seq<nat>)
      ensures recordings == ids && callsLog == []
    {
      recordings, callsLog := ids, [];
    }

    method Submit(cmd: SbatchCmd) returns (id: Option<nat>)
      modifies this
      ensures callsLog == old(callsLog) + [cmd]
      ensures old(recordings) == [] ==> id == None && recordings == []
      ensures old(recordings) != [] ==>
                id == Some(old(recordings)[0]) && recordings == old(recordings)[1..]
    {
      callsLog := callsLog + [cmd];
      if recordings == [] {
        return None;
      }
      id, recordings := Some(recordings[0]), recordings[1..];
    }
  }

  /** `responses` is what SLURM would answer now, if `reachable`; both may change between calls. */
  class Querier {
    var responses: Answers
    var reachable: bool

    constructor (answers: Answers)
      ensures responses == answers && reachable
    {
      responses, reachable := answers, true;
    }

    /** The answers for the ids asked about, or a failure. */
    method Query(ids: seq<nat>) returns (r: Option<Answers>)
      ensures r.Some? <==> reachable
      ensures r.Some? ==> forall id :: id in r.value <==> id in ids && id in responses
      ensures r.Some? ==> forall id | id in r.value :: r.value[id] == responses[id]
    {
      if !reachable {
        return None;
      }
      var out: Answers := map[];
      for i := 0 to |ids|
        invariant forall id :: id in out <==> id in ids[..i] && id in responses
        invariant forall id | id in out :: out[id] == responses[id]
      {
        if ids[i] in responses {
          out := out[ids[i] := responses[ids[i]]];
        }
        assert ids[..i + 1] == ids[..i] + [ids[i]];
      }
      assert ids[..|ids|] == ids;
      return Some(out);
    }
  }

  /** One flow's files. Every write either replaces the file or leaves it as it was, and fails
      only if the disk is not `reliable`. The existence check misses the status files of
      `hidden`, reading fails on those of `unreadable`; the outside world may change all three
      between calls. `missingLogDirs` looks up which configured log directories do not exist. */
  class Disk {
    var snapshot: Option<Jobs>
    var batch: map<JobId, string>
    var status: Statuses
    var hidden: set<JobId>
    var unreadable: set<JobId>
    var reliable: bool
    const missingLogDirs: SlurmConfig -> seq<(string, string)>

    constructor (missing: SlurmConfig -> seq<(string, string)>)
      ensures snapshot == None && batch == map[] && status == map[] && missingLogDirs == missing
      ensures hidden == {} && unreadable == {} && reliable
    {
      snapshot, batch, status, missingLogDirs := None, map[], map[], missing;
      hidden, unreadable, reliable := {}, {}, true;
    }

    /** The status files that pass the existence check. */
    function Visible(): set<JobId> reads this {
      status.Keys - hidden
    }

    method WriteSnapshot(jobs: Jobs) returns (ok: bool)
      modifies this`snapshot
      ensures snapshot == if ok then Some(jobs) else old(snapshot)
      ensures reliable ==> ok
    {
      ok := *;
      ok := ok || reliable;
      if ok { snapshot := Some(jobs); }
    }

    method WriteBatch(j: JobId, text: string) returns (ok: bool)
      modifies this`batch
      ensures batch == if ok then old(batch)[j := text] else old(batch)
      ensures reliable ==> ok
    {
      ok := *;
      ok := ok || reliable;
      if ok { batch := batch[j := text]; }
    }

    method WriteStatus(j: JobId, run: JobRun) returns (ok: bool)
      modifies this`status
      ensures status == if ok then old(status)[j := run] else old(status)
      ensures reliable ==> ok
    {
      ok := *;
      ok := ok || reliable;
      if ok { status := status[j := run]; }
    }

    method StatusExists(j: JobId) returns (found: bool)
      ensures found <==> j in Visible()
    {
      found := j in status && j !in hidden;
    }

    method ReadStatus(j: JobId) returns (r: Option<JobRun>)
      requires j in status
      ensures r == if j in unreadable then None else Some(status[j])
    {
      r := if j in unreadable then None else Some(status[j]);
    }
  }
}

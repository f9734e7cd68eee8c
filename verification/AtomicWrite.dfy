/** `atomic_write`: one writer step by step, and any number of writers of one path interleaved,
    each failing or crashing anywhere. */
module AtomicWrite {
  import opened Wrappers
  import opened Keys

  type Bytes = seq<bv8>
  type Files = map<string, Bytes>

  datatype Writer = Writer(tmp: string, body: Bytes)

  /** Writers of one path, each with its own temporary name. */
  datatype Setup = Setup(path: string, writers: seq<Writer>)

  /** Where a writer stands. `Leaked`: it failed and could not remove its temporary file. */
  datatype Pc = Start | Writing(n: nat) | Synced | Cleanup | Succeeded | FailedClean | Leaked | Crashed

  datatype Action =
    | DirFails | Create | CreateFails
    | WriteTo(k: nat) | Sync | WriteOrSyncFails
    | Rename | RenameFails
    | Remove | RemoveFails
    | Crash

  /** `renamed` lists the writers whose rename took effect, oldest first. */
  datatype System = System(files: Files, pcs: seq<Pc>, renamed: seq<nat>)

  type Move = (nat, Action)

  predicate Running(pc: Pc) {
    pc.Start? || pc.Writing? || pc.Synced? || pc.Cleanup?
  }

  predicate Enabled(c: Setup, s: System, m: Move) {
    |s.pcs| == |c.writers| && m.0 < |s.pcs|
    && var pc, w := s.pcs[m.0], c.writers[m.0];
       match m.1
       case DirFails | Create | CreateFails => pc.Start?
       case WriteTo(k) => pc.Writing? && pc.n <= k <= |w.body|
       case Sync => pc.Writing? && pc.n == |w.body|
       case WriteOrSyncFails => pc.Writing?
       case Rename => pc.Synced? && w.tmp in s.files
       case RenameFails => pc.Synced?
       case Remove => pc.Cleanup?
       case RemoveFails => pc.Cleanup? && w.tmp in s.files
       case Crash => Running(pc)
  }

  function NextPc(a: Action): Pc {
    match a
    case DirFails => FailedClean
    case Create => Writing(0)
    case WriteTo(k) => Writing(k)
    case Sync => Synced
    case CreateFails | WriteOrSyncFails | RenameFails => Cleanup
    case Rename => Succeeded
    case Remove => FailedClean
    case RemoveFails => Leaked
    case Crash => Crashed
  }

  function NextFiles(c: Setup, s: System, m: Move): Files
    requires Enabled(c, s, m)
  {
    var w := c.writers[m.0];
    match m.1
    case Create => s.files[w.tmp := []]
    case WriteTo(k) => s.files[w.tmp := w.body[..k]]
    case Rename => (s.files - {w.tmp})[c.path := s.files[w.tmp]]
    case Remove => s.files - {w.tmp}
    case _ => s.files
  }

  function Next(c: Setup, s: System, m: Move): System
    requires Enabled(c, s, m)
  {
    System(NextFiles(c, s, m), s.pcs[m.0 := NextPc(m.1)],
           if m.1.Rename? then s.renamed + [m.0] else s.renamed)
  }

  function Initial(c: Setup, files: Files): System {
    System(files, seq(|c.writers|, i => Start), [])
  }

  /** The moves, one after the other, or `None` if one is not enabled. */
  function Play(c: Setup, files: Files, moves: seq<Move>): Option<System> {
    if moves == [] then Some(Initial(c, files))
    else
      var n := |moves| - 1;
      match Play(c, files, moves[..n])
      case None => None
      case Some(s) => if Enabled(c, s, moves[n]) then Some(Next(c, s, moves[n])) else None
  }

  predicate Legal(c: Setup, files: Files, moves: seq<Move>) {
    Play(c, files, moves).Some?
  }

  function After(c: Setup, files: Files, moves: seq<Move>): System
    requires Legal(c, files, moves)
  {
    Play(c, files, moves).value
  }

  // ---- Invariant ----

  /** Temporary names are pairwise distinct, differ from the target, and are unused at first. */
  predicate FreshNames(c: Setup, files: Files) {
    (forall i | 0 <= i < |c.writers| :: c.writers[i].tmp != c.path && c.writers[i].tmp !in files)
    && forall i, j | 0 <= i < j < |c.writers| :: c.writers[i].tmp != c.writers[j].tmp
  }

  predicate TmpMatches(pc: Pc, w: Writer, files: Files) {
    match pc
    case Start | Succeeded | FailedClean => w.tmp !in files
    case Writing(n) => n <= |w.body| && w.tmp in files && files[w.tmp] == w.body[..n]
    case Synced => w.tmp in files && files[w.tmp] == w.body
    case Cleanup | Leaked | Crashed => true
  }

  /** The target as the completed renames define it. */
  predicate TargetIs(c: Setup, init: Files, s: System) {
    if s.renamed == [] then
      (c.path in s.files <==> c.path in init) && (c.path in init ==> s.files[c.path] == init[c.path])
    else
      var last := s.renamed[|s.renamed| - 1];
      last < |c.writers| && c.path in s.files && s.files[c.path] == c.writers[last].body
  }

  predicate IsTmp(c: Setup, f: string) {
    exists i | 0 <= i < |c.writers| :: c.writers[i].tmp == f
  }

  /** Files that are neither the target nor a temporary name are never touched. */
  ghost predicate OthersKept(c: Setup, init: Files, s: System) {
    forall f | f != c.path && !IsTmp(c, f) ::
      (f in s.files <==> f in init) && (f in init ==> s.files[f] == init[f])
  }

  ghost predicate Inv(c: Setup, init: Files, s: System) {
    |s.pcs| == |c.writers|
    && (forall i | 0 <= i < |s.pcs| :: TmpMatches(s.pcs[i], c.writers[i], s.files))
    && TargetIs(c, init, s)
    && OthersKept(c, init, s)
    && (forall i :: i in s.renamed <==> 0 <= i < |s.pcs| && s.pcs[i].Succeeded?)
    && NoDup(s.renamed)
  }

  lemma MoveIsLocal(c: Setup, s: System, m: Move, f: string)
    requires Enabled(c, s, m) && f != c.path && f != c.writers[m.0].tmp
    ensures f in NextFiles(c, s, m) <==> f in s.files
    ensures f in s.files ==> NextFiles(c, s, m)[f] == s.files[f]
  {
  }

  lemma NextKeepsTmps(c: Setup, init: Files, s: System, m: Move)
    requires FreshNames(c, init) && Inv(c, init, s) && Enabled(c, s, m)
    ensures var s' := Next(c, s, m);
            forall j | 0 <= j < |s'.pcs| :: TmpMatches(s'.pcs[j], c.writers[j], s'.files)
  {
    var i, s' := m.0, Next(c, s, m);
    forall j | 0 <= j < |s'.pcs| ensures TmpMatches(s'.pcs[j], c.writers[j], s'.files) {
      assert TmpMatches(s.pcs[j], c.writers[j], s.files);
      if j != i {
        assert c.writers[j].tmp != c.writers[i].tmp;
        MoveIsLocal(c, s, m, c.writers[j].tmp);
      }
    }
  }

  lemma NextKeepsTarget(c: Setup, init: Files, s: System, m: Move)
    requires FreshNames(c, init) && Inv(c, init, s) && Enabled(c, s, m)
    ensures TargetIs(c, init, Next(c, s, m))
  {
    assert TmpMatches(s.pcs[m.0], c.writers[m.0], s.files);
  }

  lemma NextKeepsOthers(c: Setup, init: Files, s: System, m: Move)
    requires Inv(c, init, s) && Enabled(c, s, m)
    ensures OthersKept(c, init, Next(c, s, m))
  {
    forall f | f != c.path && !IsTmp(c, f) ensures f != c.writers[m.0].tmp {
    }
  }

  lemma NextKeepsRenamed(c: Setup, init: Files, s: System, m: Move)
    requires Inv(c, init, s) && Enabled(c, s, m)
    ensures var s' := Next(c, s, m);
            && (forall i :: i in s'.renamed <==> 0 <= i < |s'.pcs| && s'.pcs[i].Succeeded?)
            && NoDup(s'.renamed)
  {
  }

  lemma NextKeepsInv(c: Setup, init: Files, s: System, m: Move)
    requires FreshNames(c, init) && Inv(c, init, s) && Enabled(c, s, m)
    ensures Inv(c, init, Next(c, s, m))
  {
    NextKeepsTmps(c, init, s, m);
    NextKeepsTarget(c, init, s, m);
    NextKeepsOthers(c, init, s, m);
    NextKeepsRenamed(c, init, s, m);
  }

  lemma {:induction false} RunKeepsInv(c: Setup, files: Files, moves: seq<Move>)
    requires FreshNames(c, files) && Legal(c, files, moves)
    ensures Inv(c, files, After(c, files, moves))
  {
    if moves != [] {
      var n := |moves| - 1;
      RunKeepsInv(c, files, moves[..n]);
      NextKeepsInv(c, files, After(c, files, moves[..n]), moves[n]);
    }
  }

  // ---- Results ----

  /** At every moment of every interleaving the target is its old content, or the complete body
      of the writer that renamed last; no reader sees a partial file. */
  lemma TargetIsAtomic(c: Setup, files: Files, moves: seq<Move>)
    requires FreshNames(c, files) && Legal(c, files, moves)
    ensures var s := After(c, files, moves);
            if s.renamed == [] then
              (c.path in s.files <==> c.path in files) && (c.path in files ==> s.files[c.path] == files[c.path])
            else
              exists i | 0 <= i < |c.writers| ::
                s.renamed[|s.renamed| - 1] == i && s.pcs[i].Succeeded?
                && c.path in s.files && s.files[c.path] == c.writers[i].body
  {
    RunKeepsInv(c, files, moves);
    var s := After(c, files, moves);
    if s.renamed != [] {
      assert s.renamed[|s.renamed| - 1] in s.renamed;
    }
  }

  lemma FinishedTmpsAreGone(c: Setup, files: Files, s: System, f: string)
    requires FreshNames(c, files) && Inv(c, files, s) && f != c.path
    requires forall i | 0 <= i < |s.pcs| :: s.pcs[i].Succeeded? || s.pcs[i].FailedClean?
    ensures (f in s.files <==> f in files) && (f in files ==> s.files[f] == files[f])
  {
    if IsTmp(c, f) {
      var i :| 0 <= i < |c.writers| && c.writers[i].tmp == f;
      assert TmpMatches(s.pcs[i], c.writers[i], s.files);
      assert f !in s.files && f !in files;
    }
  }

  /** When every writer has returned and none crashed or leaked, the directory is what it was,
      except that the target holds the last successful body; without a success it is
      exactly what it was. */
  lemma NothingLeftBehind(c: Setup, files: Files, moves: seq<Move>)
    requires FreshNames(c, files) && Legal(c, files, moves)
    requires var s := After(c, files, moves);
             forall i | 0 <= i < |s.pcs| :: s.pcs[i].Succeeded? || s.pcs[i].FailedClean?
    ensures var s := After(c, files, moves);
            if s.renamed == [] then s.files == files
            else s.renamed[|s.renamed| - 1] < |c.writers|
                 && s.files == files[c.path := c.writers[s.renamed[|s.renamed| - 1]].body]
    ensures var s := After(c, files, moves);
            forall i :: i in s.renamed <==> 0 <= i < |c.writers| && s.pcs[i].Succeeded?
  {
    RunKeepsInv(c, files, moves);
    var s := After(c, files, moves);
    forall f | f != c.path
      ensures (f in s.files <==> f in files) && (f in files ==> s.files[f] == files[f])
    {
      FinishedTmpsAreGone(c, files, s, f);
    }
  }

  // ---- One writer ----

  function Alone(path: string, tmp: string, body: Bytes): Setup {
    Setup(path, [Writer(tmp, body)])
  }

  /** The moves lead to `files` with the single writer at `pc`. */
  ghost predicate Reaches(c: Setup, init: Files, moves: seq<Move>, files: Files, pc: Pc) {
    Legal(c, init, moves) && After(c, init, moves) == System(files, [pc], if pc.Succeeded? then [0] else [])
  }

  /** One more system call. */
  ghost method Record(c: Setup, init: Files, moves: seq<Move>, files: Files, pc: Pc, a: Action)
    returns (more: seq<Move>)
    requires Reaches(c, init, moves, files, pc) && !pc.Succeeded?
    requires Enabled(c, System(files, [pc], []), (0, a))
    ensures Reaches(c, init, more, NextFiles(c, System(files, [pc], []), (0, a)), NextPc(a))
  {
    more := moves + [(0, a)];
    assert more[..|moves|] == moves;
  }

  class FileSystem {
    var files: Files

    constructor (init: Files)
      ensures files == init
    {
      files := init;
    }

    /** `write_all`: any number of partial writes, until done or failed. */
    method WriteAll(path: string, tmp: string, body: Bytes, ghost init: Files, ghost before: seq<Move>)
      returns (n: nat, ghost moves: seq<Move>)
      requires Reaches(Alone(path, tmp, body), init, before, files, Writing(0))
      requires files == init[tmp := []]
      modifies this
      ensures n <= |body| && files == init[tmp := body[..n]]
      ensures Reaches(Alone(path, tmp, body), init, moves, files, Writing(n))
    {
      n, moves := 0, before;
      var writable: bool := true;
      while n < |body| && writable
        invariant n <= |body| && files == init[tmp := body[..n]]
        invariant Reaches(Alone(path, tmp, body), init, moves, files, Writing(n))
        decreases |body| - n, writable
      {
        writable := *;
        if writable {
          var k :| n < k <= |body|;
          moves := Record(Alone(path, tmp, body), init, moves, files, Writing(n), WriteTo(k));
          n := k;
          files := files[tmp := body[..n]];
        }
      }
    }

    /** Best-effort removal after a failure. */
    method RemoveTmp(path: string, tmp: string, body: Bytes, ghost init: Files, ghost before: seq<Move>)
      returns (ghost moves: seq<Move>, ghost pc: Pc)
      requires tmp !in init && files - {tmp} == init
      requires Reaches(Alone(path, tmp, body), init, before, files, Cleanup)
      modifies this
      ensures files - {tmp} == init && (pc.FailedClean? || pc.Leaked?)
      ensures Reaches(Alone(path, tmp, body), init, moves, files, pc)
      ensures if tmp in files then pc.Leaked? else pc.FailedClean? && files == init
    {
      var removed: bool := *;
      if removed || tmp !in files {
        pc := FailedClean;
        moves := Record(Alone(path, tmp, body), init, before, files, Cleanup, Remove);
        files := files - {tmp};
      } else {
        pc := Leaked;
        moves := Record(Alone(path, tmp, body), init, before, files, Cleanup, RemoveFails);
      }
    }

    /** One call. Each system call may fail; `moves` is the run of the machine it performs.
        The target changes only on success; a failure leaves at most the temporary file. */
    method AtomicWrite(path: string, tmp: string, body: Bytes)
      returns (ok: bool, ghost moves: seq<Move>, ghost pc: Pc)
      requires tmp != path && tmp !in files
      modifies this
      ensures Reaches(Alone(path, tmp, body), old(files), moves, files, pc)
      ensures ok <==> pc.Succeeded?
      ensures ok ==> files == old(files)[path := body]
      ensures !ok ==> files - {tmp} == old(files)
      ensures !ok ==> if tmp in files then pc.Leaked? else pc.FailedClean? && files == old(files)
    {
      ghost var c, init := Alone(path, tmp, body), files;
      moves, pc := [], Start;
      var dirReady: bool := *;
      if !dirReady {
        pc := FailedClean;
        moves := Record(c, init, moves, files, Start, DirFails);
        return false, moves, pc;
      }
      var created: bool := *;
      if !created {
        moves := Record(c, init, moves, files, Start, CreateFails);
        moves, pc := RemoveTmp(path, tmp, body, init, moves);
        return false, moves, pc;
      }
      moves := Record(c, init, moves, files, Start, Create);
      files := files[tmp := []];
      var n;
      n, moves := WriteAll(path, tmp, body, init, moves);
      var synced: bool := *;
      if n < |body| || !synced {
        moves := Record(c, init, moves, files, Writing(n), WriteOrSyncFails);
        moves, pc := RemoveTmp(path, tmp, body, init, moves);
        return false, moves, pc;
      }
      moves := Record(c, init, moves, files, Writing(n), Sync);
      var renamed: bool := *;
      if !renamed {
        moves := Record(c, init, moves, files, Synced, RenameFails);
        moves, pc := RemoveTmp(path, tmp, body, init, moves);
        return false, moves, pc;
      }
      pc := Succeeded;
      moves := Record(c, init, moves, files, Synced, Rename);
      WholePrefix(body);
      assert files - {tmp} == init && files[tmp] == body;
      files := (files - {tmp})[path := files[tmp]];
      return true, moves, pc;
    }
  }
}

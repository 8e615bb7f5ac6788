/** src/Stage.ts: a named group of executables run together, each skipped when its checkpoint
    exists and otherwise run on the task executor and checkpointed.

    The operations of a stage run one after the other, in the order they were given (the source
    starts them together; see the README). The states of all futures are tracked by a ghost
    snapshot `Env` that the methods keep in step with the heap. */
module Stages {

  import opened Outcomes
  import opened Remote
  import opened Helpers
  import opened Inputs
  import opened Executables
  import opened Checkpointers
  import Json

  type Cell = Deferred<seq<string>>

  /** The state a snapshot records for a future; a future it does not mention is pending. */
  function Lookup(env: Env, c: Cell): Settlement<seq<string>>
  {
    if c in env then env[c] else Pending
  }

  /** Resolving future c with v in the snapshot: only a pending future changes. */
  function ResolveIn(env: Env, c: Cell, v: seq<string>): (r: Env)
    ensures r.Keys == env.Keys + {c}
    ensures Lookup(r, c) == Settle(Lookup(env, c), Resolved(v))
    ensures forall d :: d in env && d != c ==> r[d] == env[d]
  {
    env[c := Settle(Lookup(env, c), Resolved(v))]
  }

  /** The qualified names the constructor gives the executables of stage `prefix`. */
  function QualifiedNames(prefix: string, ops: seq<Executable>): (r: seq<string>)
    ensures |r| == |ops|
    decreases |ops|
  {
    if ops == [] then [] else QualifiedNames(prefix, ops[..|ops| - 1]) + [QualifiedName(prefix, ops[|ops| - 1].name)]
  }

  /** One more executable named and given a future by the constructor. */
  lemma ResolversStep(prefix: string, ops: seq<Executable>, i: nat, cells: seq<Cell>, c: Cell)
    requires i < |ops| && |cells| == i
    ensures Resolvers(QualifiedNames(prefix, ops[..i + 1]), cells + [c])
         == Resolvers(QualifiedNames(prefix, ops[..i]), cells)[QualifiedName(prefix, ops[i].name) := c]
  {
    assert ops[..i + 1][..i] == ops[..i];
    assert (cells + [c])[..i] == cells;
  }

  lemma {:induction false} QualifiedNamesAt(prefix: string, ops: seq<Executable>, i: nat)
    requires i < |ops|
    ensures QualifiedNames(prefix, ops)[i] == QualifiedName(prefix, ops[i].name)
    decreases |ops|
  {
    if i < |ops| - 1 {
      QualifiedNamesAt(prefix, ops[..|ops| - 1], i);
    }
  }

  /** The executables of a stage as values. */
  function Views(ops: seq<Executable>): (r: seq<Job>)
    reads ops
    ensures |r| == |ops|
    decreases |ops|
  {
    if ops == [] then [] else Views(ops[..|ops| - 1]) + [ops[|ops| - 1].View()]
  }

  lemma ViewsAll(ops: seq<Executable>)
    ensures forall i :: 0 <= i < |ops| ==> Views(ops)[i] == ops[i].View()
  {
    forall i | 0 <= i < |ops|
      ensures Views(ops)[i] == ops[i].View()
    {
      ViewsAt(ops, i);
    }
  }

  lemma {:induction false} ViewsAt(ops: seq<Executable>, i: nat)
    requires i < |ops|
    ensures Views(ops)[i] == ops[i].View()
    decreases |ops|
  {
    if i < |ops| - 1 {
      ViewsAt(ops[..|ops| - 1], i);
    }
  }

  /** The resolver table: each name is bound to the future of the last executable that has it. */
  function Resolvers(names: seq<string>, cells: seq<Cell>): (r: map<string, Cell>)
    requires |names| == |cells|
    decreases |names|
  {
    if names == [] then map[]
    else Resolvers(names[..|names| - 1], cells[..|cells| - 1])[names[|names| - 1] := cells[|cells| - 1]]
  }

  /** Every name has a resolver, and every resolver is one of the futures. */
  lemma {:induction false} ResolversCover(names: seq<string>, cells: seq<Cell>)
    requires |names| == |cells|
    ensures forall i :: 0 <= i < |names| ==> names[i] in Resolvers(names, cells)
    ensures forall k :: k in Resolvers(names, cells) ==> exists i :: 0 <= i < |names| && names[i] == k && Resolvers(names, cells)[k] == cells[i]
    decreases |names|
  {
    if names != [] {
      var n := |names| - 1;
      ResolversCover(names[..n], cells[..n]);
      forall i | 0 <= i < n
        ensures names[i] in Resolvers(names, cells)
      {
        assert names[..n][i] == names[i];
      }
      forall k | k in Resolvers(names, cells)
        ensures exists i :: 0 <= i < |names| && names[i] == k && Resolvers(names, cells)[k] == cells[i]
      {
        if k != names[n] {
          var i :| 0 <= i < n && names[..n][i] == k && Resolvers(names[..n], cells[..n])[k] == cells[..n][i];
          assert names[i] == k && cells[i] == cells[..n][i];
        }
      }
    }
  }

  /** A name held by no later executable resolves the future of this one. */
  lemma {:induction false} ResolverOfLast(names: seq<string>, cells: seq<Cell>, i: nat)
    requires |names| == |cells| && i < |names|
    requires forall j :: i < j < |names| ==> names[j] != names[i]
    ensures names[i] in Resolvers(names, cells) && Resolvers(names, cells)[names[i]] == cells[i]
    decreases |names|
  {
    var n := |names| - 1;
    if i < n {
      ResolverOfLast(names[..n], cells[..n], i);
      assert names[..n][i] == names[i] && cells[..n][i] == cells[i];
    }
  }

  /** When a later executable of a stage has the same name, the earlier one's future has no
      resolver at all: nothing the stage does can ever resolve it. */
  lemma ShadowedHasNoResolver(names: seq<string>, cells: seq<Cell>, i: nat, j: nat)
    requires |names| == |cells| && i < j < |names| && names[i] == names[j]
    requires forall a, b :: 0 <= a < b < |cells| ==> cells[a] != cells[b]
    ensures cells[i] !in Resolvers(names, cells).Values
  {
    var last := LastWith(names, names[i], j);
    ResolverOfLast(names, cells, last);
    ResolversCover(names, cells);
    forall k | k in Resolvers(names, cells)
      ensures Resolvers(names, cells)[k] != cells[i]
    {
      var a :| 0 <= a < |names| && names[a] == k && Resolvers(names, cells)[k] == cells[a];
    }
  }

  /** The index of the last name equal to k, given one at or after `from`. */
  lemma {:induction false} LastWith(names: seq<string>, k: string, from: nat) returns (last: nat)
    requires from < |names| && names[from] == k
    ensures from <= last < |names| && names[last] == k
    ensures forall j :: last < j < |names| ==> names[j] != names[last]
    decreases |names| - from
  {
    if exists j :: from < j < |names| && names[j] == k {
      var j :| from < j < |names| && names[j] == k;
      last := LastWith(names, k, j);
    } else {
      last := from;
    }
  }

  /** How a job runs on the task executor: its outcome and the call log afterwards, given the
      futures as they stand and the log before. */
  type Runner = (Job, Env, seq<Call>) -> (Outcome<ExecutableResult>, seq<Call>)

  /** The runner of a task executor whose substrate answers as `respond`: Executable.run. */
  function OnExecutor(respond: Oracle, moduleDir: string): Runner
  {
    (j: Job, env: Env, log: seq<Call>) => RunSpec(j, env, respond, moduleDir, log)
  }

  /** What runOperation does for job j with checkpoints under `baseDir` in `fs`, the futures as in
      `cells`, and the task executor's log at `log`: a job with a checkpoint is replayed from it
      without any remote call; otherwise it runs, its result is checkpointed, and its future is
      resolved with what the checkpointer returned. */
  function OperationSpec(j: Job, resolvers: map<string, Cell>, baseDir: string, run: Runner,
                         cells: Env, fs: FsState, log: seq<Call>): (r: (Outcome<()>, Env, FsState, seq<Call>))
    ensures r.3 == log || r.3 == run(j, cells, log).1
    ensures r.0.Ok? ==>
      j.fullName in resolvers && ExistsSpec(baseDir, r.2, j.fullName) && !Lookup(r.1, resolvers[j.fullName]).Pending?
  {
    var name := j.fullName;
    if ExistsSpec(baseDir, fs, name) then
      match ReadSpec(baseDir, fs, name)
      case Err(e) => (Err(e), cells, fs, log)
      case Ok(v) =>
        if name !in resolvers then (Err(NoResolver(name)), cells, fs, log)
        else (Ok(()), ResolveIn(cells, resolvers[name], v), fs, log)
    else
      var ran := run(j, cells, log);
      if ran.0.Err? then (Err(ran.0.error), cells, fs, ran.1)
      else
        var saved := SaveSpec(baseDir, fs, name, ran.0.value);
        if saved.0.Err? then (Err(saved.0.error), cells, saved.1, ran.1)
        else if name !in resolvers then (Err(NoResolver(name)), cells, saved.1, ran.1)
        else
          SaveThenRead(baseDir, fs, name, ran.0.value);
          (Ok(()), ResolveIn(cells, resolvers[name], saved.0.value), saved.1, ran.1)
  }

  /** A job whose run fails writes no checkpoint and settles no future; only the calls it made remain. */
  lemma FailedRunLeavesNoTrace(j: Job, resolvers: map<string, Cell>, baseDir: string, run: Runner,
                               cells: Env, fs: FsState, log: seq<Call>)
    requires !ExistsSpec(baseDir, fs, j.fullName)
    requires run(j, cells, log).0.Err?
    ensures OperationSpec(j, resolvers, baseDir, run, cells, fs, log)
         == (Err(run(j, cells, log).0.error), cells, fs, run(j, cells, log).1)
  {
  }

  /** At most one remote execution per name: once an operation has succeeded, running it again,
      on any runner, with any futures and any log, makes no call, writes nothing, and resolves the
      future with the very list the first run resolved it with. */
  lemma RerunOperationSameList(j: Job, resolvers: map<string, Cell>, baseDir: string, run: Runner,
                               cells: Env, fs: FsState, log: seq<Call>, run': Runner, cells': Env, log': seq<Call>)
    requires OperationSpec(j, resolvers, baseDir, run, cells, fs, log).0.Ok?
    requires j.fullName in resolvers && Lookup(cells, resolvers[j.fullName]).Pending?
    ensures var first := OperationSpec(j, resolvers, baseDir, run, cells, fs, log);
      var again := OperationSpec(j, resolvers, baseDir, run', cells', first.2, log');
      var c := resolvers[j.fullName];
      again.0.Ok? && again.2 == first.2 && again.3 == log'
      && exists v :: Lookup(first.1, c) == Resolved(v) && again.1 == ResolveIn(cells', c, v)
  {
    var first := OperationSpec(j, resolvers, baseDir, run, cells, fs, log);
    var c := resolvers[j.fullName];
    if ExistsSpec(baseDir, fs, j.fullName) {
      var v := ReadSpec(baseDir, fs, j.fullName).value;
      assert Lookup(first.1, c) == Resolved(v);
    } else {
      var ran := run(j, cells, log);
      var saved := SaveSpec(baseDir, fs, j.fullName, ran.0.value);
      SaveThenRead(baseDir, fs, j.fullName, ran.0.value);
      var v := saved.0.value;
      assert Lookup(first.1, c) == Resolved(v);
      assert ReadSpec(baseDir, first.2, j.fullName) == Ok(v);
    }
  }

  /** A job without a checkpoint that runs and is saved resolves its future with what was saved. */
  lemma OperationSaved(j: Job, resolvers: map<string, Cell>, baseDir: string, run: Runner,
                       cells: Env, fs: FsState, log: seq<Call>, result: ExecutableResult, logAfterRun: seq<Call>,
                       urls: seq<string>, fsAfterSave: FsState)
    requires !ExistsSpec(baseDir, fs, j.fullName)
    requires run(j, cells, log) == (Ok(result), logAfterRun)
    requires SaveSpec(baseDir, fs, j.fullName, result) == (Ok(urls), fsAfterSave)
    requires j.fullName in resolvers
    ensures OperationSpec(j, resolvers, baseDir, run, cells, fs, log)
         == (Ok(()), ResolveIn(cells, resolvers[j.fullName], urls), fsAfterSave, logAfterRun)
  {
  }

  /** What run does: every job in order, each from the state the ones before it left, whether or
      not they failed; the stage fails with the first failure. */
  function StageSpec(jobs: seq<Job>, resolvers: map<string, Cell>, baseDir: string, run: Runner,
                     cells: Env, fs: FsState, log: seq<Call>): (r: (Outcome<()>, Env, FsState, seq<Call>))
    ensures jobs == [] ==> r == (Ok(()), cells, fs, log)
    ensures |jobs| == 1 ==> r == OperationSpec(jobs[0], resolvers, baseDir, run, cells, fs, log)
    decreases |jobs|, 1
  {
    if jobs == [] then (Ok(()), cells, fs, log)
    else StageAfterLast(jobs, resolvers, baseDir, run, cells, fs, log)
  }

  /** A non-empty stage: the jobs before the last, then the last one. */
  function StageAfterLast(jobs: seq<Job>, resolvers: map<string, Cell>, baseDir: string, run: Runner,
                          cells: Env, fs: FsState, log: seq<Call>): (r: (Outcome<()>, Env, FsState, seq<Call>))
    requires jobs != []
    decreases |jobs|, 0
  {
    var before := StageSpec(jobs[..|jobs| - 1], resolvers, baseDir, run, cells, fs, log);
    var last := OperationSpec(jobs[|jobs| - 1], resolvers, baseDir, run, before.1, before.2, before.3);
    (FirstError(before.0, last.0), last.1, last.2, last.3)
  }

  /** The last step of a stage run. */
  lemma StageLast(jobs: seq<Job>, resolvers: map<string, Cell>, baseDir: string, run: Runner,
                  cells: Env, fs: FsState, log: seq<Call>)
    requires jobs != []
    ensures var before := StageSpec(jobs[..|jobs| - 1], resolvers, baseDir, run, cells, fs, log);
      var last := OperationSpec(jobs[|jobs| - 1], resolvers, baseDir, run, before.1, before.2, before.3);
      StageSpec(jobs, resolvers, baseDir, run, cells, fs, log) == (FirstError(before.0, last.0), last.1, last.2, last.3)
  {
  }

  /** What one operation changes: it only adds files to the file system, it only settles futures that have a resolver and were pending, and a job replayed from its
      checkpoint adds nothing at all. */
  lemma OperationFrame(j: Job, resolvers: map<string, Cell>, baseDir: string, run: Runner,
                       cells: Env, fs: FsState, log: seq<Call>)
    ensures var r := OperationSpec(j, resolvers, baseDir, run, cells, fs, log);
      r.2.dirs == fs.dirs && (forall p :: p in fs.files ==> p in r.2.files)
      && cells.Keys <= r.1.Keys
      && (forall c :: c in cells && c !in resolvers.Values ==> r.1[c] == cells[c])
      && (forall c :: c in cells && !cells[c].Pending? ==> r.1[c] == cells[c])
      && (ExistsSpec(baseDir, fs, j.fullName) ==> r.2 == fs && r.3 == log)
  {
  }

  /** What a stage run changes, as for one operation. */
  lemma {:induction false} StageFrame(jobs: seq<Job>, resolvers: map<string, Cell>, baseDir: string, run: Runner,
                                      cells: Env, fs: FsState, log: seq<Call>)
    ensures var r := StageSpec(jobs, resolvers, baseDir, run, cells, fs, log);
      r.2.dirs == fs.dirs && (forall p :: p in fs.files ==> p in r.2.files)
      && cells.Keys <= r.1.Keys
      && (forall c :: c in cells && c !in resolvers.Values ==> r.1[c] == cells[c])
      && (forall c :: c in cells && !cells[c].Pending? ==> r.1[c] == cells[c])
    decreases |jobs|
  {
    if jobs != [] {
      var n := |jobs| - 1;
      var before := StageSpec(jobs[..n], resolvers, baseDir, run, cells, fs, log);
      StageFrame(jobs[..n], resolvers, baseDir, run, cells, fs, log);
      StageLast(jobs, resolvers, baseDir, run, cells, fs, log);
      OperationFrame(jobs[n], resolvers, baseDir, run, before.1, before.2, before.3);
    }
  }

  /** The runner of a task executor is Executable.run on it, for every job, futures and log. */
  lemma OnExecutorRuns(respond: Oracle, moduleDir: string)
    ensures forall j', env', l' {:trigger RunSpec(j', env', respond, moduleDir, l')} ::
      OnExecutor(respond, moduleDir)(j', env', l') == RunSpec(j', env', respond, moduleDir, l')
  {
  }

  /** Running a job on the task executor only adds calls to the log. */
  lemma OnExecutorAppends(respond: Oracle, moduleDir: string)
    ensures forall j, env, log :: var after := OnExecutor(respond, moduleDir)(j, env, log).1;
      |log| <= |after| && after[..|log|] == log
  {
    forall j, env, log
      ensures var after := OnExecutor(respond, moduleDir)(j, env, log).1;
        |log| <= |after| && after[..|log|] == log
    {
      assert OnExecutor(respond, moduleDir)(j, env, log) == RunSpec(j, env, respond, moduleDir, log);
    }
  }

  /** With a runner that only adds calls, so does a stage run. */
  lemma {:induction false} StageAppends(jobs: seq<Job>, resolvers: map<string, Cell>, baseDir: string, run: Runner,
                                        cells: Env, fs: FsState, log: seq<Call>)
    requires forall j, env, l :: |l| <= |run(j, env, l).1| && run(j, env, l).1[..|l|] == l
    ensures var r := StageSpec(jobs, resolvers, baseDir, run, cells, fs, log);
      |log| <= |r.3| && r.3[..|log|] == log
    decreases |jobs|
  {
    if jobs != [] {
      var n := |jobs| - 1;
      var before := StageSpec(jobs[..n], resolvers, baseDir, run, cells, fs, log);
      StageAppends(jobs[..n], resolvers, baseDir, run, cells, fs, log);
      StageLast(jobs, resolvers, baseDir, run, cells, fs, log);
      var r := OperationSpec(jobs[n], resolvers, baseDir, run, before.1, before.2, before.3);
      PrefixTrans(log, before.3, r.3);
    }
  }

  /** One more job, from the state the first i left. */
  lemma StageStep(jobs: seq<Job>, i: nat, resolvers: map<string, Cell>, baseDir: string, run: Runner,
                  cells: Env, fs: FsState, log: seq<Call>, sofar: Outcome<()>, cells': Env, fs': FsState, log': seq<Call>)
    requires i < |jobs|
    requires var before := StageSpec(jobs[..i], resolvers, baseDir, run, cells, fs, log);
      before.0 == sofar && before.1 == cells' && before.2 == fs' && before.3 == log'
    ensures var last := OperationSpec(jobs[i], resolvers, baseDir, run, cells', fs', log');
      StageSpec(jobs[..i + 1], resolvers, baseDir, run, cells, fs, log) == (FirstError(sofar, last.0), last.1, last.2, last.3)
  {
    assert jobs[..i + 1][..i] == jobs[..i];
    StageLast(jobs[..i + 1], resolvers, baseDir, run, cells, fs, log);
  }

  /** Once a prefix of the jobs fails, the stage fails with that first error, though the jobs
      after it still run. */
  lemma {:induction false} StageKeepsFirstError(jobs: seq<Job>, k: nat, resolvers: map<string, Cell>, baseDir: string, run: Runner,
                                                cells: Env, fs: FsState, log: seq<Call>)
    requires k <= |jobs|
    requires StageSpec(jobs[..k], resolvers, baseDir, run, cells, fs, log).0.Err?
    ensures StageSpec(jobs, resolvers, baseDir, run, cells, fs, log).0
         == StageSpec(jobs[..k], resolvers, baseDir, run, cells, fs, log).0
    decreases |jobs|
  {
    if k < |jobs| {
      assert jobs[..|jobs| - 1][..k] == jobs[..k];
      StageKeepsFirstError(jobs[..|jobs| - 1], k, resolvers, baseDir, run, cells, fs, log);
      StageLast(jobs, resolvers, baseDir, run, cells, fs, log);
    } else {
      assert jobs[..k] == jobs;
    }
  }

  /** Every job has a resolver, a checkpoint and a settled future. */
  predicate Checkpointed(jobs: seq<Job>, resolvers: map<string, Cell>, baseDir: string, fs: FsState, env: Env)
  {
    forall i :: 0 <= i < |jobs| ==>
      jobs[i].fullName in resolvers && ExistsSpec(baseDir, fs, jobs[i].fullName)
      && !Lookup(env, resolvers[jobs[i].fullName]).Pending?
  }

  /** After a successful stage run every job has a checkpoint and a settled future. */
  lemma {:induction false} StageOkCheckpointed(jobs: seq<Job>, resolvers: map<string, Cell>, baseDir: string, run: Runner,
                                               cells: Env, fs: FsState, log: seq<Call>)
    requires StageSpec(jobs, resolvers, baseDir, run, cells, fs, log).0.Ok?
    ensures var s := StageSpec(jobs, resolvers, baseDir, run, cells, fs, log);
      Checkpointed(jobs, resolvers, baseDir, s.2, s.1)
    decreases |jobs|
  {
    if jobs != [] {
      var n := |jobs| - 1;
      var before := StageSpec(jobs[..n], resolvers, baseDir, run, cells, fs, log);
      var s := StageSpec(jobs, resolvers, baseDir, run, cells, fs, log);
      StageLast(jobs, resolvers, baseDir, run, cells, fs, log);
      OperationFrame(jobs[n], resolvers, baseDir, run, before.1, before.2, before.3);
      StageOkCheckpointed(jobs[..n], resolvers, baseDir, run, cells, fs, log);
      CheckpointedStep(jobs, resolvers, baseDir, before.2, before.1, s.2, s.1);
    }
  }

  /** One more job checkpointed: files are only added and settled futures stay settled, so the
      earlier jobs stay checkpointed. */
  lemma CheckpointedStep(jobs: seq<Job>, resolvers: map<string, Cell>, baseDir: string, fs: FsState, env: Env, fs': FsState, env': Env)
    requires jobs != []
    requires Checkpointed(jobs[..|jobs| - 1], resolvers, baseDir, fs, env)
    requires Checkpointed([jobs[|jobs| - 1]], resolvers, baseDir, fs', env')
    requires fs'.dirs == fs.dirs && forall p :: p in fs.files ==> p in fs'.files
    requires env.Keys <= env'.Keys && forall c :: c in env && !env[c].Pending? ==> env'[c] == env[c]
    ensures Checkpointed(jobs, resolvers, baseDir, fs', env')
  {
    var n := |jobs| - 1;
    forall i | 0 <= i < |jobs|
      ensures jobs[i].fullName in resolvers && ExistsSpec(baseDir, fs', jobs[i].fullName)
        && !Lookup(env', resolvers[jobs[i].fullName]).Pending?
    {
      if i < n {
        assert jobs[..n][i] == jobs[i];
        SettledStays(env, env', resolvers[jobs[i].fullName]);
      } else {
        assert [jobs[n]][0] == jobs[i];
      }
    }
  }

  /** A settled future stays settled as a snapshot evolves. */
  lemma SettledStays(env: Env, env': Env, c: Cell)
    requires env.Keys <= env'.Keys
    requires forall d :: d in env && !env[d].Pending? ==> env'[d] == env[d]
    requires !Lookup(env, c).Pending?
    ensures Lookup(env', c) == Lookup(env, c)
  {
  }

  /** Every job's checkpoint is a readable record and every name has a resolver. */
  predicate Replayable(jobs: seq<Job>, resolvers: map<string, Cell>, baseDir: string, fs: FsState)
  {
    forall i :: 0 <= i < |jobs| ==>
      jobs[i].fullName in resolvers && RecordPath(baseDir, jobs[i].fullName) in fs.files
      && Json.Decode(fs.files[RecordPath(baseDir, jobs[i].fullName)]).Some?
  }

  /** Resuming: when every job has a readable checkpoint, the stage succeeds without a single
      remote call and without writing anything. */
  lemma {:induction false} ResumeSkipsWork(jobs: seq<Job>, resolvers: map<string, Cell>, baseDir: string, run: Runner,
                                           cells: Env, fs: FsState, log: seq<Call>)
    requires Replayable(jobs, resolvers, baseDir, fs)
    ensures var s := StageSpec(jobs, resolvers, baseDir, run, cells, fs, log);
      s.0.Ok? && s.2 == fs && s.3 == log
    decreases |jobs|
  {
    if jobs != [] {
      var n := |jobs| - 1;
      assert Replayable(jobs[..n], resolvers, baseDir, fs) by {
        forall i | 0 <= i < n
          ensures jobs[..n][i] == jobs[i]
        {
        }
      }
      ResumeSkipsWork(jobs[..n], resolvers, baseDir, run, cells, fs, log);
      StageLast(jobs, resolvers, baseDir, run, cells, fs, log);
      var p := RecordPath(baseDir, jobs[n].fullName);
      assert p in fs.files && Json.Decode(fs.files[p]).Some?;
    }
  }

  /** No job writes its data file over another's record. */
  predicate Separate(jobs: seq<Job>, baseDir: string)
  {
    forall i, j :: 0 <= i < |jobs| && 0 <= j < |jobs| ==>
      RecordPath(baseDir, jobs[i].fullName) != DataPath(baseDir, jobs[j].fullName)
  }

  /** A successful operation changes at most its own record and data file, and leaves a
      readable record. */
  lemma OperationWrites(j: Job, resolvers: map<string, Cell>, baseDir: string, run: Runner,
                        cells: Env, fs: FsState, log: seq<Call>)
    requires OperationSpec(j, resolvers, baseDir, run, cells, fs, log).0.Ok?
    ensures var fs' := OperationSpec(j, resolvers, baseDir, run, cells, fs, log).2;
      var own := RecordPath(baseDir, j.fullName);
      own in fs'.files && Json.Decode(fs'.files[own]).Some?
      && (forall p :: p in fs.files && p != own && p != DataPath(baseDir, j.fullName) ==> fs'.files[p] == fs.files[p])
  {
    if !ExistsSpec(baseDir, fs, j.fullName) {
      SaveThenRead(baseDir, fs, j.fullName, run(j, cells, log).0.value);
    } else {
      OperationFrame(j, resolvers, baseDir, run, cells, fs, log);
    }
  }

  /** Whatever its outcome, an operation changes the file system only at its own record and data
      file. */
  lemma OperationTouchesOwn(j: Job, resolvers: map<string, Cell>, baseDir: string, run: Runner,
                            cells: Env, fs: FsState, log: seq<Call>, p: string)
    requires p != RecordPath(baseDir, j.fullName) && p != DataPath(baseDir, j.fullName)
    ensures var fs' := OperationSpec(j, resolvers, baseDir, run, cells, fs, log).2;
      fs'.dirs == fs.dirs && (p in fs'.files <==> p in fs.files) && (p in fs.files ==> fs'.files[p] == fs.files[p])
  {
    if !ExistsSpec(baseDir, fs, j.fullName) && run(j, cells, log).0.Ok? {
      var saved := SaveSpec(baseDir, fs, j.fullName, run(j, cells, log).0.value);
      assert p in fs.files ==> p in saved.1.files;
    }
  }

  /** A path no job of the stage writes to is the same after the stage run as before it. */
  lemma {:induction false} StageUntouched(jobs: seq<Job>, resolvers: map<string, Cell>, baseDir: string, run: Runner,
                                          cells: Env, fs: FsState, log: seq<Call>, p: string)
    requires forall i :: 0 <= i < |jobs| ==> p != RecordPath(baseDir, jobs[i].fullName) && p != DataPath(baseDir, jobs[i].fullName)
    ensures var fs' := StageSpec(jobs, resolvers, baseDir, run, cells, fs, log).2;
      fs'.dirs == fs.dirs && (p in fs'.files <==> p in fs.files) && (p in fs.files ==> fs'.files[p] == fs.files[p])
    decreases |jobs|
  {
    if jobs != [] {
      var n := |jobs| - 1;
      var before := StageSpec(jobs[..n], resolvers, baseDir, run, cells, fs, log);
      assert forall i :: 0 <= i < n ==> jobs[..n][i] == jobs[i];
      StageUntouched(jobs[..n], resolvers, baseDir, run, cells, fs, log, p);
      OperationTouchesOwn(jobs[n], resolvers, baseDir, run, before.1, before.2, before.3, p);
      StageLast(jobs, resolvers, baseDir, run, cells, fs, log);
    }
  }

  /** The source checks every job's checkpoint before any job writes one; the model checks each job
      after the ones before it ran. The two checks agree when no earlier job writes the job's record
      path: job k sees the record as the stage found it. */
  lemma StageCheckSeesStart(jobs: seq<Job>, k: nat, resolvers: map<string, Cell>, baseDir: string, run: Runner,
                            cells: Env, fs: FsState, log: seq<Call>)
    requires k < |jobs|
    requires var p := RecordPath(baseDir, jobs[k].fullName);
      forall i :: 0 <= i < k ==> p != RecordPath(baseDir, jobs[i].fullName) && p != DataPath(baseDir, jobs[i].fullName)
    ensures var before := StageSpec(jobs[..k], resolvers, baseDir, run, cells, fs, log);
      ExistsSpec(baseDir, before.2, jobs[k].fullName) == ExistsSpec(baseDir, fs, jobs[k].fullName)
  {
    assert forall i :: 0 <= i < k ==> jobs[..k][i] == jobs[i];
    StageUntouched(jobs[..k], resolvers, baseDir, run, cells, fs, log, RecordPath(baseDir, jobs[k].fullName));
  }

  /** A successful run leaves a readable checkpoint for every job, provided no data file lands on
      another job's record. */
  lemma {:induction false} StageOkReplayable(jobs: seq<Job>, resolvers: map<string, Cell>, baseDir: string, run: Runner,
                                             cells: Env, fs: FsState, log: seq<Call>)
    requires Separate(jobs, baseDir)
    requires StageSpec(jobs, resolvers, baseDir, run, cells, fs, log).0.Ok?
    ensures Replayable(jobs, resolvers, baseDir, StageSpec(jobs, resolvers, baseDir, run, cells, fs, log).2)
    decreases |jobs|
  {
    if jobs != [] {
      var n := |jobs| - 1;
      var before := StageSpec(jobs[..n], resolvers, baseDir, run, cells, fs, log);
      var fs' := StageSpec(jobs, resolvers, baseDir, run, cells, fs, log).2;
      assert Separate(jobs[..n], baseDir) by {
        forall a, b | 0 <= a < n && 0 <= b < n
          ensures jobs[..n][a] == jobs[a] && jobs[..n][b] == jobs[b]
        {
        }
      }
      StageOkReplayable(jobs[..n], resolvers, baseDir, run, cells, fs, log);
      StageLast(jobs, resolvers, baseDir, run, cells, fs, log);
      OperationWrites(jobs[n], resolvers, baseDir, run, before.1, before.2, before.3);
      OperationFrame(jobs[n], resolvers, baseDir, run, before.1, before.2, before.3);
      ReplayableStep(jobs, resolvers, baseDir, before.2, fs');
    }
  }

  /** One more job recorded: the earlier records survive when the new files miss them. */
  lemma ReplayableStep(jobs: seq<Job>, resolvers: map<string, Cell>, baseDir: string, fs: FsState, fs': FsState)
    requires jobs != [] && Separate(jobs, baseDir)
    requires Replayable(jobs[..|jobs| - 1], resolvers, baseDir, fs)
    requires var last := jobs[|jobs| - 1].fullName;
      last in resolvers && RecordPath(baseDir, last) in fs'.files && Json.Decode(fs'.files[RecordPath(baseDir, last)]).Some?
    requires forall p :: p in fs.files ==> p in fs'.files
    requires var last := jobs[|jobs| - 1].fullName;
      forall p :: p in fs.files && p != RecordPath(baseDir, last) && p != DataPath(baseDir, last) ==> fs'.files[p] == fs.files[p]
    ensures Replayable(jobs, resolvers, baseDir, fs')
  {
    var n := |jobs| - 1;
    forall i | 0 <= i < n
      ensures jobs[i].fullName in resolvers && RecordPath(baseDir, jobs[i].fullName) in fs'.files
        && Json.Decode(fs'.files[RecordPath(baseDir, jobs[i].fullName)]).Some?
    {
      assert jobs[..n][i] == jobs[i];
      assert RecordPath(baseDir, jobs[i].fullName) != DataPath(baseDir, jobs[n].fullName);
    }
  }

  /** Running a stage a second time after it succeeded makes no remote call and writes nothing:
      the second run is a replay of the checkpoints the first one left. */
  lemma RerunMakesNoCalls(jobs: seq<Job>, resolvers: map<string, Cell>, baseDir: string, run: Runner,
                          cells: Env, fs: FsState, log: seq<Call>, run': Runner, log': seq<Call>)
    requires Separate(jobs, baseDir)
    requires StageSpec(jobs, resolvers, baseDir, run, cells, fs, log).0.Ok?
    ensures var s := StageSpec(jobs, resolvers, baseDir, run, cells, fs, log);
      var again := StageSpec(jobs, resolvers, baseDir, run', s.1, s.2, log');
      again.0.Ok? && again.2 == s.2 && again.3 == log'
  {
    var s := StageSpec(jobs, resolvers, baseDir, run, cells, fs, log);
    StageOkReplayable(jobs, resolvers, baseDir, run, cells, fs, log);
    ResumeSkipsWork(jobs, resolvers, baseDir, run', s.1, s.2, log');
  }

  /** No data file of a job in `writers` lands on the record of a job in `owners`. */
  predicate SeparateFrom(owners: seq<Job>, writers: seq<Job>, baseDir: string)
  {
    forall i, j :: 0 <= i < |owners| && 0 <= j < |writers| ==>
      RecordPath(baseDir, owners[i].fullName) != DataPath(baseDir, writers[j].fullName)
  }

  /** Every job reads back the same from both file systems. */
  predicate SameReads(jobs: seq<Job>, baseDir: string, fs: FsState, fs': FsState)
  {
    forall i :: 0 <= i < |jobs| ==> ReadSpec(baseDir, fs', jobs[i].fullName) == ReadSpec(baseDir, fs, jobs[i].fullName)
  }

  /** A successful operation keeps every readable record readable, and reading the same list,
      unless its data file lands on it. */
  lemma OperationKeepsRecords(j: Job, resolvers: map<string, Cell>, baseDir: string, run: Runner,
                              cells: Env, fs: FsState, log: seq<Call>, owners: seq<Job>, theirs: map<string, Cell>)
    requires OperationSpec(j, resolvers, baseDir, run, cells, fs, log).0.Ok?
    requires SeparateFrom(owners, [j], baseDir)
    requires Replayable(owners, theirs, baseDir, fs)
    ensures var fs' := OperationSpec(j, resolvers, baseDir, run, cells, fs, log).2;
      Replayable(owners, theirs, baseDir, fs') && SameReads(owners, baseDir, fs, fs')
  {
    var fs' := OperationSpec(j, resolvers, baseDir, run, cells, fs, log).2;
    OperationWrites(j, resolvers, baseDir, run, cells, fs, log);
    OperationFrame(j, resolvers, baseDir, run, cells, fs, log);
    forall i | 0 <= i < |owners|
      ensures RecordPath(baseDir, owners[i].fullName) in fs'.files
        && fs'.files[RecordPath(baseDir, owners[i].fullName)] == fs.files[RecordPath(baseDir, owners[i].fullName)]
    {
      assert [j][0] == j;
      assert RecordPath(baseDir, owners[i].fullName) != DataPath(baseDir, j.fullName);
    }
  }

  /** A successful stage run keeps the records of other jobs readable, and reading the same lists,
      when none of its data files lands on them. */
  lemma {:induction false} StageKeepsRecords(jobs: seq<Job>, resolvers: map<string, Cell>, baseDir: string, run: Runner,
                                             cells: Env, fs: FsState, log: seq<Call>, owners: seq<Job>, theirs: map<string, Cell>)
    requires StageSpec(jobs, resolvers, baseDir, run, cells, fs, log).0.Ok?
    requires SeparateFrom(owners, jobs, baseDir)
    requires Replayable(owners, theirs, baseDir, fs)
    ensures var fs' := StageSpec(jobs, resolvers, baseDir, run, cells, fs, log).2;
      Replayable(owners, theirs, baseDir, fs') && SameReads(owners, baseDir, fs, fs')
    decreases |jobs|
  {
    if jobs != [] {
      var n := |jobs| - 1;
      var before := StageSpec(jobs[..n], resolvers, baseDir, run, cells, fs, log);
      var last := OperationSpec(jobs[n], resolvers, baseDir, run, before.1, before.2, before.3);
      StageLast(jobs, resolvers, baseDir, run, cells, fs, log);
      assert before.0.Ok? && last.0.Ok?;
      assert SeparateFrom(owners, jobs[..n], baseDir) by {
        forall b | 0 <= b < n
          ensures jobs[..n][b] == jobs[b]
        {
        }
      }
      assert SeparateFrom(owners, [jobs[n]], baseDir) by {
        assert [jobs[n]][0] == jobs[n];
      }
      StageKeepsRecords(jobs[..n], resolvers, baseDir, run, cells, fs, log, owners, theirs);
      OperationKeepsRecords(jobs[n], resolvers, baseDir, run, before.1, before.2, before.3, owners, theirs);
      SameReadsTrans(owners, baseDir, fs, before.2, last.2);
    }
  }

  lemma SameReadsTrans(jobs: seq<Job>, baseDir: string, fs: FsState, fs': FsState, fs'': FsState)
    requires SameReads(jobs, baseDir, fs, fs') && SameReads(jobs, baseDir, fs', fs'')
    ensures SameReads(jobs, baseDir, fs, fs'')
  {
  }

  /** Checkpoints stay checkpointed while files are only added and settled futures stay settled. */
  lemma CheckpointedStays(jobs: seq<Job>, resolvers: map<string, Cell>, baseDir: string, fs: FsState, env: Env, fs': FsState, env': Env)
    requires Checkpointed(jobs, resolvers, baseDir, fs, env)
    requires fs'.dirs == fs.dirs && forall p :: p in fs.files ==> p in fs'.files
    requires env.Keys <= env'.Keys && forall c :: c in env && !env[c].Pending? ==> env'[c] == env[c]
    ensures Checkpointed(jobs, resolvers, baseDir, fs', env')
  {
    forall i | 0 <= i < |jobs|
      ensures !Lookup(env', resolvers[jobs[i].fullName]).Pending?
    {
      SettledStays(env, env', resolvers[jobs[i].fullName]);
    }
  }

  /** A successful operation leaves its job checkpointed. */
  lemma OperationOkCheckpointed(j: Job, resolvers: map<string, Cell>, baseDir: string, run: Runner,
                                cells: Env, fs: FsState, log: seq<Call>)
    requires OperationSpec(j, resolvers, baseDir, run, cells, fs, log).0.Ok?
    ensures var r := OperationSpec(j, resolvers, baseDir, run, cells, fs, log);
      Checkpointed([j], resolvers, baseDir, r.2, r.1)
  {
    assert [j][0] == j;
  }

  /** Any operation, failed or not, keeps checkpointed jobs checkpointed. */
  lemma OperationKeepsCheckpointed(j: Job, resolvers: map<string, Cell>, baseDir: string, run: Runner,
                                   cells: Env, fs: FsState, log: seq<Call>, done: seq<Job>)
    requires Checkpointed(done, resolvers, baseDir, fs, cells)
    ensures var r := OperationSpec(j, resolvers, baseDir, run, cells, fs, log);
      Checkpointed(done, resolvers, baseDir, r.2, r.1)
  {
    var r := OperationSpec(j, resolvers, baseDir, run, cells, fs, log);
    OperationFrame(j, resolvers, baseDir, run, cells, fs, log);
    CheckpointedStays(done, resolvers, baseDir, fs, cells, r.2, r.1);
  }

  /** Jobs checkpointed after the first k jobs of a stage stay checkpointed to the end of it,
      whatever the later jobs do. */
  lemma {:induction false} StageKeepsCheckpointed(jobs: seq<Job>, k: nat, resolvers: map<string, Cell>, baseDir: string,
                                                  run: Runner, cells: Env, fs: FsState, log: seq<Call>, done: seq<Job>)
    requires k <= |jobs|
    requires var mid := StageSpec(jobs[..k], resolvers, baseDir, run, cells, fs, log);
      Checkpointed(done, resolvers, baseDir, mid.2, mid.1)
    ensures var s := StageSpec(jobs, resolvers, baseDir, run, cells, fs, log);
      Checkpointed(done, resolvers, baseDir, s.2, s.1)
    decreases |jobs|
  {
    if k == |jobs| {
      assert jobs[..k] == jobs;
    } else {
      var n := |jobs| - 1;
      var before := StageSpec(jobs[..n], resolvers, baseDir, run, cells, fs, log);
      assert jobs[..n][..k] == jobs[..k];
      StageKeepsCheckpointed(jobs[..n], k, resolvers, baseDir, run, cells, fs, log, done);
      OperationKeepsCheckpointed(jobs[n], resolvers, baseDir, run, before.1, before.2, before.3, done);
      var last := OperationSpec(jobs[n], resolvers, baseDir, run, before.1, before.2, before.3);
      StageLast(jobs, resolvers, baseDir, run, cells, fs, log);
      var s := StageSpec(jobs, resolvers, baseDir, run, cells, fs, log);
      assert s.1 == last.1 && s.2 == last.2;
    }
  }

  /** A job that succeeded keeps its checkpoint and its settled future to the end of the stage
      run, even when another job of the stage fails. */
  lemma SucceededJobCheckpointed(jobs: seq<Job>, k: nat, resolvers: map<string, Cell>, baseDir: string,
                                 run: Runner, cells: Env, fs: FsState, log: seq<Call>)
    requires k < |jobs|
    requires var before := StageSpec(jobs[..k], resolvers, baseDir, run, cells, fs, log);
      OperationSpec(jobs[k], resolvers, baseDir, run, before.1, before.2, before.3).0.Ok?
    ensures var s := StageSpec(jobs, resolvers, baseDir, run, cells, fs, log);
      Checkpointed([jobs[k]], resolvers, baseDir, s.2, s.1)
  {
    var before := StageSpec(jobs[..k], resolvers, baseDir, run, cells, fs, log);
    StageStep(jobs, k, resolvers, baseDir, run, cells, fs, log, before.0, before.1, before.2, before.3);
    OperationOkCheckpointed(jobs[k], resolvers, baseDir, run, before.1, before.2, before.3);
    StageKeepsCheckpointed(jobs, k + 1, resolvers, baseDir, run, cells, fs, log, [jobs[k]]);
  }

  /** No two names share a future. */
  predicate OneFuturePerName(resolvers: map<string, Cell>)
  {
    forall a, b :: a in resolvers && b in resolvers && resolvers[a] == resolvers[b] ==> a == b
  }

  /** The constructor gives every executable a future of its own, so no two names share one. */
  lemma ResolversOneFuturePerName(names: seq<string>, cells: seq<Cell>)
    requires |names| == |cells|
    requires forall a, b :: 0 <= a < b < |cells| ==> cells[a] != cells[b]
    ensures OneFuturePerName(Resolvers(names, cells))
  {
    var r := Resolvers(names, cells);
    ResolversCover(names, cells);
    forall a, b | a in r && b in r && r[a] == r[b]
      ensures a == b
    {
      var i :| 0 <= i < |names| && names[i] == a && r[a] == cells[i];
      var j :| 0 <= j < |names| && names[j] == b && r[b] == cells[j];
      assert !(i < j) && !(j < i);
    }
  }

  /** Every job's checkpoint in fs reads back, and the future of every job that was pending in
      `start` holds in `env` the very list it reads back. */
  predicate ResolvedFrom(jobs: seq<Job>, resolvers: map<string, Cell>, baseDir: string, fs: FsState, start: Env, env: Env)
  {
    forall i :: 0 <= i < |jobs| ==>
      jobs[i].fullName in resolvers && ReadSpec(baseDir, fs, jobs[i].fullName).Ok?
      && (Lookup(start, resolvers[jobs[i].fullName]).Pending? ==>
            Lookup(env, resolvers[jobs[i].fullName]) == Resolved(ReadSpec(baseDir, fs, jobs[i].fullName).value))
  }

  /** Every future that differs between the two snapshots is the future of one of the jobs. */
  predicate OnlyTheirFutures(jobs: seq<Job>, resolvers: map<string, Cell>, start: Env, env: Env)
  {
    forall c :: c in env.Keys + start.Keys && Lookup(env, c) != Lookup(start, c) ==>
      exists i :: 0 <= i < |jobs| && jobs[i].fullName in resolvers && resolvers[jobs[i].fullName] == c
  }

  /** Jobs whose checkpoints read back are replayable. */
  lemma ResolvedReplayable(jobs: seq<Job>, resolvers: map<string, Cell>, baseDir: string, fs: FsState, start: Env, env: Env)
    requires ResolvedFrom(jobs, resolvers, baseDir, fs, start, env)
    ensures Replayable(jobs, resolvers, baseDir, fs)
  {
    forall i | 0 <= i < |jobs|
      ensures RecordPath(baseDir, jobs[i].fullName) in fs.files
    {
      assert ReadSpec(baseDir, fs, jobs[i].fullName).Ok?;
    }
  }

  /** A successful operation resolves its own future with the list its checkpoint reads back;
      a job that already had a readable checkpoint writes nothing. */
  lemma OperationResolves(j: Job, resolvers: map<string, Cell>, baseDir: string, run: Runner,
                          cells: Env, fs: FsState, log: seq<Call>)
    requires OperationSpec(j, resolvers, baseDir, run, cells, fs, log).0.Ok?
    ensures var r := OperationSpec(j, resolvers, baseDir, run, cells, fs, log);
      j.fullName in resolvers && ReadSpec(baseDir, r.2, j.fullName).Ok?
      && r.1 == ResolveIn(cells, resolvers[j.fullName], ReadSpec(baseDir, r.2, j.fullName).value)
      && (ReadSpec(baseDir, fs, j.fullName).Ok? ==> r.2 == fs)
  {
    if !ExistsSpec(baseDir, fs, j.fullName) {
      SaveThenRead(baseDir, fs, j.fullName, run(j, cells, log).0.value);
    }
  }

  /** One more job resolved from its checkpoint. */
  lemma ResolvedStep(jobs: seq<Job>, resolvers: map<string, Cell>, baseDir: string, start: Env,
                     fs: FsState, env: Env, fs': FsState, env': Env)
    requires jobs != [] && OneFuturePerName(resolvers)
    requires var n := |jobs| - 1;
      ResolvedFrom(jobs[..n], resolvers, baseDir, fs, start, env) && OnlyTheirFutures(jobs[..n], resolvers, start, env)
      && SameReads(jobs[..n], baseDir, fs, fs')
    requires var name := jobs[|jobs| - 1].fullName;
      name in resolvers && ReadSpec(baseDir, fs', name).Ok?
      && env' == ResolveIn(env, resolvers[name], ReadSpec(baseDir, fs', name).value)
      && (ReadSpec(baseDir, fs, name).Ok? ==> fs' == fs)
    ensures ResolvedFrom(jobs, resolvers, baseDir, fs', start, env') && OnlyTheirFutures(jobs, resolvers, start, env')
  {
    var n := |jobs| - 1;
    ResolvedEarlier(jobs, resolvers, baseDir, start, fs, env, fs', env');
    ResolvedLast(jobs, resolvers, baseDir, start, fs, env, fs', env');
    TheirFuturesStep(jobs, resolvers, start, env, env', ReadSpec(baseDir, fs', jobs[n].fullName).value);
    forall i | 0 <= i < |jobs|
      ensures jobs[i].fullName in resolvers && ReadSpec(baseDir, fs', jobs[i].fullName).Ok?
        && (Lookup(start, resolvers[jobs[i].fullName]).Pending? ==>
              Lookup(env', resolvers[jobs[i].fullName]) == Resolved(ReadSpec(baseDir, fs', jobs[i].fullName).value))
    {
      if i < n {
        assert jobs[..n][i] == jobs[i];
      }
    }
  }

  /** The earlier jobs stay resolved: their reads are the same and a settled future stays settled. */
  lemma ResolvedEarlier(jobs: seq<Job>, resolvers: map<string, Cell>, baseDir: string, start: Env,
                        fs: FsState, env: Env, fs': FsState, env': Env)
    requires jobs != []
    requires var n := |jobs| - 1;
      ResolvedFrom(jobs[..n], resolvers, baseDir, fs, start, env) && SameReads(jobs[..n], baseDir, fs, fs')
    requires var name := jobs[|jobs| - 1].fullName;
      name in resolvers && ReadSpec(baseDir, fs', name).Ok?
      && env' == ResolveIn(env, resolvers[name], ReadSpec(baseDir, fs', name).value)
    ensures ResolvedFrom(jobs[..|jobs| - 1], resolvers, baseDir, fs', start, env')
  {
  }

  /** The last job is resolved: its future was pending and is now resolved with its list, or an
      earlier job of the same name resolved it with the list both read back. */
  lemma ResolvedLast(jobs: seq<Job>, resolvers: map<string, Cell>, baseDir: string, start: Env,
                     fs: FsState, env: Env, fs': FsState, env': Env)
    requires jobs != [] && OneFuturePerName(resolvers)
    requires var n := |jobs| - 1;
      ResolvedFrom(jobs[..n], resolvers, baseDir, fs, start, env) && OnlyTheirFutures(jobs[..n], resolvers, start, env)
    requires var name := jobs[|jobs| - 1].fullName;
      name in resolvers && ReadSpec(baseDir, fs', name).Ok?
      && env' == ResolveIn(env, resolvers[name], ReadSpec(baseDir, fs', name).value)
      && (ReadSpec(baseDir, fs, name).Ok? ==> fs' == fs)
    ensures var name := jobs[|jobs| - 1].fullName;
      Lookup(start, resolvers[name]).Pending? ==> Lookup(env', resolvers[name]) == Resolved(ReadSpec(baseDir, fs', name).value)
  {
    var n := |jobs| - 1;
    var name := jobs[n].fullName;
    var c := resolvers[name];
    if Lookup(start, c).Pending? && Lookup(env, c) != Lookup(start, c) {
      var i :| 0 <= i < n && jobs[..n][i].fullName in resolvers && resolvers[jobs[..n][i].fullName] == c;
      assert jobs[..n][i].fullName == name;
    }
  }

  /** Only the last job's future is new among the changed ones. */
  lemma TheirFuturesStep(jobs: seq<Job>, resolvers: map<string, Cell>, start: Env, env: Env, env': Env, v: seq<string>)
    requires jobs != [] && OnlyTheirFutures(jobs[..|jobs| - 1], resolvers, start, env)
    requires var name := jobs[|jobs| - 1].fullName;
      name in resolvers && env' == ResolveIn(env, resolvers[name], v)
    ensures OnlyTheirFutures(jobs, resolvers, start, env')
  {
    var n := |jobs| - 1;
    var c := resolvers[jobs[n].fullName];
    forall d | d in env'.Keys + start.Keys && Lookup(env', d) != Lookup(start, d)
      ensures exists i :: 0 <= i < |jobs| && jobs[i].fullName in resolvers && resolvers[jobs[i].fullName] == d
    {
      if d == c {
        assert jobs[n].fullName in resolvers && resolvers[jobs[n].fullName] == d;
      } else {
        var i :| 0 <= i < n && jobs[..n][i].fullName in resolvers && resolvers[jobs[..n][i].fullName] == d;
        assert jobs[i] == jobs[..n][i];
      }
    }
  }

  /** After a successful stage run every job's future that was pending holds the list its
      checkpoint reads back, provided no two names share a future and no data file lands on a
      record; no other future changes. */
  lemma {:induction false} StageResolvesFrom(jobs: seq<Job>, resolvers: map<string, Cell>, baseDir: string, run: Runner,
                                             cells: Env, fs: FsState, log: seq<Call>)
    requires Separate(jobs, baseDir) && OneFuturePerName(resolvers)
    requires StageSpec(jobs, resolvers, baseDir, run, cells, fs, log).0.Ok?
    ensures var s := StageSpec(jobs, resolvers, baseDir, run, cells, fs, log);
      ResolvedFrom(jobs, resolvers, baseDir, s.2, cells, s.1) && OnlyTheirFutures(jobs, resolvers, cells, s.1)
    decreases |jobs|
  {
    if jobs != [] {
      var n := |jobs| - 1;
      var before := StageSpec(jobs[..n], resolvers, baseDir, run, cells, fs, log);
      var last := OperationSpec(jobs[n], resolvers, baseDir, run, before.1, before.2, before.3);
      StageLast(jobs, resolvers, baseDir, run, cells, fs, log);
      assert before.0.Ok? && last.0.Ok?;
      assert Separate(jobs[..n], baseDir) by {
        forall a, b | 0 <= a < n && 0 <= b < n
          ensures jobs[..n][a] == jobs[a] && jobs[..n][b] == jobs[b]
        {
        }
      }
      assert SeparateFrom(jobs[..n], [jobs[n]], baseDir) by {
        forall a | 0 <= a < n
          ensures jobs[..n][a] == jobs[a]
        {
        }
        assert [jobs[n]][0] == jobs[n];
      }
      StageResolvesFrom(jobs[..n], resolvers, baseDir, run, cells, fs, log);
      ResolvedReplayable(jobs[..n], resolvers, baseDir, before.2, cells, before.1);
      OperationKeepsRecords(jobs[n], resolvers, baseDir, run, before.1, before.2, before.3, jobs[..n], resolvers);
      OperationResolves(jobs[n], resolvers, baseDir, run, before.1, before.2, before.3);
      ResolvedStep(jobs, resolvers, baseDir, cells, before.2, before.1, last.2, last.1);
    }
  }

  /** Running a stage a second time after it succeeded, with any resolver table for the same
      names and any futures: no remote call, nothing written, and every future pending at the
      start of either run ends with the list of its job's checkpoint, so the second run resolves
      its futures with the lists the first one resolved its own with. */
  lemma RerunSameLists(jobs: seq<Job>, resolvers: map<string, Cell>, baseDir: string, run: Runner,
                       cells: Env, fs: FsState, log: seq<Call>,
                       resolvers2: map<string, Cell>, run2: Runner, cells2: Env, log2: seq<Call>)
    requires Separate(jobs, baseDir) && OneFuturePerName(resolvers) && OneFuturePerName(resolvers2)
    requires resolvers2.Keys == resolvers.Keys
    requires StageSpec(jobs, resolvers, baseDir, run, cells, fs, log).0.Ok?
    ensures var s := StageSpec(jobs, resolvers, baseDir, run, cells, fs, log);
      var again := StageSpec(jobs, resolvers2, baseDir, run2, cells2, s.2, log2);
      again.0.Ok? && again.2 == s.2 && again.3 == log2
      && ResolvedFrom(jobs, resolvers, baseDir, s.2, cells, s.1)
      && ResolvedFrom(jobs, resolvers2, baseDir, s.2, cells2, again.1)
  {
    var s := StageSpec(jobs, resolvers, baseDir, run, cells, fs, log);
    StageResolvesFrom(jobs, resolvers, baseDir, run, cells, fs, log);
    StageOkReplayable(jobs, resolvers, baseDir, run, cells, fs, log);
    assert Replayable(jobs, resolvers2, baseDir, s.2);
    ResumeSkipsWork(jobs, resolvers2, baseDir, run2, cells2, s.2, log2);
    StageResolvesFrom(jobs, resolvers2, baseDir, run2, cells2, s.2, log2);
  }

  /** Resolved futures stay resolved while reads stay the same and settled futures stay settled. */
  lemma ResolvedFromStays(jobs: seq<Job>, resolvers: map<string, Cell>, baseDir: string, start: Env,
                          fs: FsState, env: Env, fs': FsState, env': Env)
    requires ResolvedFrom(jobs, resolvers, baseDir, fs, start, env) && SameReads(jobs, baseDir, fs, fs')
    requires env.Keys <= env'.Keys && forall c :: c in env && !env[c].Pending? ==> env'[c] == env[c]
    ensures ResolvedFrom(jobs, resolvers, baseDir, fs', start, env')
  {
    forall i | 0 <= i < |jobs| && Lookup(start, resolvers[jobs[i].fullName]).Pending?
      ensures Lookup(env', resolvers[jobs[i].fullName]) == Lookup(env, resolvers[jobs[i].fullName])
    {
      SettledStays(env, env', resolvers[jobs[i].fullName]);
    }
  }

  /** A run that starts where the jobs' futures stand as in `start` resolves them from `start`. */
  lemma ResolvedFromStart(jobs: seq<Job>, resolvers: map<string, Cell>, baseDir: string, fs: FsState,
                          start: Env, mid: Env, env: Env)
    requires ResolvedFrom(jobs, resolvers, baseDir, fs, mid, env)
    requires forall a :: a in resolvers ==> Lookup(mid, resolvers[a]) == Lookup(start, resolvers[a])
    ensures ResolvedFrom(jobs, resolvers, baseDir, fs, start, env)
  {
  }

  /** Two job lists with the same names in the same order. */
  predicate SameNames(jobs: seq<Job>, jobs2: seq<Job>)
  {
    |jobs2| == |jobs| && forall i :: 0 <= i < |jobs| ==> jobs2[i].fullName == jobs[i].fullName
  }

  /** Replayability only depends on the names and on which names have a resolver. */
  lemma SameNamesReplayable(jobs: seq<Job>, resolvers: map<string, Cell>, jobs2: seq<Job>, resolvers2: map<string, Cell>,
                            baseDir: string, fs: FsState)
    requires SameNames(jobs, jobs2) && resolvers2.Keys == resolvers.Keys
    requires Replayable(jobs, resolvers, baseDir, fs)
    ensures Replayable(jobs2, resolvers2, baseDir, fs)
  {
    forall i | 0 <= i < |jobs2|
      ensures jobs2[i].fullName == jobs[i].fullName
    {
    }
  }

  /** Record and data paths only depend on the names. */
  lemma SameNamesSeparateFrom(owners: seq<Job>, writers: seq<Job>, owners2: seq<Job>, writers2: seq<Job>, baseDir: string)
    requires SameNames(owners, owners2) && SameNames(writers, writers2)
    requires SeparateFrom(owners, writers, baseDir)
    ensures SeparateFrom(owners2, writers2, baseDir)
  {
    forall i, j | 0 <= i < |owners2| && 0 <= j < |writers2|
      ensures owners2[i].fullName == owners[i].fullName && writers2[j].fullName == writers[j].fullName
    {
    }
  }

  /** Resolving a future, with the snapshot kept in step. */
  method ResolveCell(c: Cell, v: seq<string>, ghost cells: Env) returns (ghost cells': Env)
    requires Agrees(cells, cells.Keys) && c in cells
    modifies c
    ensures c.state == Settle(old(c.state), Resolved(v))
    ensures cells' == ResolveIn(cells, c, v) && Agrees(cells', cells'.Keys)
  {
    c.Resolve(v);
    cells' := ResolveIn(cells, c, v);
  }

  /** Executable.run on the task executor, as the runner tied to that executor gives it. */
  method Execute(op: Executable, ctx: WorkContext, ghost j: Job, ghost run: Runner, ghost env: Env)
    returns (r: Outcome<ExecutableResult>)
    requires j == op.View()
    requires forall j', env', l' {:trigger RunSpec(j', env', ctx.respond, ctx.moduleDir, l')} ::
      run(j', env', l') == RunSpec(j', env', ctx.respond, ctx.moduleDir, l')
    requires Agrees(env, op.Awaits())
    modifies ctx
    ensures (r, ctx.log) == run(j, env, old(ctx.log))
  {
    r := op.Run(ctx, env);
  }

  class Stage {
    const name: string
    const taskExecutor: WorkContext
    const runnables: seq<Executable>
    /** Set by the pipeline; null until then. */
    var checkPointer: FsCheckpointer?
    /** outputs[i]: the future of the i-th executable's checkpointed result. */
    var outputs: seq<Cell>
    /** The future each qualified name resolves. */
    var deferedOutputs: map<string, Cell>

    /** The constructor names each executable after the stage and makes one future per
        executable; an executable sharing a name with a later one loses its resolver. */
    constructor (name: string, taskExecutor: WorkContext, runnables: seq<Executable>)
      modifies set r | r in runnables
      ensures this.name == name && this.taskExecutor == taskExecutor && this.runnables == runnables
      ensures checkPointer == null
      ensures forall i :: 0 <= i < |runnables| ==> runnables[i].prefix == name
      ensures |outputs| == |runnables|
      ensures forall i :: 0 <= i < |outputs| ==> fresh(outputs[i]) && outputs[i].state == Pending
      ensures forall i, j :: 0 <= i < j < |outputs| ==> outputs[i] != outputs[j]
      ensures deferedOutputs == Resolvers(QualifiedNames(name, runnables), outputs)
    {
      this.name := name;
      this.taskExecutor := taskExecutor;
      this.runnables := runnables;
      checkPointer := null;
      new;
      var outs: seq<Cell> := [];
      var resolvers: map<string, Cell> := map[];
      var i := 0;
      while i < |runnables|
        invariant 0 <= i <= |runnables| && |outs| == i
        invariant checkPointer == null
        invariant forall j :: 0 <= j < i ==> runnables[j].prefix == name
        invariant forall j :: 0 <= j < i ==> fresh(outs[j]) && outs[j].state == Pending
        invariant forall a, b :: 0 <= a < b < i ==> outs[a] != outs[b]
        invariant resolvers == Resolvers(QualifiedNames(name, runnables[..i]), outs)
      {
        runnables[i].SetPrefix(FullName());
        var d := new Deferred<seq<string>>();
        ResolversStep(name, runnables, i, outs, d);
        outs := outs + [d];
        resolvers := resolvers[runnables[i].FullName() := d];
        i := i + 1;
      }
      assert runnables[..i] == runnables;
      outputs := outs;
      deferedOutputs := resolvers;
    }

    function FullName(): string
    {
      name
    }

    /** runOperation. */
    method RunOperation(op: Executable, ghost j: Job, ghost run: Runner, ghost cells: Env) returns (r: Outcome<()>, ghost cells': Env)
      requires j == op.View()
      requires forall j', env', l' {:trigger RunSpec(j', env', taskExecutor.respond, taskExecutor.moduleDir, l')} ::
        run(j', env', l') == RunSpec(j', env', taskExecutor.respond, taskExecutor.moduleDir, l')
      requires Agrees(cells, cells.Keys)
      requires op.Awaits() <= cells.Keys && deferedOutputs.Values <= cells.Keys
      modifies taskExecutor, checkPointer, cells.Keys
      ensures checkPointer == null ==> r == Err(NoCheckpointer) && cells' == cells && taskExecutor.log == old(taskExecutor.log)
      ensures checkPointer != null ==>
        checkPointer.baseDir == old(checkPointer.baseDir) &&
        (r, cells', checkPointer.fs, taskExecutor.log) == OperationSpec(j, deferedOutputs, checkPointer.baseDir, run, cells, old(checkPointer.fs), old(taskExecutor.log))
      ensures Agrees(cells', cells'.Keys) && cells'.Keys == cells.Keys
    {
      if checkPointer == null {
        return Err(NoCheckpointer), cells;
      }
      var opName := op.FullName();
      var found := checkPointer.DoCheckPointExists(opName);
      if found {
        var read := checkPointer.ReadCheckpoint(opName);
        if read.Err? {
          return Err(read.error), cells;
        }
        if opName !in deferedOutputs {
          return Err(NoResolver(opName)), cells;
        }
        var c := deferedOutputs[opName];
        cells' := ResolveCell(c, read.value, cells);
        return Ok(()), cells';
      }
      r, cells' := RunFresh(op, j, run, cells);
    }

    /** runOperation for an executable without a checkpoint: run it, save its result and resolve
        its future with what the checkpointer returned. */
    method RunFresh(op: Executable, ghost j: Job, ghost run: Runner, ghost cells: Env) returns (r: Outcome<()>, ghost cells': Env)
      requires checkPointer != null && j == op.View() && !ExistsSpec(checkPointer.baseDir, checkPointer.fs, j.fullName)
      requires forall j', env', l' {:trigger RunSpec(j', env', taskExecutor.respond, taskExecutor.moduleDir, l')} ::
        run(j', env', l') == RunSpec(j', env', taskExecutor.respond, taskExecutor.moduleDir, l')
      requires Agrees(cells, cells.Keys)
      requires op.Awaits() <= cells.Keys && deferedOutputs.Values <= cells.Keys
      modifies taskExecutor, checkPointer, cells.Keys
      ensures checkPointer.baseDir == old(checkPointer.baseDir)
      ensures (r, cells', checkPointer.fs, taskExecutor.log) == OperationSpec(j, deferedOutputs, checkPointer.baseDir, run, cells, old(checkPointer.fs), old(taskExecutor.log))
      ensures Agrees(cells', cells'.Keys) && cells'.Keys == cells.Keys
    {
      var opName := op.FullName();
      var result := Execute(op, taskExecutor, j, run, cells);
      assert Agrees(cells, cells.Keys);
      if result.Err? {
        return Err(result.error), cells;
      }
      var urls := checkPointer.SaveCheckpoint(opName, result.value);
      assert Agrees(cells, cells.Keys);
      if urls.Err? {
        return Err(urls.error), cells;
      }
      if opName !in deferedOutputs {
        return Err(NoResolver(opName)), cells;
      }
      ghost var logAfterRun := taskExecutor.log;
      var c := deferedOutputs[opName];
      cells' := ResolveCell(c, urls.value, cells);
      OperationSaved(j, deferedOutputs, checkPointer.baseDir, run,
                     cells, old(checkPointer.fs), old(taskExecutor.log), result.value, logAfterRun, urls.value, checkPointer.fs);
      r := Ok(());
    }

    /** One more executable of run, from the state the first i left, whose outcome so far is `sofar`. */
    method RunNext(i: nat, ghost jobs: seq<Job>, ghost run: Runner, ghost cells: Env, ghost fs0: FsState, ghost log0: seq<Call>,
                   sofar: Outcome<()>, ghost now: Env)
      returns (r: Outcome<()>, ghost cells': Env)
      requires checkPointer != null
      requires run == OnExecutor(taskExecutor.respond, taskExecutor.moduleDir)
      requires i < |runnables| && jobs == Views(runnables)
      requires var before := StageSpec(jobs[..i], deferedOutputs, checkPointer.baseDir, run, cells, fs0, log0);
        before.0 == sofar && before.1 == now && before.2 == checkPointer.fs && before.3 == taskExecutor.log
      requires Agrees(now, now.Keys) && runnables[i].Awaits() <= now.Keys && deferedOutputs.Values <= now.Keys
      modifies taskExecutor, checkPointer, now.Keys
      ensures checkPointer.baseDir == old(checkPointer.baseDir) && Views(runnables) == old(Views(runnables))
      ensures (r, cells', checkPointer.fs, taskExecutor.log)
           == StageSpec(jobs[..i + 1], deferedOutputs, checkPointer.baseDir, run, cells, fs0, log0)
      ensures Agrees(cells', cells'.Keys) && cells'.Keys == now.Keys
    {
      ViewsAt(runnables, i);
      OnExecutorRuns(taskExecutor.respond, taskExecutor.moduleDir);
      StageStep(jobs, i, deferedOutputs, checkPointer.baseDir, run,
                cells, fs0, log0, sofar, now, checkPointer.fs, taskExecutor.log);
      var step;
      step, cells' := RunOperation(runnables[i], jobs[i], run, now);
      r := FirstError(sofar, step);
    }

    /** run: every operation in order; the first failure is the outcome. */
    method Run(ghost jobs: seq<Job>, ghost cells: Env) returns (r: Outcome<()>, ghost cells': Env)
      requires jobs == Views(runnables)
      requires Agrees(cells, cells.Keys)
      requires forall i :: 0 <= i < |runnables| ==> runnables[i].Awaits() <= cells.Keys
      requires deferedOutputs.Values <= cells.Keys
      modifies taskExecutor, checkPointer, cells.Keys
      ensures checkPointer == null ==>
        r == (if runnables == [] then Ok(()) else Err(NoCheckpointer)) && cells' == cells && taskExecutor.log == old(taskExecutor.log)
      ensures checkPointer != null ==>
        checkPointer.baseDir == old(checkPointer.baseDir) &&
        (r, cells', checkPointer.fs, taskExecutor.log) == StageSpec(jobs, deferedOutputs, checkPointer.baseDir, OnExecutor(taskExecutor.respond, taskExecutor.moduleDir), cells, old(checkPointer.fs), old(taskExecutor.log))
      ensures Agrees(cells', cells'.Keys) && cells'.Keys == cells.Keys
    {
      if checkPointer == null {
        r := if runnables == [] then Ok(()) else Err(NoCheckpointer);
        return r, cells;
      }
      r, cells' := RunAll(jobs, cells);
    }

    /** The loop of run, once the stage has a checkpointer. */
    method RunAll(ghost jobs: seq<Job>, ghost cells: Env) returns (r: Outcome<()>, ghost cells': Env)
      requires checkPointer != null
      requires jobs == Views(runnables)
      requires Agrees(cells, cells.Keys)
      requires forall i :: 0 <= i < |runnables| ==> runnables[i].Awaits() <= cells.Keys
      requires deferedOutputs.Values <= cells.Keys
      modifies taskExecutor, checkPointer, cells.Keys
      ensures checkPointer.baseDir == old(checkPointer.baseDir)
      ensures (r, cells', checkPointer.fs, taskExecutor.log) == StageSpec(jobs, deferedOutputs, checkPointer.baseDir, OnExecutor(taskExecutor.respond, taskExecutor.moduleDir), cells, old(checkPointer.fs), old(taskExecutor.log))
      ensures Agrees(cells', cells'.Keys) && cells'.Keys == cells.Keys
    {
      r, cells' := Ok(()), cells;
      ghost var run, resolvers, baseDir := OnExecutor(taskExecutor.respond, taskExecutor.moduleDir), deferedOutputs, checkPointer.baseDir;
      ghost var fs0, log0 := checkPointer.fs, taskExecutor.log;
      var i := 0;
      while i < |runnables|
        invariant 0 <= i <= |runnables|
        invariant jobs == Views(runnables)
        invariant checkPointer.baseDir == baseDir && deferedOutputs == resolvers
        invariant (r, cells', checkPointer.fs, taskExecutor.log) == StageSpec(jobs[..i], resolvers, baseDir, run, cells, fs0, log0)
        invariant Agrees(cells', cells'.Keys) && cells'.Keys == cells.Keys
      {
        r, cells' := RunNext(i, jobs, run, cells, fs0, log0, r, cells');
        i := i + 1;
      }
      assert jobs[..i] == jobs;
    }
  }
}

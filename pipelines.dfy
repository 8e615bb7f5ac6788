/** src/Pipeline.ts: a named sequence of stages sharing one checkpointer. run creates the
    pipeline's namespace under the checkpointer's base directory and then runs the stages.

    The stages run one after the other in the order given, every one of them whether or not an
    earlier one failed, and the run fails with the first failure (the source starts them
    together; see the README). Every stage has its own task
    executor, so the call logs are tracked per executor by a ghost snapshot `Logs`. */
module Pipelines {

  import opened Outcomes
  import opened Paths
  import opened Remote
  import opened Inputs
  import opened Executables
  import opened Checkpointers
  import opened Stages

  /** A stage as the pipeline runs it: its jobs, its resolver table, its task executor and how
      that executor runs a job. */
  datatype StageView = StageView(jobs: seq<Job>, resolvers: map<string, Cell>, executor: WorkContext, run: Runner)

  /** The call log of each task executor. */
  type Logs = map<WorkContext, seq<Call>>

  /** The log a snapshot records for an executor; one it does not mention has made no call. */
  function LogOf(logs: Logs, ctx: WorkContext): seq<Call>
  {
    if ctx in logs then logs[ctx] else []
  }

  /** The snapshot records the current log of every executor in ctxs. */
  predicate LogsAgree(logs: Logs, ctxs: set<WorkContext>)
    reads ctxs
  {
    forall c :: c in ctxs ==> c in logs && logs[c] == c.log
  }

  /** A stage object as a value. */
  function ViewOf(s: Stage): StageView
    reads s, s.runnables
  {
    StageView(Views(s.runnables), s.deferedOutputs, s.taskExecutor,
              OnExecutor(s.taskExecutor.respond, s.taskExecutor.moduleDir))
  }

  /** One stage's run on its own executor: only that executor's log changes. */
  function StageRunSpec(s: StageView, baseDir: string, cells: Env, fs: FsState, logs: Logs): (r: (Outcome<()>, Env, FsState, Logs))
    ensures r.3.Keys == logs.Keys + {s.executor}
    ensures forall c :: c in logs && c != s.executor ==> r.3[c] == logs[c]
  {
    var ran := StageSpec(s.jobs, s.resolvers, baseDir, s.run, cells, fs, LogOf(logs, s.executor));
    (ran.0, ran.1, ran.2, logs[s.executor := ran.3])
  }

  /** The stages in order, each from the state the ones before it left; the first failure is the outcome. */
  function StagesSpec(stages: seq<StageView>, baseDir: string, cells: Env, fs: FsState, logs: Logs): (r: (Outcome<()>, Env, FsState, Logs))
    ensures stages == [] ==> r == (Ok(()), cells, fs, logs)
    ensures |stages| == 1 ==> r == StageRunSpec(stages[0], baseDir, cells, fs, logs)
    decreases |stages|, 1
  {
    if stages == [] then (Ok(()), cells, fs, logs)
    else StagesAfterLast(stages, baseDir, cells, fs, logs)
  }

  /** A non-empty list of stages: the stages before the last, then the last one. */
  function StagesAfterLast(stages: seq<StageView>, baseDir: string, cells: Env, fs: FsState, logs: Logs): (r: (Outcome<()>, Env, FsState, Logs))
    requires stages != []
    decreases |stages|, 0
  {
    var before := StagesSpec(stages[..|stages| - 1], baseDir, cells, fs, logs);
    var last := StageRunSpec(stages[|stages| - 1], baseDir, before.1, before.2, before.3);
    (FirstError(before.0, last.0), last.1, last.2, last.3)
  }

  /** What run does from the checkpointer's base directory `baseDir`: init(id), then the stages
      under the new base directory if init succeeded. A failed init runs no stage: no call is
      made and no future settles. */
  function PipelineSpec(id: string, stages: seq<StageView>, baseDir: string, fs: FsState, cells: Env, logs: Logs)
    : (r: (string, Outcome<()>, Env, FsState, Logs))
    ensures r.0 == Join(baseDir, id)
    ensures InitSpec(baseDir, fs, id).2.Err? ==> r.1.Err? && r.2 == cells && r.3 == fs && r.4 == logs
  {
    var init := InitSpec(baseDir, fs, id);
    if init.2.Err? then (init.0, init.2, cells, init.1, logs)
    else
      var s := StagesSpec(stages, init.0, cells, init.1, logs);
      (init.0, s.0, s.1, s.2, s.3)
  }

  /** The last step of running the stages. */
  lemma StagesLast(stages: seq<StageView>, baseDir: string, cells: Env, fs: FsState, logs: Logs)
    requires stages != []
    ensures var before := StagesSpec(stages[..|stages| - 1], baseDir, cells, fs, logs);
      var last := StageRunSpec(stages[|stages| - 1], baseDir, before.1, before.2, before.3);
      StagesSpec(stages, baseDir, cells, fs, logs) == (FirstError(before.0, last.0), last.1, last.2, last.3)
  {
  }

  /** One more stage, from the state the first k left. */
  lemma StagesStep(stages: seq<StageView>, k: nat, baseDir: string, cells: Env, fs: FsState, logs: Logs,
                   sofar: Outcome<()>, cells': Env, fs': FsState, logs': Logs)
    requires k < |stages|
    requires var before := StagesSpec(stages[..k], baseDir, cells, fs, logs);
      before.0 == sofar && before.1 == cells' && before.2 == fs' && before.3 == logs'
    ensures var last := StageRunSpec(stages[k], baseDir, cells', fs', logs');
      StagesSpec(stages[..k + 1], baseDir, cells, fs, logs) == (FirstError(sofar, last.0), last.1, last.2, last.3)
  {
    assert stages[..k + 1][..k] == stages[..k];
    StagesLast(stages[..k + 1], baseDir, cells, fs, logs);
  }

  /** Once a prefix of the stages fails, the pipeline fails with that first error, though the
      stages after it still run. */
  lemma {:induction false} StagesKeepFirstError(stages: seq<StageView>, k: nat, baseDir: string, cells: Env, fs: FsState, logs: Logs)
    requires k <= |stages|
    requires StagesSpec(stages[..k], baseDir, cells, fs, logs).0.Err?
    ensures StagesSpec(stages, baseDir, cells, fs, logs).0 == StagesSpec(stages[..k], baseDir, cells, fs, logs).0
    decreases |stages|
  {
    if k < |stages| {
      assert stages[..|stages| - 1][..k] == stages[..k];
      StagesKeepFirstError(stages[..|stages| - 1], k, baseDir, cells, fs, logs);
      StagesLast(stages, baseDir, cells, fs, logs);
    } else {
      assert stages[..k] == stages;
    }
  }

  /** The stages succeed only when every stage ran to success, each from the state the stages
      before it left. */
  lemma {:induction false} StagesOkEach(stages: seq<StageView>, baseDir: string, cells: Env, fs: FsState, logs: Logs)
    requires StagesSpec(stages, baseDir, cells, fs, logs).0.Ok?
    ensures forall k :: 0 <= k < |stages| ==>
      var before := StagesSpec(stages[..k], baseDir, cells, fs, logs);
      before.0.Ok? && StageRunSpec(stages[k], baseDir, before.1, before.2, before.3).0.Ok?
    decreases |stages|
  {
    if stages != [] {
      var n := |stages| - 1;
      StagesLast(stages, baseDir, cells, fs, logs);
      StagesOkEach(stages[..n], baseDir, cells, fs, logs);
      forall k | 0 <= k < |stages|
        ensures var before := StagesSpec(stages[..k], baseDir, cells, fs, logs);
          before.0.Ok? && StageRunSpec(stages[k], baseDir, before.1, before.2, before.3).0.Ok?
      {
        if k < n {
          assert stages[..n][..k] == stages[..k] && stages[..n][k] == stages[k];
        }
      }
    }
  }

  /** What running stages changes, as for one stage: files are only added, no directory is
      made, and a settled future stays settled. */
  lemma {:induction false} StagesFrame(stages: seq<StageView>, baseDir: string, cells: Env, fs: FsState, logs: Logs)
    ensures var r := StagesSpec(stages, baseDir, cells, fs, logs);
      r.2.dirs == fs.dirs && (forall p :: p in fs.files ==> p in r.2.files)
      && cells.Keys <= r.1.Keys
      && (forall c :: c in cells && !cells[c].Pending? ==> r.1[c] == cells[c])
    decreases |stages|
  {
    if stages != [] {
      var n := |stages| - 1;
      var before := StagesSpec(stages[..n], baseDir, cells, fs, logs);
      StagesFrame(stages[..n], baseDir, cells, fs, logs);
      StagesLast(stages, baseDir, cells, fs, logs);
      var s := stages[n];
      StageFrame(s.jobs, s.resolvers, baseDir, s.run, before.1, before.2, LogOf(before.3, s.executor));
    }
  }

  /** After the stages succeed, every job of every stage has a checkpoint and a settled future. */
  lemma {:induction false} StagesOkCheckpointed(stages: seq<StageView>, baseDir: string, cells: Env, fs: FsState, logs: Logs)
    requires StagesSpec(stages, baseDir, cells, fs, logs).0.Ok?
    ensures var r := StagesSpec(stages, baseDir, cells, fs, logs);
      forall k :: 0 <= k < |stages| ==> Checkpointed(stages[k].jobs, stages[k].resolvers, baseDir, r.2, r.1)
    decreases |stages|
  {
    if stages != [] {
      var n := |stages| - 1;
      var before := StagesSpec(stages[..n], baseDir, cells, fs, logs);
      var r := StagesSpec(stages, baseDir, cells, fs, logs);
      var s := stages[n];
      var run := s.run;
      StagesLast(stages, baseDir, cells, fs, logs);
      StagesOkCheckpointed(stages[..n], baseDir, cells, fs, logs);
      StageOkCheckpointed(s.jobs, s.resolvers, baseDir, run, before.1, before.2, LogOf(before.3, s.executor));
      StageFrame(s.jobs, s.resolvers, baseDir, run, before.1, before.2, LogOf(before.3, s.executor));
      forall k | 0 <= k < n
        ensures Checkpointed(stages[k].jobs, stages[k].resolvers, baseDir, r.2, r.1)
      {
        assert stages[..n][k] == stages[k];
        CheckpointedStays(stages[k].jobs, stages[k].resolvers, baseDir, before.2, before.1, r.2, r.1);
      }
    }
  }

  /** Jobs checkpointed after the first k stages stay checkpointed to the end of the run,
      whatever the later stages do. */
  lemma {:induction false} StagesKeepCheckpointed(stages: seq<StageView>, k: nat, baseDir: string, cells: Env, fs: FsState, logs: Logs,
                                                  done: seq<Job>, resolvers: map<string, Cell>)
    requires k <= |stages|
    requires var mid := StagesSpec(stages[..k], baseDir, cells, fs, logs);
      Checkpointed(done, resolvers, baseDir, mid.2, mid.1)
    ensures var r := StagesSpec(stages, baseDir, cells, fs, logs);
      Checkpointed(done, resolvers, baseDir, r.2, r.1)
    decreases |stages|
  {
    if k == |stages| {
      assert stages[..k] == stages;
    } else {
      var n := |stages| - 1;
      var before := StagesSpec(stages[..n], baseDir, cells, fs, logs);
      assert stages[..n][..k] == stages[..k];
      StagesKeepCheckpointed(stages[..n], k, baseDir, cells, fs, logs, done, resolvers);
      var s := stages[n];
      var ran := StageSpec(s.jobs, s.resolvers, baseDir, s.run, before.1, before.2, LogOf(before.3, s.executor));
      StageFrame(s.jobs, s.resolvers, baseDir, s.run, before.1, before.2, LogOf(before.3, s.executor));
      CheckpointedStays(done, resolvers, baseDir, before.2, before.1, ran.2, ran.1);
      StagesLast(stages, baseDir, cells, fs, logs);
      var r := StagesSpec(stages, baseDir, cells, fs, logs);
      assert r.1 == ran.1 && r.2 == ran.2;
    }
  }

  /** A job that succeeded keeps its checkpoint and its settled future to the end of the pipeline
      run, even when other jobs or other stages fail: job i of stage k, started from the state
      the stages before it and the jobs before it left. */
  lemma SucceededJobStaysCheckpointed(stages: seq<StageView>, k: nat, i: nat, baseDir: string, cells: Env, fs: FsState, logs: Logs)
    requires k < |stages| && i < |stages[k].jobs|
    requires var mid := StagesSpec(stages[..k], baseDir, cells, fs, logs);
      var s := stages[k];
      var before := StageSpec(s.jobs[..i], s.resolvers, baseDir, s.run, mid.1, mid.2, LogOf(mid.3, s.executor));
      OperationSpec(s.jobs[i], s.resolvers, baseDir, s.run, before.1, before.2, before.3).0.Ok?
    ensures var r := StagesSpec(stages, baseDir, cells, fs, logs);
      Checkpointed([stages[k].jobs[i]], stages[k].resolvers, baseDir, r.2, r.1)
  {
    var mid := StagesSpec(stages[..k], baseDir, cells, fs, logs);
    var s := stages[k];
    SucceededJobCheckpointed(s.jobs, i, s.resolvers, baseDir, s.run, mid.1, mid.2, LogOf(mid.3, s.executor));
    StagesStep(stages, k, baseDir, cells, fs, logs, mid.0, mid.1, mid.2, mid.3);
    var ran := StageRunSpec(s, baseDir, mid.1, mid.2, mid.3);
    assert Checkpointed([s.jobs[i]], s.resolvers, baseDir, ran.2, ran.1);
    StagesKeepCheckpointed(stages, k + 1, baseDir, cells, fs, logs, [s.jobs[i]], s.resolvers);
  }

  /** No data file of any job of the pipeline lands on the record of any job of it. */
  predicate PipelineSeparate(stages: seq<StageView>, baseDir: string)
  {
    forall k, l :: 0 <= k < |stages| && 0 <= l < |stages| ==> SeparateFrom(stages[k].jobs, stages[l].jobs, baseDir)
  }

  /** Every job of every stage has a readable checkpoint and a resolver. */
  predicate StagesReplayable(stages: seq<StageView>, baseDir: string, fs: FsState)
  {
    forall k :: 0 <= k < |stages| ==> Replayable(stages[k].jobs, stages[k].resolvers, baseDir, fs)
  }

  /** After the stages succeed, every job of every stage can be replayed from its checkpoint,
      provided no data file lands on a record. */
  lemma {:induction false} StagesOkReplayable(stages: seq<StageView>, baseDir: string, cells: Env, fs: FsState, logs: Logs)
    requires PipelineSeparate(stages, baseDir)
    requires StagesSpec(stages, baseDir, cells, fs, logs).0.Ok?
    ensures StagesReplayable(stages, baseDir, StagesSpec(stages, baseDir, cells, fs, logs).2)
    decreases |stages|
  {
    if stages != [] {
      var n := |stages| - 1;
      var before := StagesSpec(stages[..n], baseDir, cells, fs, logs);
      var r := StagesSpec(stages, baseDir, cells, fs, logs);
      var s := stages[n];
      var run := s.run;
      PrefixSeparate(stages, baseDir);
      StagesLast(stages, baseDir, cells, fs, logs);
      var last := StageRunSpec(s, baseDir, before.1, before.2, before.3);
      assert before.0.Ok? && last.0.Ok? && r.2 == last.2;
      StagesOkReplayable(stages[..n], baseDir, cells, fs, logs);
      assert SeparateFrom(s.jobs, s.jobs, baseDir);
      StageOkReplayable(s.jobs, s.resolvers, baseDir, run, before.1, before.2, LogOf(before.3, s.executor));
      EarlierStagesReplayable(stages, baseDir, before.1, before.2, LogOf(before.3, s.executor));
    }
  }

  /** The last stage keeps every earlier stage's jobs replayable. */
  lemma EarlierStagesReplayable(stages: seq<StageView>, baseDir: string, mid: Env, fs: FsState, log: seq<Call>)
    requires stages != [] && PipelineSeparate(stages, baseDir)
    requires StagesReplayable(stages[..|stages| - 1], baseDir, fs)
    requires var s := stages[|stages| - 1]; StageSpec(s.jobs, s.resolvers, baseDir, s.run, mid, fs, log).0.Ok?
    ensures var s := stages[|stages| - 1];
      forall k :: 0 <= k < |stages| - 1 ==>
        Replayable(stages[k].jobs, stages[k].resolvers, baseDir, StageSpec(s.jobs, s.resolvers, baseDir, s.run, mid, fs, log).2)
  {
    var n := |stages| - 1;
    var s := stages[n];
    forall k | 0 <= k < n
      ensures Replayable(stages[k].jobs, stages[k].resolvers, baseDir, StageSpec(s.jobs, s.resolvers, baseDir, s.run, mid, fs, log).2)
    {
      assert stages[..n][k] == stages[k];
      assert SeparateFrom(stages[k].jobs, s.jobs, baseDir);
      StageKeepsRecords(s.jobs, s.resolvers, baseDir, s.run, mid, fs, log, stages[k].jobs, stages[k].resolvers);
    }
  }

  /** Resuming: when every job has a readable checkpoint, the stages succeed without a single
      remote call on any executor and without writing anything. */
  lemma {:induction false} StagesResume(stages: seq<StageView>, baseDir: string, cells: Env, fs: FsState, logs: Logs)
    requires StagesReplayable(stages, baseDir, fs)
    requires forall k :: 0 <= k < |stages| ==> stages[k].executor in logs
    ensures var r := StagesSpec(stages, baseDir, cells, fs, logs);
      r.0.Ok? && r.2 == fs && r.3 == logs
    decreases |stages|
  {
    if stages != [] {
      var n := |stages| - 1;
      var before := StagesSpec(stages[..n], baseDir, cells, fs, logs);
      var s := stages[n];
      assert StagesReplayable(stages[..n], baseDir, fs) by {
        forall k | 0 <= k < n
          ensures stages[..n][k] == stages[k]
        {
        }
      }
      assert forall k :: 0 <= k < n ==> stages[..n][k].executor in logs by {
        forall k | 0 <= k < n
          ensures stages[..n][k] == stages[k]
        {
        }
      }
      StagesResume(stages[..n], baseDir, cells, fs, logs);
      StagesLast(stages, baseDir, cells, fs, logs);
      ResumeSkipsWork(s.jobs, s.resolvers, baseDir, s.run, before.1, fs, logs[s.executor]);
      assert logs[s.executor := logs[s.executor]] == logs;
    }
  }

  /** A successful init leaves the namespace directory in place. */
  lemma InitOkExists(baseDir: string, fs: FsState, id: string)
    requires InitSpec(baseDir, fs, id).2.Ok?
    ensures Exists(InitSpec(baseDir, fs, id).1, Join(baseDir, id))
  {
    var b := Join(baseDir, id);
    if !Exists(fs, b) {
      assert b in Ancestors(b);
    }
  }

  /** Running a pipeline a second time after it succeeded, from the same base directory, as a
      pipeline rebuilt from the same description (new futures, its own executors and whatever they
      have logged): the namespace is already there, every job is replayed from its checkpoint, no
      remote call is made and nothing is written. */
  lemma PipelineRerunMakesNoCalls(id: string, stages: seq<StageView>, baseDir: string, fs: FsState, cells: Env, logs: Logs,
                                  stages2: seq<StageView>, cells2: Env, logs2: Logs)
    requires PipelineSeparate(stages, Join(baseDir, id)) && Rebuilt(stages, stages2)
    requires PipelineSpec(id, stages, baseDir, fs, cells, logs).1.Ok?
    requires forall k :: 0 <= k < |stages2| ==> stages2[k].executor in logs2
    ensures var first := PipelineSpec(id, stages, baseDir, fs, cells, logs);
      var again := PipelineSpec(id, stages2, baseDir, first.3, cells2, logs2);
      again.1.Ok? && again.3 == first.3 && again.4 == logs2
  {
    var b := Join(baseDir, id);
    var init := InitSpec(baseDir, fs, id);
    var first := PipelineSpec(id, stages, baseDir, fs, cells, logs);
    InitOkExists(baseDir, fs, id);
    StagesFrame(stages, b, cells, init.1, logs);
    assert Exists(first.3, b);
    StagesOkReplayable(stages, b, cells, init.1, logs);
    RebuiltReplayable(stages, stages2, b, first.3);
    StagesResume(stages2, b, cells2, first.3, logs2);
  }

  /** A second pipeline built from the same description: as many stages, the same job names in
      the same order and resolvers for the same names, with its own futures, executors and runners. */
  predicate Rebuilt(stages: seq<StageView>, stages2: seq<StageView>)
  {
    |stages2| == |stages|
    && forall k :: 0 <= k < |stages| ==>
         SameNames(stages[k].jobs, stages2[k].jobs) && stages2[k].resolvers.Keys == stages[k].resolvers.Keys
  }

  /** A rebuilt pipeline can replay whatever the original can. */
  lemma RebuiltReplayable(stages: seq<StageView>, stages2: seq<StageView>, baseDir: string, fs: FsState)
    requires Rebuilt(stages, stages2) && StagesReplayable(stages, baseDir, fs)
    ensures StagesReplayable(stages2, baseDir, fs)
  {
    forall k | 0 <= k < |stages2|
      ensures Replayable(stages2[k].jobs, stages2[k].resolvers, baseDir, fs)
    {
      SameNamesReplayable(stages[k].jobs, stages[k].resolvers, stages2[k].jobs, stages2[k].resolvers, baseDir, fs);
    }
  }

  /** A rebuilt pipeline writes its files where the original does. */
  lemma RebuiltSeparate(stages: seq<StageView>, stages2: seq<StageView>, baseDir: string)
    requires Rebuilt(stages, stages2) && PipelineSeparate(stages, baseDir)
    ensures PipelineSeparate(stages2, baseDir)
  {
    forall k, l | 0 <= k < |stages2| && 0 <= l < |stages2|
      ensures SeparateFrom(stages2[k].jobs, stages2[l].jobs, baseDir)
    {
      SameNamesSeparateFrom(stages[k].jobs, stages[l].jobs, stages2[k].jobs, stages2[l].jobs, baseDir);
    }
  }

  /** No two names of the pipeline share a future, within a stage or across two stages: every
      stage's constructor allocates a future of its own for each executable. */
  predicate DistinctFutures(stages: seq<StageView>)
  {
    (forall k :: 0 <= k < |stages| ==> OneFuturePerName(stages[k].resolvers))
    && forall k, l, a, b :: 0 <= k < l < |stages| && a in stages[k].resolvers && b in stages[l].resolvers ==>
         stages[k].resolvers[a] != stages[l].resolvers[b]
  }

  /** Every job of every stage is resolved from its checkpoint, as ResolvedFrom says for one stage. */
  predicate StagesResolvedFrom(stages: seq<StageView>, baseDir: string, fs: FsState, start: Env, env: Env)
  {
    forall k :: 0 <= k < |stages| ==> ResolvedFrom(stages[k].jobs, stages[k].resolvers, baseDir, fs, start, env)
  }

  /** Every future that differs between the two snapshots has a resolver in one of the stages. */
  predicate OnlyPipelineFutures(stages: seq<StageView>, start: Env, env: Env)
  {
    forall c :: c in env.Keys + start.Keys && Lookup(env, c) != Lookup(start, c) ==>
      exists k, a :: 0 <= k < |stages| && a in stages[k].resolvers && stages[k].resolvers[a] == c
  }

  /** The stages before stage n leave its futures as they found them. */
  lemma StageFuturesUntouched(stages: seq<StageView>, n: nat, start: Env, mid: Env)
    requires n < |stages| && DistinctFutures(stages) && OnlyPipelineFutures(stages[..n], start, mid)
    ensures forall a :: a in stages[n].resolvers ==> Lookup(mid, stages[n].resolvers[a]) == Lookup(start, stages[n].resolvers[a])
  {
    forall a | a in stages[n].resolvers
      ensures Lookup(mid, stages[n].resolvers[a]) == Lookup(start, stages[n].resolvers[a])
    {
      var c := stages[n].resolvers[a];
      forall k, b | 0 <= k < n && b in stages[..n][k].resolvers
        ensures stages[..n][k].resolvers[b] != c
      {
        assert stages[..n][k] == stages[k];
      }
    }
  }

  /** One more stage: the futures it changes are its own. */
  lemma PipelineFuturesStep(stages: seq<StageView>, start: Env, mid: Env, env: Env)
    requires stages != [] && OnlyPipelineFutures(stages[..|stages| - 1], start, mid)
    requires var s := stages[|stages| - 1]; OnlyTheirFutures(s.jobs, s.resolvers, mid, env)
    ensures OnlyPipelineFutures(stages, start, env)
  {
    var n := |stages| - 1;
    var s := stages[n];
    forall c | c in env.Keys + start.Keys && Lookup(env, c) != Lookup(start, c)
      ensures exists k, a :: 0 <= k < |stages| && a in stages[k].resolvers && stages[k].resolvers[a] == c
    {
      if Lookup(env, c) != Lookup(mid, c) {
        var i :| 0 <= i < |s.jobs| && s.jobs[i].fullName in s.resolvers && s.resolvers[s.jobs[i].fullName] == c;
        assert stages[n].resolvers[s.jobs[i].fullName] == c;
      } else {
        var k, a :| 0 <= k < n && a in stages[..n][k].resolvers && stages[..n][k].resolvers[a] == c;
        assert stages[k] == stages[..n][k];
      }
    }
  }

  /** After the stages succeed, the future of every job that was pending holds the list its
      checkpoint reads back, provided no two names share a future and no data file lands on a
      record; the only futures that change are the pipeline's. */
  lemma {:induction false} StagesResolveFrom(stages: seq<StageView>, baseDir: string, cells: Env, fs: FsState, logs: Logs)
    requires PipelineSeparate(stages, baseDir) && DistinctFutures(stages)
    requires StagesSpec(stages, baseDir, cells, fs, logs).0.Ok?
    ensures var r := StagesSpec(stages, baseDir, cells, fs, logs);
      StagesResolvedFrom(stages, baseDir, r.2, cells, r.1) && OnlyPipelineFutures(stages, cells, r.1)
    decreases |stages|
  {
    if stages != [] {
      var n := |stages| - 1;
      var before := StagesSpec(stages[..n], baseDir, cells, fs, logs);
      var s := stages[n];
      var ran := StageSpec(s.jobs, s.resolvers, baseDir, s.run, before.1, before.2, LogOf(before.3, s.executor));
      StagesLast(stages, baseDir, cells, fs, logs);
      var r := StagesSpec(stages, baseDir, cells, fs, logs);
      assert before.0.Ok? && ran.0.Ok? && r.1 == ran.1 && r.2 == ran.2;
      PrefixSeparateDistinct(stages, baseDir);
      StagesResolveFrom(stages[..n], baseDir, cells, fs, logs);
      StageResolvesWithin(stages, baseDir, cells, before.1, before.2, LogOf(before.3, s.executor));
      EarlierStagesResolved(stages, baseDir, cells, before.1, before.2, LogOf(before.3, s.executor));
    }
  }

  /** The stages before the last keep the pipeline's conditions. */
  lemma PrefixSeparateDistinct(stages: seq<StageView>, baseDir: string)
    requires stages != [] && PipelineSeparate(stages, baseDir) && DistinctFutures(stages)
    ensures PipelineSeparate(stages[..|stages| - 1], baseDir) && DistinctFutures(stages[..|stages| - 1])
  {
    PrefixSeparate(stages, baseDir);
    var n := |stages| - 1;
    forall k | 0 <= k < n
      ensures stages[..n][k] == stages[k]
    {
    }
  }

  lemma PrefixSeparate(stages: seq<StageView>, baseDir: string)
    requires stages != [] && PipelineSeparate(stages, baseDir)
    ensures PipelineSeparate(stages[..|stages| - 1], baseDir)
  {
    var n := |stages| - 1;
    forall k | 0 <= k < n
      ensures stages[..n][k] == stages[k]
    {
    }
  }

  /** The last stage keeps every earlier stage's jobs resolved. */
  lemma EarlierStagesResolved(stages: seq<StageView>, baseDir: string, start: Env, mid: Env, fs: FsState, log: seq<Call>)
    requires stages != [] && PipelineSeparate(stages, baseDir)
    requires StagesResolvedFrom(stages[..|stages| - 1], baseDir, fs, start, mid)
    requires var s := stages[|stages| - 1]; StageSpec(s.jobs, s.resolvers, baseDir, s.run, mid, fs, log).0.Ok?
    ensures var s := stages[|stages| - 1];
      var ran := StageSpec(s.jobs, s.resolvers, baseDir, s.run, mid, fs, log);
      forall k :: 0 <= k < |stages| - 1 ==> ResolvedFrom(stages[k].jobs, stages[k].resolvers, baseDir, ran.2, start, ran.1)
  {
    var n := |stages| - 1;
    forall k | 0 <= k < n
      ensures ResolvedFrom(stages[k].jobs, stages[k].resolvers, baseDir, StageSpec(stages[n].jobs, stages[n].resolvers, baseDir, stages[n].run, mid, fs, log).2,
                           start, StageSpec(stages[n].jobs, stages[n].resolvers, baseDir, stages[n].run, mid, fs, log).1)
    {
      assert stages[..n][k] == stages[k];
      StageKeepsResolved(stages, k, baseDir, start, mid, fs, log);
    }
  }

  /** The last stage resolves its own jobs from the pipeline's starting futures. */
  lemma StageResolvesWithin(stages: seq<StageView>, baseDir: string, start: Env, mid: Env, fs: FsState, log: seq<Call>)
    requires stages != [] && PipelineSeparate(stages, baseDir) && DistinctFutures(stages)
    requires OnlyPipelineFutures(stages[..|stages| - 1], start, mid)
    requires var s := stages[|stages| - 1]; StageSpec(s.jobs, s.resolvers, baseDir, s.run, mid, fs, log).0.Ok?
    ensures var s := stages[|stages| - 1];
      var ran := StageSpec(s.jobs, s.resolvers, baseDir, s.run, mid, fs, log);
      ResolvedFrom(s.jobs, s.resolvers, baseDir, ran.2, start, ran.1) && OnlyPipelineFutures(stages, start, ran.1)
  {
    var n := |stages| - 1;
    var s := stages[n];
    var ran := StageSpec(s.jobs, s.resolvers, baseDir, s.run, mid, fs, log);
    assert SeparateFrom(stages[n].jobs, stages[n].jobs, baseDir);
    StageResolvesFrom(s.jobs, s.resolvers, baseDir, s.run, mid, fs, log);
    StageFuturesUntouched(stages, n, start, mid);
    ResolvedFromStart(s.jobs, s.resolvers, baseDir, ran.2, start, mid, ran.1);
    PipelineFuturesStep(stages, start, mid, ran.1);
  }

  /** The last stage keeps an earlier stage's jobs resolved: it does not touch their records and
      a settled future stays settled. */
  lemma StageKeepsResolved(stages: seq<StageView>, k: nat, baseDir: string, start: Env, mid: Env, fs: FsState, log: seq<Call>)
    requires k < |stages| - 1 && PipelineSeparate(stages, baseDir)
    requires ResolvedFrom(stages[k].jobs, stages[k].resolvers, baseDir, fs, start, mid)
    requires var s := stages[|stages| - 1]; StageSpec(s.jobs, s.resolvers, baseDir, s.run, mid, fs, log).0.Ok?
    ensures var s := stages[|stages| - 1];
      var ran := StageSpec(s.jobs, s.resolvers, baseDir, s.run, mid, fs, log);
      ResolvedFrom(stages[k].jobs, stages[k].resolvers, baseDir, ran.2, start, ran.1)
  {
    var s := stages[|stages| - 1];
    var ran := StageSpec(s.jobs, s.resolvers, baseDir, s.run, mid, fs, log);
    ResolvedReplayable(stages[k].jobs, stages[k].resolvers, baseDir, fs, start, mid);
    assert SeparateFrom(stages[k].jobs, s.jobs, baseDir);
    StageKeepsRecords(s.jobs, s.resolvers, baseDir, s.run, mid, fs, log, stages[k].jobs, stages[k].resolvers);
    StageFrame(s.jobs, s.resolvers, baseDir, s.run, mid, fs, log);
    ResolvedFromStays(stages[k].jobs, stages[k].resolvers, baseDir, start, fs, mid, ran.2, ran.1);
  }

  /** Idempotence: running a pipeline a second time after it succeeded, as a pipeline rebuilt from
      the same description with futures of its own, resolves every future of the second run that
      was pending with the very list the first run resolved the same job's future with (both are
      the list the job's checkpoint reads back), while making no remote call and writing nothing. */
  lemma PipelineRerunSameLists(id: string, stages: seq<StageView>, baseDir: string, fs: FsState, cells: Env, logs: Logs,
                               stages2: seq<StageView>, cells2: Env, logs2: Logs)
    requires PipelineSeparate(stages, Join(baseDir, id)) && Rebuilt(stages, stages2)
    requires DistinctFutures(stages) && DistinctFutures(stages2)
    requires PipelineSpec(id, stages, baseDir, fs, cells, logs).1.Ok?
    requires forall k :: 0 <= k < |stages2| ==> stages2[k].executor in logs2
    ensures var first := PipelineSpec(id, stages, baseDir, fs, cells, logs);
      var again := PipelineSpec(id, stages2, baseDir, first.3, cells2, logs2);
      again.1.Ok? && again.3 == first.3 && again.4 == logs2
      && StagesResolvedFrom(stages, first.0, first.3, cells, first.2)
      && StagesResolvedFrom(stages2, first.0, first.3, cells2, again.2)
  {
    var b := Join(baseDir, id);
    var init := InitSpec(baseDir, fs, id);
    var first := PipelineSpec(id, stages, baseDir, fs, cells, logs);
    PipelineRerunMakesNoCalls(id, stages, baseDir, fs, cells, logs, stages2, cells2, logs2);
    InitOkExists(baseDir, fs, id);
    StagesFrame(stages, b, cells, init.1, logs);
    assert Exists(first.3, b) && InitSpec(baseDir, first.3, id).1 == first.3;
    StagesResolveFrom(stages, b, cells, init.1, logs);
    RebuiltSeparate(stages, stages2, b);
    StagesResolveFrom(stages2, b, cells2, first.3, logs2);
  }

  /** init on the pipeline's checkpointer: stages, executables, executors and futures stay as they are. */
  method InitOf(cp: FsCheckpointer, id: string, ghost others: seq<Stage>, ghost ops: set<Executable>,
                ghost ctxs: set<WorkContext>, ghost keys: set<Cell>)
    returns (r: Outcome<()>)
    modifies cp
    ensures (cp.baseDir, cp.fs, r) == InitSpec(old(cp.baseDir), old(cp.fs), id)
    ensures unchanged(others) && unchanged(ops) && unchanged(ctxs) && unchanged(keys)
  {
    r := cp.Init(id);
  }

  /** Stage.run of one stage, as StageRunSpec gives it, after stages whose outcome is `sofar`. */
  method RunStageOf(s: Stage, sofar: Outcome<()>, ghost view: StageView, ghost now: Env, ghost nowLogs: Logs,
                    ghost others: seq<Stage>, ghost ops: set<Executable>)
    returns (r: Outcome<()>, ghost cells': Env, ghost logs': Logs)
    requires s.checkPointer != null && view == ViewOf(s)
    requires Agrees(now, now.Keys) && s.deferedOutputs.Values <= now.Keys
    requires forall i :: 0 <= i < |s.runnables| ==> s.runnables[i].Awaits() <= now.Keys
    requires s.taskExecutor in nowLogs && nowLogs[s.taskExecutor] == s.taskExecutor.log
    modifies s.taskExecutor, s.checkPointer, now.Keys
    ensures s.checkPointer.baseDir == old(s.checkPointer.baseDir)
    ensures var ran := StageRunSpec(view, s.checkPointer.baseDir, now, old(s.checkPointer.fs), nowLogs);
      (r, cells', s.checkPointer.fs, logs') == (FirstError(sofar, ran.0), ran.1, ran.2, ran.3)
    ensures logs' == nowLogs[s.taskExecutor := s.taskExecutor.log]
    ensures Agrees(cells', cells'.Keys) && cells'.Keys == now.Keys
    ensures unchanged(others) && unchanged(ops)
  {
    var step;
    step, cells' := s.Run(view.jobs, now);
    logs' := nowLogs[s.taskExecutor := s.taskExecutor.log];
    r := FirstError(sofar, step);
  }

  class Pipeline {
    const id: string
    const checkPointer: FsCheckpointer
    const stages: seq<Stage>

    /** Every stage checkpoints through the pipeline's checkpointer. */
    predicate Wired()
      reads stages
    {
      forall k :: 0 <= k < |stages| ==> stages[k].checkPointer == checkPointer
    }

    /** The task executors of the stages. */
    function Executors(): set<WorkContext>
    {
      set k | 0 <= k < |stages| :: stages[k].taskExecutor
    }

    /** Every future a job waits for and every resolver is among `keys`. */
    predicate Covered(keys: set<Cell>)
      reads stages
    {
      forall k :: 0 <= k < |stages| ==>
        stages[k].deferedOutputs.Values <= keys
        && forall i :: 0 <= i < |stages[k].runnables| ==> stages[k].runnables[i].Awaits() <= keys
    }

    /** The executables of all stages. */
    function Runnables(): set<Executable>
    {
      set k, i | 0 <= k < |stages| && 0 <= i < |stages[k].runnables| :: stages[k].runnables[i]
    }

    /** The stages as values. */
    ghost predicate ViewsOf(views: seq<StageView>)
      reads stages, Runnables()
    {
      |views| == |stages| && forall k :: 0 <= k < |stages| ==> views[k] == ViewOf(stages[k])
    }

    /** The constructor hands the pipeline's checkpointer to every stage and changes nothing else. */
    constructor (id: string, checkPointer: FsCheckpointer, stages: seq<Stage>)
      modifies set k | 0 <= k < |stages| :: stages[k]
      ensures this.id == id && this.checkPointer == checkPointer && this.stages == stages
      ensures Wired()
      ensures forall k :: 0 <= k < |stages| ==>
        stages[k].outputs == old(stages[k].outputs) && stages[k].deferedOutputs == old(stages[k].deferedOutputs)
    {
      this.id := id;
      this.checkPointer := checkPointer;
      this.stages := stages;
      new;
      var i := 0;
      while i < |stages|
        invariant 0 <= i <= |stages|
        invariant forall k :: 0 <= k < i ==> stages[k].checkPointer == checkPointer
        invariant forall k :: 0 <= k < |stages| ==>
          stages[k].outputs == old(stages[k].outputs) && stages[k].deferedOutputs == old(stages[k].deferedOutputs)
      {
        stages[i].checkPointer := checkPointer;
        i := i + 1;
      }
    }

    /** run: init(id) first; the stages only when it succeeded. */
    method Run(ghost views: seq<StageView>, ghost cells: Env, ghost logs: Logs)
      returns (r: Outcome<()>, ghost cells': Env, ghost logs': Logs)
      requires Wired() && ViewsOf(views)
      requires Agrees(cells, cells.Keys) && Covered(cells.Keys)
      requires LogsAgree(logs, Executors())
      modifies checkPointer, Executors(), cells.Keys
      ensures (checkPointer.baseDir, r, cells', checkPointer.fs, logs')
           == PipelineSpec(id, views, old(checkPointer.baseDir), old(checkPointer.fs), cells, logs)
      ensures Agrees(cells', cells'.Keys) && cells'.Keys == cells.Keys && LogsAgree(logs', Executors())
    {
      var init := InitOf(checkPointer, id, stages, Runnables(), Executors(), cells.Keys);
      if init.Err? {
        return init, cells, logs;
      }
      r, cells', logs' := RunStages(views, cells, logs);
    }

    /** The stages of run, after init succeeded. */
    method RunStages(ghost views: seq<StageView>, ghost cells: Env, ghost logs: Logs)
      returns (r: Outcome<()>, ghost cells': Env, ghost logs': Logs)
      requires Wired() && ViewsOf(views)
      requires Agrees(cells, cells.Keys) && Covered(cells.Keys)
      requires LogsAgree(logs, Executors())
      modifies checkPointer, Executors(), cells.Keys
      ensures checkPointer.baseDir == old(checkPointer.baseDir)
      ensures (r, cells', checkPointer.fs, logs') == StagesSpec(views, checkPointer.baseDir, cells, old(checkPointer.fs), logs)
      ensures Agrees(cells', cells'.Keys) && cells'.Keys == cells.Keys && LogsAgree(logs', Executors())
    {
      r, cells', logs' := Ok(()), cells, logs;
      ghost var baseDir, fs0 := checkPointer.baseDir, checkPointer.fs;
      var k := 0;
      while k < |stages|
        invariant 0 <= k <= |stages|
        invariant checkPointer.baseDir == baseDir
        invariant Wired() && ViewsOf(views) && Covered(cells'.Keys)
        invariant (r, cells', checkPointer.fs, logs') == StagesSpec(views[..k], baseDir, cells, fs0, logs)
        invariant Agrees(cells', cells'.Keys) && cells'.Keys == cells.Keys && LogsAgree(logs', Executors())
      {
        r, cells', logs' := RunStage(k, views, cells, fs0, logs, r, cells', logs');
        k := k + 1;
      }
      assert views[..k] == views;
    }

    /** One more stage of run, from the state the first k left, whose outcome so far is `sofar`. */
    method RunStage(k: nat, ghost views: seq<StageView>, ghost cells: Env, ghost fs0: FsState, ghost logs: Logs,
                    sofar: Outcome<()>, ghost now: Env, ghost nowLogs: Logs)
      returns (r: Outcome<()>, ghost cells': Env, ghost logs': Logs)
      requires k < |stages| && Wired() && ViewsOf(views)
      requires var before := StagesSpec(views[..k], checkPointer.baseDir, cells, fs0, logs);
        before.0 == sofar && before.1 == now && before.2 == checkPointer.fs && before.3 == nowLogs
      requires Agrees(now, now.Keys) && Covered(now.Keys) && LogsAgree(nowLogs, Executors())
      modifies checkPointer, stages[k].taskExecutor, now.Keys
      ensures checkPointer.baseDir == old(checkPointer.baseDir)
      ensures Wired() && ViewsOf(views) && Covered(now.Keys)
      ensures (r, cells', checkPointer.fs, logs') == StagesSpec(views[..k + 1], checkPointer.baseDir, cells, fs0, logs)
      ensures Agrees(cells', cells'.Keys) && cells'.Keys == now.Keys && LogsAgree(logs', Executors())
    {
      StagesStep(views, k, checkPointer.baseDir, cells, fs0, logs, sofar, now, checkPointer.fs, nowLogs);
      r, cells', logs' := RunStageOf(stages[k], sofar, views[k], now, nowLogs, stages, Runnables());
    }

    /** visualize: does nothing. */
    method Visualize()
    {
    }
  }
}

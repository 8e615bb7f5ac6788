# Pipeline orchestration engine, modelled in Dafny

This project models the orchestration core of a small TypeScript engine. The engine runs
data-processing pipelines as remote tasks on a Golem-style compute network. It is built from
the following entities:

- A **Pipeline** is a named list of **Stages** that share one **Checkpointer**.
- A Stage is a named group of **Executables** that share one remote task executor.
- An Executable uploads its program and its **Inputs**, runs one command remotely, and returns
  one of two results:
  - the command's standard output (`ExecutableToStdout`);
  - the local paths of the files the command lists on its output, each downloaded in turn
    (`ExecutableToFiles`).
- Every Executable owns a deferred future. The future is resolved with the list of paths that
  the Checkpointer recorded. An Input of a later Executable can wait on such a future, and
  this is how data flows between Executables.
- Before running an Executable, its Stage checks whether a checkpoint already exists under the
  Executable's qualified name `stage::name`. If one exists, the Stage replays it instead of
  running the Executable again. Re-running a pipeline therefore resumes where it stopped.

Modules follow the source files:

| module | file | source |
|---|---|---|
| `Checkpointers` | `checkpointers.dfy` | `src/Checkpointers.ts` |
| `Executables` | `executables.dfy` | `src/Executables.ts` |
| `Inputs` | `inputs.dfy` | `src/Inputs.ts` |
| `Helpers` | `helpers.dfy` | `src/helpers.ts` |
| `Stages` | `stages.dfy` | `src/Stage.ts` |
| `Pipelines` | `pipelines.dfy` | `src/Pipeline.ts` |

Support modules model the libraries the core calls:

- `Paths` and `Text` (in `paths.dfy`) model the parts of `node:path` the core uses, plus
  `Array.join`, `String.split` and the blank-entry filter.
- `Json` (in `json.dfy`) models `JSON.stringify` and `JSON.parse` on lists of strings.
- `Remote` (in `remote.dfy`) models the Golem work context as an oracle. A remote call's
  reply is a fixed function of the call and of its position in the executor's call log. The
  context keeps the log.
- `Outcomes` (in `outcomes.dfy`) holds `Option`, `Outcome` (a value or an error) and the
  error kinds. A thrown exception becomes an `Err`.

Where the source changes state, the model does too:

- The checkpointer is a class whose file system (`FsState`: files and directories) and base
  directory are fields.
- Executables, stages, the pipeline and the futures are classes.
- Each method is proved equal to a pure `*Spec` function of the old state; for example,
  `Stage.Run` equals `StageSpec` and `Pipeline.Run` equals `PipelineSpec`.
- The properties are proved about those functions.

The futures are tracked by a ghost snapshot `Env` of their settlements, and the executors'
call logs by a ghost map `Logs`.

The main results are:

- **Resumption** (`Stages.RerunMakesNoCalls`, `Pipelines.PipelineRerunMakesNoCalls`): after a
  successful run, running the same pipeline again on the resulting file system succeeds with no
  remote call on any executor, and writes nothing.
- **Across runs, no job runs twice, and a replay gives the same lists**
  (`Stages.RerunOperationSameList`, `Stages.RerunSameLists`, `Pipelines.PipelineRerunSameLists`).
  A pipeline rebuilt with new futures and run again on the first run's file system resolves
  every future with the list that the first run resolved the future of the same name with.
- **Every job runs; the first error is kept** (`Stages.StageKeepsFirstError`,
  `Stages.SucceededJobCheckpointed`, `Pipelines.SucceededJobStaysCheckpointed`). A job whose
  operation succeeded is checkpointed with a settled future even when a sibling failed.
- **run completes only after every operation has been checkpointed and its future settled**
  (`Stages.StageOkCheckpointed`, `Pipelines.StagesOkCheckpointed`).
- **Checkpoint round trip**: a save reads back as exactly the list the save returned
  (`Checkpointers.SaveThenRead`, built on `Json.DecodeEncode`).
- **Call order**: arguments are uploaded in declared order and files downloaded in manifest
  order, each call one to four times (`Executables.ResolveArgsInOrder`,
  `Executables.DownloadsInOrder`).
- **Retry**: the retry combinator is characterised exactly (`Helpers.RetrySpec`,
  `Helpers.RetryStopsAtFirstSuccess`).

## Model

Source cells are paths into the original repository.

| member | source | states |
|---|---|---|
| Checkpointers.WriteFile | src/Checkpointers.ts:36-40 | a write succeeds exactly when the parent directory exists and no directory occupies the path; it then sets that one file and leaves the directories alone, otherwise it fails with WriteFailed; it keeps the file system consistent |
| Checkpointers.MakeDirs | src/Checkpointers.ts:22 | a recursive mkdir succeeds exactly when no ancestor of the path is a file; it then adds every ancestor as a directory and no file, otherwise it fails with MkdirFailed |
| Checkpointers.InitSpec | src/Checkpointers.ts:18-24 | the base directory becomes join(base, id) whether or not it can be created; files are untouched and directories only added; on success the directory exists (or a file already stood there); an existing path is left as it is and init succeeds |
| Checkpointers.SaveSpec | src/Checkpointers.ts:31-45 | a url list is recorded as its JSON and returned; a stdout text goes to `<record>.data` and the record lists that one path, which is returned; success exactly when both writes are possible; nothing outside the record and data file changes and no file disappears |
| Checkpointers.ReadSpec | src/Checkpointers.ts:26-29 | a missing record is a ReadFailed error; a present record reads as Ok exactly when it decodes, and then as the decoded list; a present record that does not decode is a Corrupt error |
| Checkpointers.SaveThenRead | src/Checkpointers.ts:26-45 | after a successful save the checkpoint exists and reads back as exactly the returned list |
| Checkpointers.SaveKeepsExisting | src/Checkpointers.ts:31-49 | saving never removes an existing checkpoint |
| Checkpointers.SaveLeavesOthers | src/Checkpointers.ts:31-45 | saving one name leaves the read result of every name untouched unless its record is the saved record or data path |
| Checkpointers.DataPathIsRecordPath | src/Checkpointers.ts:32-35 | the data file of name n is exactly the record path of the name `n.data` |
| Checkpointers.InitThenSave | src/Checkpointers.ts:18-45 | after a successful init, a plain name with no directory in the way can be saved |
| Checkpointers.InitTwiceNests | src/Checkpointers.ts:18-19 | calling init twice with the same id nests the id twice in the base directory |
| Checkpointers.FsCheckpointer.constructor | src/Checkpointers.ts:16 | stores the base directory, with the file system given |
| Checkpointers.FsCheckpointer.Init | src/Checkpointers.ts:18-24 | the new base directory and file system are those of InitSpec |
| Checkpointers.FsCheckpointer.ReadCheckpoint | src/Checkpointers.ts:26-29 | the result is ReadSpec of the current state, and nothing changes |
| Checkpointers.FsCheckpointer.SaveCheckpoint | src/Checkpointers.ts:31-45 | result and new file system are SaveSpec's; the base directory is kept |
| Checkpointers.FsCheckpointer.DoCheckPointExists | src/Checkpointers.ts:47-49 | true exactly when a file or directory stands at the record path; reads only |
| Checkpointers.ExistsSpec | src/Checkpointers.ts:47-49 | a checkpoint that reads back exists; a name with no checkpoint reads as ReadFailed on its record path |
| Executables.QualifiedName | src/Executables.ts:30-32 | the name is the prefix, then "::", then the name, character for character |
| Executables.QualifiedNameInjective | src/Executables.ts:30-32 | with no ':' in the stage names, a qualified name determines its prefix and name |
| Executables.QualifiedNameAmbiguous | src/Executables.ts:30-32 | `a::b` + `c` and `a` + `b::c` have the same qualified name |
| Executables.Command | src/Executables.ts:38-45 | with an interpreter the line is `interp prog args`; without one (undefined or empty) it is `chmod +x prog && chmod 777 prog && prog args`; either way it ends in the program and the space-joined arguments |
| Executables.ParseManifest | src/Executables.ts:96 | every manifest entry is non-empty and holds no newline |
| Executables.ManifestKeepsLines | src/Executables.ts:96 | an output printed line by line gives exactly its non-empty lines, in order, wherever blank lines stand |
| Executables.ManifestOfNewline | src/Executables.ts:96 | an output that is a single newline lists no file |
| Executables.ManifestOfLines | src/Executables.ts:96 | output that prints the paths one per line gives back exactly those paths |
| Executables.ManifestOfTerminatedLines | src/Executables.ts:96 | the same holds when the last line ends in a newline |
| Executables.Targets | src/Executables.ts:99-103 | one local path per manifest entry |
| Executables.TargetsAt | src/Executables.ts:108-113 | entry i goes to outputs/<qualified name>/<base name of entry i> |
| Executables.Values | src/Executables.ts:51-53 | one value per declared input |
| Executables.ValuesAt | src/Executables.ts:51-53 | argument i is the value of input i |
| Executables.ResolveArgs | src/Executables.ts:49-53 | the arguments loop only appends to the call log; on success its arguments are the inputs' values in declared order |
| Executables.ResolveArgsStep | src/Executables.ts:51-53 | one more turn of the loop uploads the next input after the earlier ones, and the first failure is the loop's |
| Executables.ResolveArgsSticky | src/Executables.ts:51-53 | a failing prefix of the inputs decides the whole loop, outcome and log |
| Executables.ResolveArgsLast | src/Executables.ts:51-53 | in a successful loop the last input made no call (an ArgInput) or one to four uploads (a FileInput), after all earlier calls |
| Executables.ResolveArgsInOrder | src/Executables.ts:48-53 | a successful loop's calls are exactly input 0's, then input 1's, and so on, each FileInput attempted one to four times and each ArgInput never |
| Executables.ExecSpec | src/Executables.ts:56-67 | one Exec call; success exactly when the reply returned with an empty message, and the result is its stdout |
| Executables.RunStdoutSpec | src/Executables.ts:47-79 | the run only appends calls; on success its last call is the command built from the program's and the inputs' values, and the result is that call's |
| Executables.RunStdoutAfterUploads | src/Executables.ts:47-79 | after the program and arguments are uploaded the run is exactly the Exec step on the command built from them |
| Executables.DownloadFileSpec | src/Executables.ts:108-133 | a retried download (three retries); success exactly when the last reply returned with no message; the result is the target path |
| Executables.DownloadAll | src/Executables.ts:99-103 | the download loop only appends calls; on success the paths are the targets of the manifest |
| Executables.DownloadAllStep | src/Executables.ts:99-103 | one more download after the earlier ones; the first failure is the loop's |
| Executables.DownloadAllUnfold | src/Executables.ts:99-103 | the loop over a non-empty manifest is the loop over all but its last entry, then the last download only when no earlier one failed |
| Executables.DownloadAllSticky | src/Executables.ts:99-103 | a failing prefix of the manifest decides the whole loop: no later download happens |
| Executables.DownloadAllLast | src/Executables.ts:99-103 | the last download of a successful loop is attempted one to four times after all the earlier ones |
| Executables.DownloadsInOrder | src/Executables.ts:98-103 | downloads happen strictly in manifest order, each file one to four times |
| Executables.RunFilesSpec | src/Executables.ts:89-106 | the files run only appends calls; on success the text run succeeded and the result is the targets of its manifest |
| Executables.RunFilesAfterText | src/Executables.ts:89-106 | once the text run succeeded, the files run is the download loop over its manifest |
| Executables.RunSpec | src/Executables.ts:47-106 | running only appends calls; the stdout variant returns text and the files variant a path list |
| Executables.Executable.constructor | src/Executables.ts:21-28 | stores name, program, inputs and interpreter, with an empty prefix |
| Executables.Executable.SetPrefix | src/Executables.ts:34-36 | the prefix becomes the one given and nothing else changes |
| Executables.Executable.Awaits | src/Executables.ts:48-53 | the futures of the program and of every input are among those that run waits for |
| Executables.Executable.Run | src/Executables.ts:47-106 | result and call log are RunSpec's for this executable and the current futures |
| Executables.Executable.RunToStdout | src/Executables.ts:47-79 | result and call log are RunStdoutSpec's |
| Executables.Executable.UploadInputs | src/Executables.ts:49-53 | the arguments loop: result and call log are ResolveArgs's over all the inputs |
| Executables.Executable.UploadNext | src/Executables.ts:51-53 | one turn of the arguments loop: result and call log are ResolveArgs's over one more input |
| Executables.Executable.RunCommand | src/Executables.ts:56-67 | result and call log are ExecSpec's |
| Executables.Executable.DownloadFile | src/Executables.ts:108-133 | result and call log are DownloadFileSpec's |
| Helpers.Settle | src/helpers.ts:1-11 | settling gives a settled promise; only the first settlement takes effect |
| Helpers.Deferred.constructor | src/helpers.ts:1-11 | a new promise is pending |
| Helpers.Deferred.Resolve | src/helpers.ts:5-10 | resolve settles a pending promise with the value and leaves a settled one alone |
| Helpers.Deferred.Reject | src/helpers.ts:5-10 | reject settles a pending promise as rejected and leaves a settled one alone |
| Helpers.RetrySpec | src/helpers.ts:13-23 | between one and retries + 1 identical calls are made; every attempt but the last threw; the reply is the last attempt's; a throwing reply means every attempt was used |
| Helpers.Retry | src/helpers.ts:13-23 | reply and call log are RetrySpec's |
| Helpers.RetryOnce | src/helpers.ts:14-21 | with no retries left the call is made exactly once |
| Helpers.RetryStopsAtFirstSuccess | src/helpers.ts:13-23 | if attempt k is the first that does not throw, its reply is returned after exactly k + 1 calls |
| Inputs.Cells | src/Inputs.ts:18-23 | the futures of a list of inputs include those of each input |
| Inputs.HostValue | src/Inputs.ts:19-22 | a plain host path is used as it is |
| Inputs.Await | src/Inputs.ts:22 | awaiting a host path gives HostValue of the current future states |
| Inputs.Destination | src/Inputs.ts:29-30 | a file lands at /golem/input/ followed by its base name, and the base name is kept whenever it is non-empty |
| Inputs.Value | src/Inputs.ts:13-23 | an ArgInput's value splits at spaces back into its words when no word holds a space; an available FileInput's value is /golem/input/ followed by the base name of its host path, which it keeps whenever it is non-empty |
| Inputs.UploadFileSpec | src/Inputs.ts:25-46 | a retried upload (three retries) of moduleDir/path; success exactly when the last reply returned with no message; the result is the destination |
| Inputs.UploadSpec | src/Inputs.ts:10-23 | only appends calls; an ArgInput gives its words joined by spaces with no call; a FileInput whose host path is not available makes no call; otherwise it is UploadFileSpec; a value is Value |
| Inputs.UploadToProvider | src/Inputs.ts:13-23 | result and call log are UploadSpec's |
| Inputs.UploadFile | src/Inputs.ts:25-46 | result and call log are UploadFileSpec's |
| Inputs.SameBasenameSameDestination | src/Inputs.ts:29-30 | two host files with the same base name are uploaded to the same place |
| Json.DecodeEncode | src/Checkpointers.ts:28-40 | what stringify writes for a list of strings, parse reads back unchanged |
| Json.Encode | src/Checkpointers.ts:38 | stringify writes printable text between "[" and "]", and "[]" exactly for the empty list; DecodeEncode is its inverse |
| Json.Decode | src/Checkpointers.ts:28 | a list parses only from text that starts with "[", and the empty list exactly from "[]" |
| Json.Escape | src/Checkpointers.ts:38 | the escaped body of a string is printable and no shorter than the string |
| Json.EscapeParses | src/Checkpointers.ts:28-40 | the escaped body of a string is read back to the string |
| Json.ItemsParse | src/Checkpointers.ts:28-40 | the items of a non-empty list are read back to the list |
| Paths.Join | src/Checkpointers.ts:19 | an empty part disappears; otherwise the result starts with the first part and ends with the second, and is longer than both |
| Paths.Basename | src/Inputs.ts:29 | the base name has no "/" in it; a path without "/" is its own base name |
| Paths.TrimSlashes | src/Inputs.ts:29 | dropping trailing separators leaves a prefix of the path that is empty or does not end in "/" |
| Paths.TrimDropsSlashes | src/Inputs.ts:29 | only "/" characters are dropped from the end |
| Paths.BasenameIsSuffix | src/Inputs.ts:29 | the base name is a suffix of the path once its trailing separators are dropped |
| Paths.TrailingSlashIgnored | src/Executables.ts:109-113 | a trailing "/" changes neither the base name nor the directory of a path |
| Paths.DirectoryBasename | src/Inputs.ts:29-30 | a directory "data/" has the base name "data", so it is uploaded to /golem/input/data |
| Paths.DirectoryDirname | src/Checkpointers.ts:36-40 | the directory of "a/b/" is "a" |
| Paths.Dirname | src/Checkpointers.ts:36-40 | the directory is a proper prefix of a non-empty path; trailing separators are ignored before the last "/" is looked for |
| Paths.Ancestors | src/Checkpointers.ts:22 | a recursive mkdir creates the path and only prefixes of it that end before a "/" |
| Paths.BasenameOfJoin | src/Executables.ts:109-113 | joining a base name onto a directory gives it back as the base name |
| Paths.DirnameOfJoin | src/Checkpointers.ts:19-37 | the directory of a joined path is the directory it was joined onto |
| Text.Split | src/Executables.ts:96 | split gives at least one piece and no piece holds the separator |
| Text.NonEmpty | src/Executables.ts:96 | the filter keeps only non-empty entries of the list, and all of them when none is empty |
| Text.NonEmptySingle | src/Executables.ts:96 | one entry is kept exactly when it is non-empty |
| Text.NonEmptyAppend | src/Executables.ts:96 | the filter distributes over concatenation, so the non-empty entries are kept in their order and only empty ones are dropped |
| Text.JoinSplit | src/Executables.ts:96 | joining the pieces of a split with the separator gives back the text |
| Text.SplitJoin | src/Executables.ts:96 | splitting pieces that hold no separator, once joined, gives back the pieces |
| Remote.WorkContext.constructor | src/Stage.ts:14 | a task executor starts with an empty call log |
| Remote.WorkContext.Perform | src/Executables.ts:56 | the reply is the substrate's answer to the call at its position in the log, and the call is appended to the log |
| Remote.Repeat | src/helpers.ts:13-23 | k copies of one call |
| Stages.ResolveIn | src/Stage.ts:44-56 | resolving a future in the snapshot settles it if it was pending and changes no other future |
| Stages.QualifiedNames | src/Stage.ts:17-18 | one qualified name per executable |
| Stages.QualifiedNamesAt | src/Stage.ts:17-18 | executable i is named `stage::name_i` |
| Stages.Views | src/Stage.ts:15 | one job per executable |
| Stages.ViewsAt | src/Stage.ts:15 | job i is executable i as a value |
| Stages.ResolversCover | src/Stage.ts:17-22 | every qualified name has a resolver, and every resolver is the future of an executable with that name |
| Stages.ResolverOfLast | src/Stage.ts:21 | a name no later executable holds resolves that executable's own future |
| Stages.ShadowedHasNoResolver | src/Stage.ts:21 | when a later executable has the same name, the earlier one's future is no resolver at all and is never resolved |
| Stages.OperationSpec | src/Stage.ts:41-57 | only the runner's calls are added to the log; on success the job has a resolver, a checkpoint exists and its future is settled |
| Stages.StageSpec | src/Stage.ts:29-39 | an empty stage succeeds and changes nothing; a one-job stage is that job's operation; longer stages unfold by StageLast |
| Stages.FailedRunLeavesNoTrace | src/Stage.ts:50-55 | a job whose run fails writes no checkpoint and settles no future; only its calls remain |
| Stages.RerunOperationSameList | src/Stage.ts:41-57 | after a success, running the operation again makes no call and writes nothing, and resolves its future with the very list the first run resolved it with |
| Stages.OperationResolves | src/Stage.ts:41-57 | a successful operation resolves its future with the list its checkpoint reads back, and a job that could already be read writes nothing |
| Stages.ResolversOneFuturePerName | src/Stage.ts:17-22 | with a distinct future per executable, as the constructor makes, no two qualified names share a resolver's future |
| Stages.ResolversStep | src/Stage.ts:17-21 | one more executable adds its qualified name, mapped to its own future, over the earlier entries |
| Stages.StageResolvesFrom | src/Stage.ts:29-57 | after a successful stage every job's checkpoint reads back, every job future pending at the start holds that list, and no other future changed |
| Stages.ResolvedStep | src/Stage.ts:33 | one more job resolved from its checkpoint keeps the earlier jobs resolved from theirs |
| Stages.ResolvedFromStays | src/Stage.ts:29-57 | jobs resolved from their checkpoints stay so while their reads stay the same and settled futures stay settled |
| Stages.RerunSameLists | src/Stage.ts:29-57 | running the stage again, with new futures for the same names and any runner and log, succeeds with no call and no write, and both runs resolve each pending future of a name with the list its checkpoint reads back |
| Stages.SameNamesReplayable | src/Stage.ts:42-48 | whether a stage can replay depends only on its job names and on which names have a resolver |
| Stages.OperationSaved | src/Stage.ts:50-56 | a job run and saved resolves its future with the list the checkpointer returned |
| Stages.StageLast | src/Stage.ts:33 | a stage run is the jobs before the last, then the last from the state they left, whether or not they succeeded; the first error is the stage's |
| Stages.OperationFrame | src/Stage.ts:41-57 | an operation only adds files, makes no directory, settles only a pending future that is a resolver, and a replayed job adds nothing to the file system or the log |
| Stages.StageFrame | src/Stage.ts:29-39 | the same for a whole stage |
| Stages.OnExecutorRuns | src/Stage.ts:50-52 | the executor's runner is Executable.run on its context, for every job, futures and log |
| Stages.OnExecutorAppends | src/Stage.ts:50-52 | running a job on the executor only appends calls |
| Stages.StageAppends | src/Stage.ts:29-39 | with such a runner, a stage run only appends calls |
| Stages.StageStep | src/Stage.ts:33 | after any prefix, one more job is that job's operation from the prefix's state, and the first error so far is kept |
| Stages.StageKeepsFirstError | src/Stage.ts:33 | once a prefix of the jobs has failed, the stage fails with that first error, although the later jobs still run |
| Stages.SucceededJobCheckpointed | src/Stage.ts:29-57 | a job whose operation succeeded is checkpointed, with a resolver and a settled future, at the end of the stage, whatever the other jobs did |
| Stages.StageKeepsCheckpointed | src/Stage.ts:33 | the jobs after a checkpointed one never undo its checkpoint or its settlement |
| Stages.OperationOkCheckpointed | src/Stage.ts:41-57 | a successful operation leaves its job checkpointed with a settled future |
| Stages.OperationKeepsCheckpointed | src/Stage.ts:41-57 | an operation, failed or not, keeps every checkpointed job checkpointed |
| Stages.OperationTouchesOwn | src/Stage.ts:41-57 | an operation changes no directory and no file except its own record and data file |
| Stages.StageUntouched | src/Stage.ts:29-57 | a path that is no job's record or data file is left by the stage as it was |
| Stages.StageCheckSeesStart | src/Stage.ts:42 | the existence check of job k sees the checkpoint as it stood when the stage started, when no earlier job writes to that record |
| Stages.StageOkCheckpointed | src/Stage.ts:29-39 | after a successful run every job has a resolver, a checkpoint and a settled future |
| Stages.CheckpointedStep | src/Stage.ts:33 | one more checkpointed job keeps the earlier ones checkpointed while files are only added |
| Stages.ResumeSkipsWork | src/Stage.ts:42-48 | when every job has a readable checkpoint, the stage succeeds with no remote call and no write |
| Stages.OperationWrites | src/Stage.ts:55 | a successful operation leaves a readable record and changes no file but its record and data file |
| Stages.StageOkReplayable | src/Stage.ts:29-57 | after a successful run every job has a readable checkpoint, when no data file lands on another's record |
| Stages.ReplayableStep | src/Stage.ts:33 | one more recorded job keeps the earlier records when its files miss them |
| Stages.RerunMakesNoCalls | src/Stage.ts:29-57 | running a stage again after it succeeded makes no remote call and writes nothing |
| Stages.OperationKeepsRecords | src/Stage.ts:55 | an operation keeps other jobs' records readable, each reading back the same list, unless its data file lands on one |
| Stages.StageKeepsRecords | src/Stage.ts:29-57 | a stage run keeps other stages' records readable, each reading back the same list, unless one of its data files lands on one |
| Stages.CheckpointedStays | src/Stage.ts:29-39 | checkpoints stay while files are only added and settled futures stay settled |
| Stages.ResolveCell | src/Stage.ts:44-56 | calling a resolver settles its future as Settle does, and the snapshot follows |
| Stages.Execute | src/Stage.ts:50-52 | the operation's result and call log are the executor runner's |
| Stages.Stage.constructor | src/Stage.ts:12-23 | every executable gets the stage name as prefix; one fresh, pending, distinct future per executable; the resolver table maps each qualified name to the future of the last executable that has it |
| Stages.Stage.RunOperation | src/Stage.ts:41-57 | outcome, futures, file system and log are OperationSpec's; without a checkpointer it fails, with no future and no call log changed |
| Stages.Stage.RunFresh | src/Stage.ts:50-56 | the not-checkpointed path of OperationSpec |
| Stages.Stage.RunNext | src/Stage.ts:33 | one more operation as StageStep gives it |
| Stages.Stage.Run | src/Stage.ts:29-39 | outcome, futures, file system and log are StageSpec's on the executor's runner; without a checkpointer an empty stage succeeds and any other fails, with no future and no call log changed |
| Stages.Stage.RunAll | src/Stage.ts:33 | the loop over the executables equals StageSpec |
| Pipelines.StageRunSpec | src/Pipeline.ts:19 | a stage's run changes only its own executor's log |
| Pipelines.StagesSpec | src/Pipeline.ts:19 | no stage succeeds and changes nothing; one stage is that stage's run; longer lists unfold by StagesLast |
| Outcomes.FirstError | src/Pipeline.ts:19 | the outcome of Promise.all in declared order: success exactly when both parts succeed, and otherwise the earlier part's error |
| Pipelines.PipelineSpec | src/Pipeline.ts:16-25 | the base directory becomes join(base, id); a failed init runs no stage: futures, files and logs are unchanged |
| Pipelines.StagesLast | src/Pipeline.ts:19 | the stages before the last, then the last from the state they left, whether or not they succeeded; the first error is the pipeline's |
| Pipelines.StagesStep | src/Pipeline.ts:19 | after any prefix, one more stage from the prefix's state, and the first error so far is kept |
| Pipelines.StagesKeepFirstError | src/Pipeline.ts:19 | once a prefix of the stages has failed, the pipeline fails with that first error, although the later stages still run |
| Pipelines.StagesOkEach | src/Pipeline.ts:19 | success means every stage ran to success from the state the earlier stages left |
| Pipelines.StagesFrame | src/Pipeline.ts:19 | running stages only adds files, makes no directory and keeps settled futures settled |
| Pipelines.StagesOkCheckpointed | src/Pipeline.ts:16-25 | after the stages succeed every job of every stage has a checkpoint and a settled future |
| Pipelines.StagesKeepCheckpointed | src/Pipeline.ts:19 | later stages never undo a checkpoint or a settlement |
| Pipelines.SucceededJobStaysCheckpointed | src/Pipeline.ts:16-25 | a job whose operation succeeded, in any stage, is checkpointed with a settled future at the end of the stages, even when the pipeline fails |
| Pipelines.StagesOkReplayable | src/Pipeline.ts:16-25 | after the stages succeed every job of every stage has a readable checkpoint, when no data file lands on a record |
| Pipelines.EarlierStagesReplayable | src/Pipeline.ts:19 | a successful stage keeps the earlier stages' records readable |
| Pipelines.StagesResume | src/Pipeline.ts:19 | when every job has a readable checkpoint the stages succeed with no call on any executor and no write |
| Pipelines.InitOkExists | src/Checkpointers.ts:18-24 | a successful init leaves the namespace directory in place |
| Pipelines.PipelineRerunMakesNoCalls | src/Pipeline.ts:16-25 | running a rebuilt pipeline (the same stage and job names, new futures, executors and runners) on the file system a successful run left, with any logs, succeeds with no remote call and no write |
| Pipelines.RebuiltReplayable | src/Pipeline.ts:16-25 | a rebuilt pipeline can replay whatever the original can |
| Pipelines.RebuiltSeparate | src/Pipeline.ts:16-25 | a rebuilt pipeline writes its data files where the original does |
| Pipelines.StagesResolveFrom | src/Pipeline.ts:16-25 | after the stages succeed every job of every stage is resolved from its checkpoint, and only the stages' own futures changed |
| Pipelines.StageFuturesUntouched | src/Pipeline.ts:19 | the stages before stage n leave its futures as they found them |
| Pipelines.StageKeepsResolved | src/Pipeline.ts:19 | a later successful stage keeps an earlier stage resolved from its checkpoints |
| Pipelines.PipelineRerunSameLists | src/Pipeline.ts:16-25 | the rerun of a rebuilt pipeline succeeds with no call and no write, and both runs resolve every pending future with the list its checkpoint in the first run's file system reads back, so each new future gets the list the first run gave the old future of that name |
| Pipelines.InitOf | src/Pipeline.ts:17 | init as InitSpec gives it; no stage, executable, executor or future changes |
| Pipelines.RunStageOf | src/Pipeline.ts:19 | one stage's run as StageRunSpec gives it; its executor's log is the only one that changes |
| Pipelines.Pipeline.constructor | src/Pipeline.ts:6-14 | stores id, checkpointer and stages; hands the checkpointer to every stage; leaves their futures alone |
| Pipelines.Pipeline.Run | src/Pipeline.ts:16-25 | base directory, outcome, futures, file system and logs are PipelineSpec's |
| Pipelines.Pipeline.RunStages | src/Pipeline.ts:19 | the stages loop equals StagesSpec |
| Pipelines.Pipeline.RunStage | src/Pipeline.ts:19 | one more stage as StagesStep gives it |

`Pipeline.visualize` (src/Pipeline.ts:27) is `Pipelines.Pipeline.Visualize`. It has an empty
body and no `modifies` clause, so it changes nothing.

## Notes on the source

- Failures never reject a future. The stage keeps only the `resolve` half of each deferred
  promise (src/Stage.ts:21). When an executable fails, its future stays pending, and so does
  every future that waits on it (`Stages.FailedRunLeavesNoTrace`). The model follows the code:
  `Helpers.Deferred.Reject` exists but no stage calls it.
- Duplicate qualified names shadow each other. The resolver table is keyed by qualified name,
  so when two executables of a stage share a name, the earlier one's future is never resolved
  (`Stages.ShadowedHasNoResolver`).
- Qualified names can collide across stages, because "::" may occur inside a name
  (`Executables.QualifiedNameAmbiguous`). They cannot collide when no stage name contains ':'
  (`Executables.QualifiedNameInjective`).
- A stdout result's sidecar file `<name>.data` is also the record path of an executable
  named `<name>.data` (`Checkpointers.DataPathIsRecordPath`). The resumption theorems
  therefore assume that no data file lands on another job's record (`Stages.Separate`,
  `Pipelines.PipelineSeparate`).
- A stdout save writes the data file first. If the record write then fails, the data file
  stays written with no record (`Checkpointers.SaveSpec` keeps that state).
- Calling `init` twice on one checkpointer nests the id twice (`Checkpointers.InitTwiceNests`).
- The command line without an interpreter also runs `chmod 777` on the program; the model
  follows the code (`Executables.Command`).
- The checkpointer reaches the stages in the pipeline's constructor, not in `run`
  (`Pipelines.Pipeline.constructor`).

## Left out

- Concurrency. `Promise.all` over the stages (src/Pipeline.ts:19) and over the operations of
  a stage (src/Stage.ts:33) is modelled as a sequential loop in declared order. Every job and
  every stage runs, also after a failure, and the outcome is the first error in declared
  order (`Outcomes.FirstError`). `Promise.all` rejects with the error that happens first in
  time, and interleavings are not modelled.
- Existence checks within one run. In the source every `runOperation` of the pipeline does its
  existence check (src/Stage.ts:42) before any checkpoint of that run is written. In the model
  job k's check sees the writes of the jobs before it. The two agree when no earlier job of
  the run writes job k's record (`Stages.StageCheckSeesStart`), in particular when the
  qualified names are distinct. When two jobs of one run share a qualified name (for example
  across stages, through `Executables.QualifiedNameAmbiguous`), the source runs both remotely
  and the later save overwrites the record, while the model replays the first job's
  checkpoint for the second. The one-execution and same-list results therefore hold across
  runs, and within a run only for distinct names.
- Distinct futures. `Stages.RerunSameLists` and `Pipelines.PipelineRerunSameLists` assume that
  no two names share a future (`Stages.OneFuturePerName`, `Pipelines.DistinctFutures`). Within
  a stage this follows from the constructor, which allocates a fresh, distinct future for each
  executable (`Stages.Stage.constructor`, `Stages.ResolversOneFuturePerName`). Across stages it
  holds because each stage allocates its own futures, but the model does not derive that from
  allocation.
- Host paths. A `FileInput`'s host path (src/Inputs.ts:19) may be any `Promise<string>`. The model
  covers a plain string and the element of an executable's future,
  `outputs[i].then(o => o[k])` (`Inputs.HostPath`). Other promises are not modelled.
- Blocking. An input that waits on a future that is still pending gives `Err(StillPending)`
  instead of blocking (`Inputs.HostValue`). Sequencing that arises only from waiting between
  concurrent stages is therefore not captured. Cyclic waits are not modelled.
- The task executor's own `run` wrapper, with its scheduling and task-level retries, is
  replaced by running the executable directly on one context per stage (`Stages.OnExecutor`).
  The Golem SDK is not part of this model.
- The substrate's replies are an oracle, `(Call, position in log) -> Reply`, chosen by the
  caller. Transfers move no bytes, and downloads are not written into the modelled file system.
- Logging, timing (`performance.now`) and stderr have no effect on results and are left out.
- `__dirname` is the `moduleDir` constant of the work context.
- Paths are joined with a single "/" separator (`Paths.Join`). `path.join` normalisation of
  "." and ".." segments and of repeated slashes is not modelled. Trailing separators are
  dropped by `Paths.Basename` and `Paths.Dirname`, as `path.basename` and `path.dirname` do.
  Where no directory is left, `Paths.Dirname` gives "", which the file system model
  (`Checkpointers.IsDir`) treats as the current directory, Node's ".". For a path whose only
  "/" characters lead it, Node gives the root "/" instead. The paths written at
  src/Checkpointers.ts:36-40 are joined onto the checkpoint directory, so this differs only
  when that directory is "/".
- Inputs.Destination: the base name of the destination equals the host path's base name only
  when that base name is non-empty. For a host path that is empty or made only of "/", the
  destination is "/golem/input/", whose base name is "input", in Node as in the model. Nor is the empty join:
  `path.join("", "")` is ".", while `Paths.Join("", "")` is "", so an empty base directory
  with an empty id fails in `Checkpointers.InitSpec` where `existsSync(".")` would succeed.
- `JSON.parse` is modelled only for lists of strings, and only in the compact form that
  `JSON.stringify` writes (`Json.Decode`). Any other record is an error (`Corrupt`), including
  a list of strings with whitespace between its tokens or with `\u` escapes of characters
  that stringify writes as they are (surrogate pairs, for example). `JSON.parse` reads those
  as lists of strings, and would return whatever other JSON value it read. A record the engine
  itself wrote is always in the compact form (`Json.DecodeEncode`).
- The unreachable throws are not modelled: the "Unsuporteed executable result" branch of
  saveCheckpoint (src/Checkpointers.ts:42-44) and the "expected json" check of the files
  variant (src/Executables.ts:92-94). The result type has only the two variants, so neither
  branch can be taken.
- A stage run before it has a checkpointer throws a TypeError in the source. In the model every
  executable then fails with `NoCheckpointer`, and so does the stage. A stage with no
  executable succeeds, as the source does.
- The existence check and the read of one operation's checkpoint are asynchronous in the
  source, and other operations of the same run may write between them. In the model they see
  the same file system, the one the earlier jobs left (see "Existence checks within one run").
- The file system is a field of the checkpointer, and no other process writes to it.
- `Checkpointer` is an interface with one implementation (`FsCheckpointer`). Only that
  implementation is modelled.
- `Stage.outputs` is a record indexed by position. It is modelled as a sequence of futures.

/** src/Executables.ts: one unit of remote work, its qualified name, its command line, and the
    two ways its output is read (as text, or as a manifest of files to fetch back).

    The files-producing executable extends the text-producing one in the source; here one class
    carries a `variant` and the files variant runs the text variant's steps and then downloads. */
module Executables {

  import opened Outcomes
  import opened Paths
  import opened Text
  import opened Remote
  import opened Helpers
  import opened Inputs

  const ConcatChar := "::"
  /** The local directory downloads go to. */
  const OutputsDir := "outputs"
  /** Retries of one download after a throw. */
  const DownloadRetries: nat := 3

  datatype Variant = ToStdout | ToFiles

  /** What an executable produces: its captured standard output, or the local paths of the files
      it produced. */
  datatype ExecutableResult =
    | Stdout(text: string)
    | Urls(paths: seq<string>)

  /** The qualified name `prefix::name`. */
  function QualifiedName(prefix: string, name: string): (r: string)
    ensures |r| == |prefix| + 2 + |name|
    ensures r[..|prefix|] == prefix && r[|prefix|..|prefix| + 2] == ConcatChar && r[|prefix| + 2..] == name
  {
    prefix + ConcatChar + name
  }

  /** When no stage name contains ':', a qualified name determines its stage and executable. */
  lemma QualifiedNameInjective(p1: string, n1: string, p2: string, n2: string)
    requires ':' !in p1 && ':' !in p2
    requires QualifiedName(p1, n1) == QualifiedName(p2, n2)
    ensures p1 == p2 && n1 == n2
  {
    var q := QualifiedName(p1, n1);
    assert q[|p1|] == ':' && q[|p2|] == ':';
    assert forall i :: 0 <= i < |p1| ==> q[i] == p1[i];
    assert forall i :: 0 <= i < |p2| ==> q[i] == p2[i];
    assert |p1| == |p2|;
    assert p1 == q[..|p1|] && p2 == q[..|p2|];
  }

  /** Qualified names are ambiguous once a name holds "::": two different executables share one. */
  lemma QualifiedNameAmbiguous()
    ensures QualifiedName("a::b", "c") == QualifiedName("a", "b::c")
  {
  }

  /** Whether the interpreter counts as given: undefined and "" both do not. */
  predicate HasInterpreter(interpreter: Option<string>)
  {
    interpreter.Some? && interpreter.value != ""
  }

  /** getCommand: the program made executable and run on the joined arguments, or the program
      handed to the interpreter. Either way the line ends with the program path, a space and the
      arguments joined by spaces. */
  function Command(interpreter: Option<string>, providerExecPath: string, args: seq<string>): (r: string)
    ensures var tail := providerExecPath + " " + JoinWith(args, " ");
      && |r| >= |tail| && r[|r| - |tail|..] == tail
      && (HasInterpreter(interpreter) ==> r == interpreter.value + " " + tail)
      && (!HasInterpreter(interpreter) ==>
            r == "chmod +x " + providerExecPath + " && chmod 777 " + providerExecPath + " && " + tail)
  {
    if !HasInterpreter(interpreter) then
      "chmod +x " + providerExecPath + " && chmod 777 " + providerExecPath + " && "
        + providerExecPath + " " + JoinWith(args, " ")
    else
      interpreter.value + " " + providerExecPath + " " + JoinWith(args, " ")
  }

  /** `stdout.split("\n").filter((p) => p !== "")`: the remote paths the files variant fetches. */
  function ParseManifest(stdout: string): (r: seq<string>)
    ensures forall i :: 0 <= i < |r| ==> r[i] != "" && '\n' !in r[i]
  {
    NonEmpty(Split(stdout, '\n'))
  }

  /** The manifest of lines joined by newlines is exactly the non-empty lines, in order: a blank
      line is dropped and every other line is kept. */
  lemma ManifestKeepsLines(xs: seq<string>)
    requires forall i :: 0 <= i < |xs| ==> '\n' !in xs[i]
    ensures ParseManifest(JoinWith(xs, "\n")) == NonEmpty(xs)
  {
    if xs != [] {
      SplitJoin(xs, '\n');
    }
  }

  /** A task that prints its paths one per line gets exactly those paths as its manifest. */
  lemma ManifestOfLines(xs: seq<string>)
    requires forall i :: 0 <= i < |xs| ==> xs[i] != "" && '\n' !in xs[i]
    ensures ParseManifest(JoinWith(xs, "\n")) == xs
  {
    ManifestKeepsLines(xs);
  }

  /** The same holds when the last line ends with a newline too. */
  lemma ManifestOfTerminatedLines(xs: seq<string>)
    requires forall i :: 0 <= i < |xs| ==> xs[i] != "" && '\n' !in xs[i]
    ensures ParseManifest(JoinWith(xs, "\n") + "\n") == xs
  {
    if xs == [] {
      assert JoinWith(xs, "\n") + "\n" == "\n";
      ManifestOfNewline();
    } else {
      var ys := xs + [""];
      NoSeparatorAppendEmpty(xs, '\n');
      ManifestKeepsLines(ys);
      JoinAppendEmpty(xs, "\n");
      TerminatedLines(xs);
    }
  }

  /** Output that is a single newline has an empty manifest. */
  lemma ManifestOfNewline()
    ensures ParseManifest("\n") == []
  {
    assert Split("\n", '\n') == ["", ""];
  }

  /** The lines with an empty last line added filter back to the lines. */
  lemma TerminatedLines(xs: seq<string>)
    requires forall i :: 0 <= i < |xs| ==> xs[i] != ""
    ensures NonEmpty(xs + [""]) == xs
  {
    NonEmptyAppend(xs, [""]);
    NonEmptySingle("");
    assert NonEmpty(xs) + [] == xs;
  }

  lemma NoSeparatorAppendEmpty(xs: seq<string>, c: char)
    requires forall i :: 0 <= i < |xs| ==> c !in xs[i]
    ensures forall i :: 0 <= i < |xs + [""]| ==> c !in (xs + [""])[i]
  {
    forall i | 0 <= i < |xs + [""]|
      ensures c !in (xs + [""])[i]
    {
      if i < |xs| {
        assert (xs + [""])[i] == xs[i];
      }
    }
  }

  lemma {:induction false} JoinAppendEmpty(xs: seq<string>, sep: string)
    ensures JoinWith(xs + [""], sep) == if xs == [] then "" else JoinWith(xs, sep) + sep
    decreases |xs|
  {
    if |xs| > 1 {
      JoinAppendEmpty(xs[1..], sep);
      assert (xs + [""])[1..] == xs[1..] + [""];
    } else if |xs| == 1 {
      assert xs + [""] == [xs[0], ""];
    }
  }

  /** The local path a remote file is fetched to: outputs/<qualified name>/<base name>. */
  function DownloadTarget(fullName: string, providerPath: string): string
  {
    Join(Join(OutputsDir, fullName), Basename(providerPath))
  }

  function DownloadCall(fullName: string, providerPath: string): Call
  {
    Download(providerPath, DownloadTarget(fullName, providerPath))
  }

  /** The local paths of a whole manifest, in manifest order. */
  function Targets(fullName: string, manifest: seq<string>): (r: seq<string>)
    ensures |r| == |manifest|
    decreases |manifest|
  {
    if manifest == [] then []
    else Targets(fullName, manifest[..|manifest| - 1]) + [DownloadTarget(fullName, manifest[|manifest| - 1])]
  }

  /** Entry i of the manifest is fetched to the target of entry i. */
  lemma {:induction false} TargetsAt(fullName: string, manifest: seq<string>, i: nat)
    requires i < |manifest|
    ensures Targets(fullName, manifest)[i] == DownloadTarget(fullName, manifest[i])
    decreases |manifest|
  {
    if i < |manifest| - 1 {
      TargetsAt(fullName, manifest[..|manifest| - 1], i);
    }
  }

  /** The values a list of inputs resolves to, in declared order. */
  function Values(xs: seq<Input>, env: Env): (r: seq<string>)
    ensures |r| == |xs|
    decreases |xs|
  {
    if xs == [] then [] else Values(xs[..|xs| - 1], env) + [Value(xs[|xs| - 1], env)]
  }

  /** Argument i of the command is the value of input i. */
  lemma {:induction false} ValuesAt(xs: seq<Input>, env: Env, i: nat)
    requires i < |xs|
    ensures Values(xs, env)[i] == Value(xs[i], env)
    decreases |xs|
  {
    if i < |xs| - 1 {
      ValuesAt(xs[..|xs| - 1], env, i);
    }
  }

  /** The arguments loop of ExecutableToStdout.run: each input is resolved in turn, after the
      one before it has finished; the first failure ends the loop. */
  function ResolveArgs(xs: seq<Input>, env: Env, respond: Oracle, moduleDir: string, log: seq<Call>): (r: (Outcome<seq<string>>, seq<Call>))
    ensures |log| <= |r.1| && r.1[..|log|] == log
    ensures r.0.Ok? ==> r.0.value == Values(xs, env)
    decreases |xs|
  {
    if xs == [] then (Ok([]), log)
    else
      var front := ResolveArgs(xs[..|xs| - 1], env, respond, moduleDir, log);
      if front.0.Err? then front
      else
        var last := UploadSpec(xs[|xs| - 1], env, respond, moduleDir, front.1);
        PrefixTrans(log, front.1, last.1);
        if last.0.Err? then (Err(last.0.error), last.1)
        else (Ok(front.0.value + [last.0.value]), last.1)
  }

  /** One more turn of the arguments loop, after a prefix of the inputs has succeeded. */
  lemma ResolveArgsStep(xs: seq<Input>, i: nat, env: Env, respond: Oracle, moduleDir: string, log: seq<Call>)
    requires i < |xs|
    requires ResolveArgs(xs[..i], env, respond, moduleDir, log).0.Ok?
    ensures var front := ResolveArgs(xs[..i], env, respond, moduleDir, log);
      var last := UploadSpec(xs[i], env, respond, moduleDir, front.1);
      ResolveArgs(xs[..i + 1], env, respond, moduleDir, log)
        == if last.0.Err? then (Err(last.0.error), last.1) else (Ok(front.0.value + [last.0.value]), last.1)
  {
    assert xs[..i + 1][..i] == xs[..i];
  }

  /** Once a prefix of the inputs fails, the whole loop fails the same way. */
  lemma {:induction false} ResolveArgsSticky(xs: seq<Input>, k: nat, env: Env, respond: Oracle, moduleDir: string, log: seq<Call>)
    requires k <= |xs|
    requires ResolveArgs(xs[..k], env, respond, moduleDir, log).0.Err?
    ensures ResolveArgs(xs, env, respond, moduleDir, log) == ResolveArgs(xs[..k], env, respond, moduleDir, log)
    decreases |xs|
  {
    if k < |xs| {
      var front := xs[..|xs| - 1];
      assert front[..k] == xs[..k];
      ResolveArgsSticky(front, k, env, respond, moduleDir, log);
    } else {
      assert xs[..k] == xs;
    }
  }

  /** The calls one input makes, attempted `count` times. */
  function UploadSegment(inp: Input, env: Env, moduleDir: string, count: nat): seq<Call>
  {
    if inp.FileInput? && HostValue(inp.hostPath, env).Ok? then
      Repeat(UploadCall(moduleDir, HostValue(inp.hostPath, env).value), count)
    else []
  }

  /** The calls of a list of inputs, input i attempted `counts[i]` times, in declared order. */
  function UploadLog(xs: seq<Input>, env: Env, moduleDir: string, counts: seq<nat>): seq<Call>
    requires |counts| == |xs|
    decreases |xs|
  {
    if xs == [] then []
    else
      UploadLog(xs[..|xs| - 1], env, moduleDir, counts[..|xs| - 1])
        + UploadSegment(xs[|xs| - 1], env, moduleDir, counts[|xs| - 1])
  }

  /** The last input of a successful loop: the loop before it succeeded, and the input made no
      call (an ArgInput) or was uploaded one to four times (a FileInput). */
  lemma ResolveArgsLast(xs: seq<Input>, env: Env, respond: Oracle, moduleDir: string, log: seq<Call>)
    returns (k: nat)
    requires xs != []
    requires ResolveArgs(xs, env, respond, moduleDir, log).0.Ok?
    ensures ResolveArgs(xs[..|xs| - 1], env, respond, moduleDir, log).0.Ok?
    ensures xs[|xs| - 1].ArgInput? ==> k == 0
    ensures xs[|xs| - 1].FileInput? ==> 1 <= k <= UploadRetries + 1
    ensures ResolveArgs(xs, env, respond, moduleDir, log).1
      == ResolveArgs(xs[..|xs| - 1], env, respond, moduleDir, log).1 + UploadSegment(xs[|xs| - 1], env, moduleDir, k)
  {
    var inp := xs[|xs| - 1];
    var before := ResolveArgs(xs[..|xs| - 1], env, respond, moduleDir, log).1;
    if inp.ArgInput? {
      k := 0;
    } else {
      var after := RetrySpec(respond, UploadCall(moduleDir, HostValue(inp.hostPath, env).value), before, UploadRetries).1;
      k := |after| - |before|;
    }
  }

  /** Arguments are uploaded one at a time in declared order: the calls are those of input 0,
      then input 1, and so on; an ArgInput makes no call and a FileInput one to four. */
  lemma {:induction false} ResolveArgsInOrder(xs: seq<Input>, env: Env, respond: Oracle, moduleDir: string, log: seq<Call>)
    returns (counts: seq<nat>)
    requires ResolveArgs(xs, env, respond, moduleDir, log).0.Ok?
    ensures |counts| == |xs|
    ensures forall i :: 0 <= i < |xs| ==>
      (xs[i].ArgInput? ==> counts[i] == 0) && (xs[i].FileInput? ==> 1 <= counts[i] <= UploadRetries + 1)
    ensures ResolveArgs(xs, env, respond, moduleDir, log).1 == log + UploadLog(xs, env, moduleDir, counts)
    decreases |xs|
  {
    if xs == [] {
      counts := [];
    } else {
      var n := |xs|;
      var k := ResolveArgsLast(xs, env, respond, moduleDir, log);
      var counts0 := ResolveArgsInOrder(xs[..n - 1], env, respond, moduleDir, log);
      counts := counts0 + [k];
      UploadLogLast(xs, env, moduleDir, counts0, k);
      AppendAssoc(log, UploadLog(xs[..n - 1], env, moduleDir, counts0), UploadSegment(xs[n - 1], env, moduleDir, k));
      CountsLast(xs, counts0, k);
    }
  }

  lemma UploadLogLast(xs: seq<Input>, env: Env, moduleDir: string, counts0: seq<nat>, k: nat)
    requires xs != [] && |counts0| == |xs| - 1
    ensures UploadLog(xs, env, moduleDir, counts0 + [k])
         == UploadLog(xs[..|xs| - 1], env, moduleDir, counts0) + UploadSegment(xs[|xs| - 1], env, moduleDir, k)
  {
    TakeAppend(counts0, k);
  }

  lemma CountsLast(xs: seq<Input>, counts0: seq<nat>, k: nat)
    requires xs != [] && |counts0| == |xs| - 1
    requires forall i :: 0 <= i < |xs| - 1 ==>
      (xs[i].ArgInput? ==> counts0[i] == 0) && (xs[i].FileInput? ==> 1 <= counts0[i] <= UploadRetries + 1)
    requires (xs[|xs| - 1].ArgInput? ==> k == 0) && (xs[|xs| - 1].FileInput? ==> 1 <= k <= UploadRetries + 1)
    ensures forall i :: 0 <= i < |xs| ==>
      (xs[i].ArgInput? ==> (counts0 + [k])[i] == 0) && (xs[i].FileInput? ==> 1 <= (counts0 + [k])[i] <= UploadRetries + 1)
  {
    forall i | 0 <= i < |xs|
      ensures (xs[i].ArgInput? ==> (counts0 + [k])[i] == 0) && (xs[i].FileInput? ==> 1 <= (counts0 + [k])[i] <= UploadRetries + 1)
    {
      if i < |xs| - 1 {
        assert (counts0 + [k])[i] == counts0[i];
      }
    }
  }

  /** The `ctx.run` step: one call, whose reply fails the run if it throws or carries a message. */
  function ExecSpec(command: string, respond: Oracle, log: seq<Call>): (r: (Outcome<string>, seq<Call>))
    ensures r.1 == log + [Exec(command)]
    ensures var reply := respond(Exec(command), |log|);
      (r.0.Ok? <==> reply.Returned? && reply.message == "") && (r.0.Ok? ==> r.0.value == reply.stdout)
  {
    var result := respond(Exec(command), |log|);
    if result.Threw? then (Err(Thrown(result.error)), log + [Exec(command)])
    else if result.message != "" then (Err(TaskFailed(result.stdout)), log + [Exec(command)])
    else (Ok(result.stdout), log + [Exec(command)])
  }

  /** What ExecutableToStdout.run does: upload the program, resolve the arguments in order, run
      the command, and fail if the remote result carries a message. On success the command run
      last is the one built from the declared inputs' values. */
  function RunStdoutSpec(execPath: Input, inputs: seq<Input>, interpreter: Option<string>,
                         env: Env, respond: Oracle, moduleDir: string, log: seq<Call>): (r: (Outcome<string>, seq<Call>))
    ensures |log| <= |r.1| && r.1[..|log|] == log
    ensures r.0.Ok? ==>
      var command := Command(interpreter, Value(execPath, env), Values(inputs, env));
      && |r.1| > |log| && r.1[|r.1| - 1] == Exec(command)
      && r.0 == ExecSpec(command, respond, r.1[..|r.1| - 1]).0
  {
    var program := UploadSpec(execPath, env, respond, moduleDir, log);
    if program.0.Err? then (Err(program.0.error), program.1)
    else
      var args := ResolveArgs(inputs, env, respond, moduleDir, program.1);
      PrefixTrans(log, program.1, args.1);
      if args.0.Err? then (Err(args.0.error), args.1)
      else
        var run := ExecSpec(Command(interpreter, program.0.value, args.0.value), respond, args.1);
        PrefixTrans(log, args.1, run.1);
        assert run.1[..|run.1| - 1] == args.1;
        run
  }

  /** Once the program and the arguments are uploaded, the run is the `ctx.run` step. */
  lemma RunStdoutAfterUploads(execPath: Input, inputs: seq<Input>, interpreter: Option<string>, env: Env,
                              respond: Oracle, moduleDir: string, log: seq<Call>,
                              program: string, logAfterProgram: seq<Call>, args: seq<string>, logAfterArgs: seq<Call>)
    requires UploadSpec(execPath, env, respond, moduleDir, log) == (Ok(program), logAfterProgram)
    requires ResolveArgs(inputs, env, respond, moduleDir, logAfterProgram) == (Ok(args), logAfterArgs)
    ensures RunStdoutSpec(execPath, inputs, interpreter, env, respond, moduleDir, log)
      == ExecSpec(Command(interpreter, program, args), respond, logAfterArgs)
  {
  }

  /** What ExecutableToFiles.downloadFile does: a retried download to the target; a result with a
      message fails the whole executable. */
  function DownloadFileSpec(fullName: string, providerPath: string, respond: Oracle, log: seq<Call>): (r: (Outcome<string>, seq<Call>))
    ensures r.1 == RetrySpec(respond, DownloadCall(fullName, providerPath), log, DownloadRetries).1
    ensures var reply := RetrySpec(respond, DownloadCall(fullName, providerPath), log, DownloadRetries).0;
      r.0.Ok? <==> reply.Returned? && reply.message == ""
    ensures r.0.Ok? ==> r.0.value == DownloadTarget(fullName, providerPath)
  {
    var attempt := RetrySpec(respond, DownloadCall(fullName, providerPath), log, DownloadRetries);
    var reply, log' := attempt.0, attempt.1;
    if reply.Threw? then (Err(Thrown(reply.error)), log')
    else if reply.message != "" then (Err(DownloadFailed(providerPath, reply.message)), log')
    else (Ok(DownloadTarget(fullName, providerPath)), log')
  }

  /** The download loop of ExecutableToFiles.run: one file at a time, in manifest order; the first
      failure ends the loop and no list is produced. */
  function DownloadAll(fullName: string, manifest: seq<string>, respond: Oracle, log: seq<Call>): (r: (Outcome<seq<string>>, seq<Call>))
    ensures |log| <= |r.1| && r.1[..|log|] == log
    ensures r.0.Ok? ==> r.0.value == Targets(fullName, manifest)
    decreases |manifest|
  {
    if manifest == [] then (Ok([]), log)
    else
      var front := DownloadAll(fullName, manifest[..|manifest| - 1], respond, log);
      if front.0.Err? then front
      else
        var last := DownloadFileSpec(fullName, manifest[|manifest| - 1], respond, front.1);
        if last.0.Err? then (Err(last.0.error), last.1)
        else (Ok(front.0.value + [last.0.value]), last.1)
  }

  /** One more turn of the download loop, after a prefix of the manifest has been fetched. */
  lemma DownloadAllStep(fullName: string, manifest: seq<string>, i: nat, respond: Oracle, log: seq<Call>)
    requires i < |manifest|
    requires DownloadAll(fullName, manifest[..i], respond, log).0.Ok?
    ensures var front := DownloadAll(fullName, manifest[..i], respond, log);
      var last := DownloadFileSpec(fullName, manifest[i], respond, front.1);
      DownloadAll(fullName, manifest[..i + 1], respond, log)
        == if last.0.Err? then (Err(last.0.error), last.1) else (Ok(front.0.value + [last.0.value]), last.1)
  {
    var m := manifest[..i + 1];
    DownloadAllUnfold(fullName, m, respond, log);
    assert m[..|m| - 1] == manifest[..i];
  }

  /** The download loop over a non-empty manifest: the files before the last, then the last. */
  lemma DownloadAllUnfold(fullName: string, m: seq<string>, respond: Oracle, log: seq<Call>)
    requires m != []
    ensures var front := DownloadAll(fullName, m[..|m| - 1], respond, log);
      var last := DownloadFileSpec(fullName, m[|m| - 1], respond, front.1);
      DownloadAll(fullName, m, respond, log)
        == if front.0.Err? then front else if last.0.Err? then (Err(last.0.error), last.1) else (Ok(front.0.value + [last.0.value]), last.1)
  {
  }

  lemma {:induction false} DownloadAllSticky(fullName: string, manifest: seq<string>, k: nat, respond: Oracle, log: seq<Call>)
    requires k <= |manifest|
    requires DownloadAll(fullName, manifest[..k], respond, log).0.Err?
    ensures DownloadAll(fullName, manifest, respond, log) == DownloadAll(fullName, manifest[..k], respond, log)
    decreases |manifest|
  {
    if k < |manifest| {
      var front := manifest[..|manifest| - 1];
      assert front[..k] == manifest[..k];
      DownloadAllSticky(fullName, front, k, respond, log);
    } else {
      assert manifest[..k] == manifest;
    }
  }

  /** The download calls of a manifest, file i attempted `counts[i]` times, in manifest order. */
  function DownloadLog(fullName: string, manifest: seq<string>, counts: seq<nat>): seq<Call>
    requires |counts| == |manifest|
    decreases |manifest|
  {
    if manifest == [] then []
    else
      DownloadLog(fullName, manifest[..|manifest| - 1], counts[..|manifest| - 1])
        + Repeat(DownloadCall(fullName, manifest[|manifest| - 1]), counts[|manifest| - 1])
  }

  /** The last download of a successful loop: the loop before it succeeded, and the file was
      attempted one to four times. */
  lemma DownloadAllLast(fullName: string, manifest: seq<string>, respond: Oracle, log: seq<Call>)
    returns (k: nat)
    requires manifest != []
    requires DownloadAll(fullName, manifest, respond, log).0.Ok?
    ensures DownloadAll(fullName, manifest[..|manifest| - 1], respond, log).0.Ok?
    ensures 1 <= k <= DownloadRetries + 1
    ensures DownloadAll(fullName, manifest, respond, log).1
      == DownloadAll(fullName, manifest[..|manifest| - 1], respond, log).1 + Repeat(DownloadCall(fullName, manifest[|manifest| - 1]), k)
  {
    var before := DownloadAll(fullName, manifest[..|manifest| - 1], respond, log).1;
    var after := RetrySpec(respond, DownloadCall(fullName, manifest[|manifest| - 1]), before, DownloadRetries).1;
    k := |after| - |before|;
  }

  /** Downloads happen strictly in manifest order, each file one to four times. */
  lemma {:induction false} DownloadsInOrder(fullName: string, manifest: seq<string>, respond: Oracle, log: seq<Call>)
    returns (counts: seq<nat>)
    requires DownloadAll(fullName, manifest, respond, log).0.Ok?
    ensures |counts| == |manifest|
    ensures forall i :: 0 <= i < |manifest| ==> 1 <= counts[i] <= DownloadRetries + 1
    ensures DownloadAll(fullName, manifest, respond, log).1 == log + DownloadLog(fullName, manifest, counts)
    decreases |manifest|
  {
    if manifest == [] {
      counts := [];
    } else {
      var n := |manifest|;
      var k := DownloadAllLast(fullName, manifest, respond, log);
      var counts0 := DownloadsInOrder(fullName, manifest[..n - 1], respond, log);
      counts := counts0 + [k];
      DownloadLogLast(fullName, manifest, counts0, k);
      AppendAssoc(log, DownloadLog(fullName, manifest[..n - 1], counts0), Repeat(DownloadCall(fullName, manifest[n - 1]), k));
      DownloadCountsLast(counts0, k);
    }
  }

  lemma DownloadLogLast(fullName: string, manifest: seq<string>, counts0: seq<nat>, k: nat)
    requires manifest != [] && |counts0| == |manifest| - 1
    ensures DownloadLog(fullName, manifest, counts0 + [k])
         == DownloadLog(fullName, manifest[..|manifest| - 1], counts0) + Repeat(DownloadCall(fullName, manifest[|manifest| - 1]), k)
  {
    TakeAppend(counts0, k);
  }

  lemma DownloadCountsLast(counts0: seq<nat>, k: nat)
    requires forall i :: 0 <= i < |counts0| ==> 1 <= counts0[i] <= DownloadRetries + 1
    requires 1 <= k <= DownloadRetries + 1
    ensures forall i :: 0 <= i < |counts0 + [k]| ==> 1 <= (counts0 + [k])[i] <= DownloadRetries + 1
  {
    forall i | 0 <= i < |counts0 + [k]|
      ensures 1 <= (counts0 + [k])[i] <= DownloadRetries + 1
    {
      if i < |counts0| {
        assert (counts0 + [k])[i] == counts0[i];
      }
    }
  }

  /** What ExecutableToFiles.run does: the text run, then every manifest entry downloaded. */
  function RunFilesSpec(fullName: string, execPath: Input, inputs: seq<Input>, interpreter: Option<string>,
                        env: Env, respond: Oracle, moduleDir: string, log: seq<Call>): (r: (Outcome<ExecutableResult>, seq<Call>))
    ensures |log| <= |r.1| && r.1[..|log|] == log
    ensures r.0.Ok? ==>
      var text := RunStdoutSpec(execPath, inputs, interpreter, env, respond, moduleDir, log).0;
      text.Ok? && r.0.value == Urls(Targets(fullName, ParseManifest(text.value)))
  {
    var text := RunStdoutSpec(execPath, inputs, interpreter, env, respond, moduleDir, log);
    if text.0.Err? then (Err(text.0.error), text.1)
    else
      var files := DownloadAll(fullName, ParseManifest(text.0.value), respond, text.1);
      PrefixTrans(log, text.1, files.1);
      if files.0.Err? then (Err(files.0.error), files.1)
      else (Ok(Urls(files.0.value)), files.1)
  }

  /** Once the text run has succeeded, the files run is the download loop over its manifest. */
  lemma RunFilesAfterText(fullName: string, execPath: Input, inputs: seq<Input>, interpreter: Option<string>,
                          env: Env, respond: Oracle, moduleDir: string, log: seq<Call>,
                          text: string, logAfterText: seq<Call>)
    requires RunStdoutSpec(execPath, inputs, interpreter, env, respond, moduleDir, log) == (Ok(text), logAfterText)
    ensures var files := DownloadAll(fullName, ParseManifest(text), respond, logAfterText);
      RunFilesSpec(fullName, execPath, inputs, interpreter, env, respond, moduleDir, log)
        == (if files.0.Err? then Err(files.0.error) else Ok(Urls(files.0.value)), files.1)
  {
  }

  /** What an executable is, for running it: its variant, qualified name, program, inputs and
      interpreter. */
  datatype Job = Job(variant: Variant, fullName: string, execPath: Input, inputs: seq<Input>, interpreter: Option<string>)

  /** What run does for job j when the futures it waits for stand as in `env`, starting from call
      log `log`. */
  function RunSpec(j: Job, env: Env, respond: Oracle, moduleDir: string, log: seq<Call>): (r: (Outcome<ExecutableResult>, seq<Call>))
    ensures |log| <= |r.1| && r.1[..|log|] == log
    ensures r.0.Ok? ==> (j.variant == ToStdout <==> r.0.value.Stdout?)
  {
    match j.variant
    case ToStdout =>
      var text := RunStdoutSpec(j.execPath, j.inputs, j.interpreter, env, respond, moduleDir, log);
      (if text.0.Ok? then Ok(Stdout(text.0.value)) else Err(text.0.error), text.1)
    case ToFiles =>
      RunFilesSpec(j.fullName, j.execPath, j.inputs, j.interpreter, env, respond, moduleDir, log)
  }

  class Executable {
    const variant: Variant
    const name: string
    var prefix: string
    const execPath: Input
    const inputs: seq<Input>
    const interpreter: Option<string>

    constructor (variant: Variant, name: string, execPath: Input, inputs: seq<Input>, interpreter: Option<string>)
      ensures this.variant == variant && this.name == name && this.execPath == execPath
      ensures this.inputs == inputs && this.interpreter == interpreter
      ensures prefix == ""
    {
      this.variant := variant;
      this.name := name;
      this.execPath := execPath;
      this.inputs := inputs;
      this.interpreter := interpreter;
      prefix := "";
    }

    function FullName(): string
      reads this
    {
      QualifiedName(prefix, name)
    }

    method SetPrefix(p: string)
      modifies this
      ensures prefix == p
    {
      prefix := p;
    }

    /** The futures this executable's inputs wait for. */
    function Awaits(): (r: set<Deferred<seq<string>>>)
      ensures CellOf(execPath) <= r
      ensures forall i :: 0 <= i < |inputs| ==> CellOf(inputs[i]) <= r
    {
      CellOf(execPath) + Cells(inputs)
    }

    /** This executable as a value, under its current qualified name. */
    function View(): Job
      reads this
    {
      Job(variant, FullName(), execPath, inputs, interpreter)
    }

    /** ExecutableToStdout.run, or ExecutableToFiles.run for the files variant. */
    method Run(ctx: WorkContext, ghost env: Env) returns (r: Outcome<ExecutableResult>)
      requires Agrees(env, Awaits())
      modifies ctx
      ensures (r, ctx.log) == RunSpec(View(), env, ctx.respond, ctx.moduleDir, old(ctx.log))
    {
      var text := RunToStdout(ctx, env);
      if text.Err? {
        return Err(text.error);
      }
      if variant == ToStdout {
        return Ok(Stdout(text.value));
      }
      ghost var logAfterText := ctx.log;
      RunFilesAfterText(FullName(), execPath, inputs, interpreter, env, ctx.respond, ctx.moduleDir, old(ctx.log),
                        text.value, logAfterText);
      var providerPaths := ParseManifest(text.value);
      ghost var fullName := FullName();
      var requestorPaths: seq<string> := [];
      var i := 0;
      while i < |providerPaths|
        invariant 0 <= i <= |providerPaths|
        invariant DownloadAll(fullName, providerPaths[..i], ctx.respond, logAfterText) == (Ok(requestorPaths), ctx.log)
      {
        DownloadAllStep(fullName, providerPaths, i, ctx.respond, logAfterText);
        var requestorPath := DownloadFile(ctx, providerPaths[i]);
        if requestorPath.Err? {
          DownloadAllSticky(fullName, providerPaths, i + 1, ctx.respond, logAfterText);
          return Err(requestorPath.error);
        }
        requestorPaths := requestorPaths + [requestorPath.value];
        i := i + 1;
      }
      assert providerPaths[..i] == providerPaths;
      r := Ok(Urls(requestorPaths));
    }

    /** The steps of ExecutableToStdout.run. */
    method RunToStdout(ctx: WorkContext, ghost env: Env) returns (r: Outcome<string>)
      requires Agrees(env, Awaits())
      modifies ctx
      ensures (r, ctx.log) == RunStdoutSpec(execPath, inputs, interpreter, env, ctx.respond, ctx.moduleDir, old(ctx.log))
    {
      var providerExecPath := UploadToProvider(execPath, ctx, env);
      if providerExecPath.Err? {
        return Err(providerExecPath.error);
      }
      ghost var logAfterProgram := ctx.log;
      var args := UploadInputs(ctx, env);
      if args.Err? {
        return Err(args.error);
      }
      RunStdoutAfterUploads(execPath, inputs, interpreter, env, ctx.respond, ctx.moduleDir, old(ctx.log),
                            providerExecPath.value, logAfterProgram, args.value, ctx.log);
      r := RunCommand(ctx, Command(interpreter, providerExecPath.value, args.value));
    }

    /** The argument uploads of ExecutableToStdout.run: the inputs one after the other, stopping
        at the first failure. */
    method UploadInputs(ctx: WorkContext, ghost env: Env) returns (r: Outcome<seq<string>>)
      requires Agrees(env, Awaits())
      modifies ctx
      ensures (r, ctx.log) == ResolveArgs(inputs, env, ctx.respond, ctx.moduleDir, old(ctx.log))
    {
      ghost var log0 := ctx.log;
      var args: seq<string> := [];
      var i := 0;
      while i < |inputs|
        invariant 0 <= i <= |inputs|
        invariant ResolveArgs(inputs[..i], env, ctx.respond, ctx.moduleDir, log0) == (Ok(args), ctx.log)
      {
        var next := UploadNext(ctx, env, i, args, log0);
        if next.Err? {
          ResolveArgsSticky(inputs, i + 1, env, ctx.respond, ctx.moduleDir, log0);
          return next;
        }
        args := next.value;
        i := i + 1;
      }
      assert inputs[..i] == inputs;
      r := Ok(args);
    }

    /** One turn of the upload loop: input i after the ones before it were uploaded. */
    method UploadNext(ctx: WorkContext, ghost env: Env, i: nat, args: seq<string>, ghost log0: seq<Call>)
      returns (r: Outcome<seq<string>>)
      requires Agrees(env, Awaits()) && i < |inputs|
      requires ResolveArgs(inputs[..i], env, ctx.respond, ctx.moduleDir, log0) == (Ok(args), ctx.log)
      modifies ctx
      ensures (r, ctx.log) == ResolveArgs(inputs[..i + 1], env, ctx.respond, ctx.moduleDir, log0)
    {
      ResolveArgsStep(inputs, i, env, ctx.respond, ctx.moduleDir, log0);
      var arg := UploadToProvider(inputs[i], ctx, env);
      if arg.Err? {
        r := Err(arg.error);
      } else {
        r := Ok(args + [arg.value]);
      }
    }

    /** The `ctx.run` call of ExecutableToStdout.run and the check of its result. */
    method RunCommand(ctx: WorkContext, command: string) returns (r: Outcome<string>)
      modifies ctx
      ensures (r, ctx.log) == ExecSpec(command, ctx.respond, old(ctx.log))
    {
      var result := ctx.Perform(Exec(command));
      if result.Threw? {
        return Err(Thrown(result.error));
      }
      if result.message != "" {
        return Err(TaskFailed(result.stdout));
      }
      r := Ok(result.stdout);
    }

    /** ExecutableToFiles.downloadFile. */
    method DownloadFile(ctx: WorkContext, pathProvider: string) returns (r: Outcome<string>)
      modifies ctx
      ensures (r, ctx.log) == DownloadFileSpec(FullName(), pathProvider, ctx.respond, old(ctx.log))
    {
      var requestorPath := Join(Join(OutputsDir, FullName()), Basename(pathProvider));
      var result := Retry(ctx, Download(pathProvider, requestorPath), DownloadRetries);
      if result.Threw? {
        return Err(Thrown(result.error));
      }
      if result.message != "" {
        return Err(DownloadFailed(pathProvider, result.message));
      }
      r := Ok(requestorPath);
    }
  }
}

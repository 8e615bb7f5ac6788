/** src/Inputs.ts: the values an executable is given, resolved when it runs. */
module Inputs {

  import opened Outcomes
  import opened Paths
  import opened Text
  import opened Remote
  import opened Helpers

  /** Where uploaded files land on the provider. */
  const InputDir := "/golem/input/"
  /** Retries of one upload after a throw. */
  const UploadRetries: nat := 3

  /** A file input's host path: a plain path, or element `index` of a list another operation's
      future resolves to (`stage.outputs[i].then((o) => o[index])`). */
  datatype HostPath =
    | Static(path: string)
    | Awaited(cell: Deferred<seq<string>>, index: nat)

  datatype Input =
    | ArgInput(values: seq<string>)
    | FileInput(hostPath: HostPath)

  /** The futures a host path, an input, a list of inputs waits for. */
  function HostCells(h: HostPath): set<Deferred<seq<string>>>
  {
    if h.Awaited? then {h.cell} else {}
  }

  function CellOf(inp: Input): set<Deferred<seq<string>>>
  {
    if inp.FileInput? then HostCells(inp.hostPath) else {}
  }

  function Cells(xs: seq<Input>): (r: set<Deferred<seq<string>>>)
    ensures forall i :: 0 <= i < |xs| ==> CellOf(xs[i]) <= r
  {
    set i, c | 0 <= i < |xs| && c in CellOf(xs[i]) :: c
  }

  /** How far the futures have got when a run reaches them: a snapshot of their settlements. */
  type Env = map<Deferred<seq<string>>, Settlement<seq<string>>>

  /** The snapshot agrees with the futures' current states. */
  predicate Agrees(env: Env, cells: set<Deferred<seq<string>>>)
    reads cells
  {
    forall c :: c in cells ==> c in env && env[c] == c.state
  }

  /** `await this.hostPath`: a pending future cannot be awaited past in a sequential run, and a
      missing list element is `undefined`, which path.basename rejects. */
  function HostValue(h: HostPath, env: Env): (r: Outcome<string>)
    ensures h.Static? ==> r == Ok(h.path)
  {
    match h
    case Static(p) => Ok(p)
    case Awaited(cell, k) =>
      if cell !in env then Err(StillPending)
      else
        match env[cell]
        case Pending => Err(StillPending)
        case Rejected(e) => Err(FutureRejected(e))
        case Resolved(l) => if k < |l| then Ok(l[k]) else Err(NoSuchElement(k))
  }

  /** Awaiting a host path reads the state of its future. */
  method Await(h: HostPath, ghost env: Env) returns (r: Outcome<string>)
    requires Agrees(env, HostCells(h))
    ensures r == HostValue(h, env)
  {
    match h
    case Static(p) =>
      r := Ok(p);
    case Awaited(cell, k) =>
      match cell.state
      case Pending =>
        r := Err(StillPending);
      case Rejected(e) =>
        r := Err(FutureRejected(e));
      case Resolved(l) =>
        r := if k < |l| then Ok(l[k]) else Err(NoSuchElement(k));
  }

  /** The provider path a host file is uploaded to: it depends on the base name alone. */
  function Destination(hostPath: string): (r: string)
    ensures r == InputDir + Basename(hostPath)
    ensures Basename(hostPath) != "" ==> Basename(r) == Basename(hostPath)
  {
    var name := Basename(hostPath);
    assert name != "" ==> Basename(Join(InputDir, name)) == name by {
      if name != "" {
        BasenameOfJoin(InputDir, name);
      }
    }
    Join(InputDir, name)
  }

  /** The upload call for a host file, with the local path taken from the module directory. */
  function UploadCall(moduleDir: string, hostPath: string): Call
  {
    Upload(Join(moduleDir, hostPath), Destination(hostPath))
  }

  /** The value an input gives when it resolves: its words joined by spaces, or the destination
      of the file it uploads. */
  function Value(inp: Input, env: Env): (r: string)
    ensures inp.ArgInput? && inp.values != [] && (forall i :: 0 <= i < |inp.values| ==> ' ' !in inp.values[i]) ==>
      Split(r, ' ') == inp.values
    ensures inp.FileInput? && HostValue(inp.hostPath, env).Ok? ==>
      r == InputDir + Basename(HostValue(inp.hostPath, env).value)
    ensures inp.FileInput? && HostValue(inp.hostPath, env).Ok? && Basename(HostValue(inp.hostPath, env).value) != "" ==>
      Basename(r) == Basename(HostValue(inp.hostPath, env).value)
  {
    match inp
    case ArgInput(values) =>
      assert values != [] && (forall i :: 0 <= i < |values| ==> ' ' !in values[i]) ==>
          Split(JoinWith(values, " "), ' ') == values by {
        if values != [] && forall i :: 0 <= i < |values| ==> ' ' !in values[i] {
          SplitJoin(values, ' ');
        }
      }
      JoinWith(values, " ")
    case FileInput(h) => if HostValue(h, env).Ok? then Destination(HostValue(h, env).value) else ""
  }

  /** What FileInput.uploadFile does for host path p: a retried upload to the destination,
      where a reply carrying a message is an error and is not retried. */
  function UploadFileSpec(respond: Oracle, moduleDir: string, p: string, log: seq<Call>): (r: (Outcome<string>, seq<Call>))
    ensures r.1 == RetrySpec(respond, UploadCall(moduleDir, p), log, UploadRetries).1
    ensures var reply := RetrySpec(respond, UploadCall(moduleDir, p), log, UploadRetries).0;
      r.0.Ok? <==> reply.Returned? && reply.message == ""
    ensures r.0.Ok? ==> r.0.value == Destination(p)
  {
    var attempt := RetrySpec(respond, UploadCall(moduleDir, p), log, UploadRetries);
    var reply, log' := attempt.0, attempt.1;
    if reply.Threw? then (Err(Thrown(reply.error)), log')
    else if reply.message != "" then (Err(UploadFailed(p, reply.message)), log')
    else (Ok(Destination(p)), log')
  }

  /** What uploadToProvider does, starting from call log `log`: its outcome and the log after.
      A file input makes no call before its host path is available. */
  function UploadSpec(inp: Input, env: Env, respond: Oracle, moduleDir: string, log: seq<Call>): (r: (Outcome<string>, seq<Call>))
    ensures |log| <= |r.1| && r.1[..|log|] == log
    ensures inp.ArgInput? ==> r == (Ok(JoinWith(inp.values, " ")), log)
    ensures inp.FileInput? && HostValue(inp.hostPath, env).Err? ==> r == (Err(HostValue(inp.hostPath, env).error), log)
    ensures inp.FileInput? && HostValue(inp.hostPath, env).Ok? ==>
      r == UploadFileSpec(respond, moduleDir, HostValue(inp.hostPath, env).value, log)
    ensures r.0.Ok? ==> r.0.value == Value(inp, env)
  {
    match inp
    case ArgInput(values) => (Ok(JoinWith(values, " ")), log)
    case FileInput(h) =>
      match HostValue(h, env)
      case Err(e) => (Err(e), log)
      case Ok(p) => UploadFileSpec(respond, moduleDir, p, log)
  }

  /** Input.uploadToProvider: ArgInput returns its words, FileInput awaits its host path and
      uploads the file. */
  method UploadToProvider(inp: Input, ctx: WorkContext, ghost env: Env) returns (r: Outcome<string>)
    requires Agrees(env, CellOf(inp))
    modifies ctx
    ensures (r, ctx.log) == UploadSpec(inp, env, ctx.respond, ctx.moduleDir, old(ctx.log))
  {
    match inp
    case ArgInput(values) =>
      r := Ok(JoinWith(values, " "));
    case FileInput(h) =>
      var host := Await(h, env);
      if host.Err? {
        r := Err(host.error);
      } else {
        r := UploadFile(ctx, host.value);
      }
  }

  /** FileInput.uploadFile. */
  method UploadFile(ctx: WorkContext, hostFilePath: string) returns (r: Outcome<string>)
    modifies ctx
    ensures (r, ctx.log) == UploadFileSpec(ctx.respond, ctx.moduleDir, hostFilePath, old(ctx.log))
  {
    var dstPath := Destination(hostFilePath);
    var uploadResult := Retry(ctx, Upload(Join(ctx.moduleDir, hostFilePath), dstPath), UploadRetries);
    if uploadResult.Threw? {
      r := Err(Thrown(uploadResult.error));
    } else if uploadResult.message != "" {
      r := Err(UploadFailed(hostFilePath, uploadResult.message));
    } else {
      r := Ok(dstPath);
    }
  }

  /** Two files with the same base name are uploaded to the same place. */
  lemma SameBasenameSameDestination(p: string, q: string)
    requires Basename(p) == Basename(q)
    ensures Destination(p) == Destination(q)
  {
  }
}

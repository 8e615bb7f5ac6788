/** The remote substrate (golem's TaskExecutor and WorkContext) as an oracle.

    Which reply a call gets is a fixed function of the call and of its position in the call log,
    so a run is determined by the oracle and the log it starts from. The engine only ever uploads,
    executes and downloads; everything else the substrate does is outside this model. */
module Remote {

  datatype Call =
    | Upload(source: string, destination: string)      // ctx.uploadFile
    | Exec(command: string)                            // ctx.run
    | Download(source: string, destination: string)    // ctx.downloadFile

  /** A call either throws, or returns a result whose `message` is "" when nothing went wrong. */
  datatype Reply =
    | Threw(error: string)
    | Returned(message: string, stdout: string)

  type Oracle = (Call, nat) -> Reply

  class WorkContext {
    const respond: Oracle
    /** The directory local upload paths are taken relative to (`__dirname` of the engine). */
    const moduleDir: string
    /** Every call made so far, in order. */
    var log: seq<Call>

    constructor (respond: Oracle, moduleDir: string)
      ensures this.respond == respond && this.moduleDir == moduleDir && log == []
    {
      this.respond := respond;
      this.moduleDir := moduleDir;
      log := [];
    }

    /** One remote call: the oracle answers it and it is appended to the log. */
    method Perform(c: Call) returns (r: Reply)
      modifies this
      ensures r == respond(c, |old(log)|)
      ensures log == old(log) + [c]
    {
      r := respond(c, |log|);
      log := log + [c];
    }
  }

  /** k copies of one call: the log of a call retried k times. */
  function Repeat(c: Call, k: nat): (r: seq<Call>)
    ensures |r| == k && forall i :: 0 <= i < k ==> r[i] == c
  {
    if k == 0 then [] else [c] + Repeat(c, k - 1)
  }

  lemma AppendAssoc(a: seq<Call>, b: seq<Call>, c: seq<Call>)
    ensures a + (b + c) == (a + b) + c
  {
  }

  lemma TakeAppend<T>(a: seq<T>, x: T)
    ensures (a + [x])[..|a|] == a && (a + [x])[|a|] == x
  {
  }

  /** A prefix of a prefix is a prefix. */
  lemma PrefixTrans(a: seq<Call>, b: seq<Call>, c: seq<Call>)
    requires |a| <= |b| && b[..|a|] == a
    requires |b| <= |c| && c[..|b|] == b
    ensures |a| <= |c| && c[..|a|] == a
  {
    assert forall i :: 0 <= i < |a| ==> c[i] == b[i];
  }
}

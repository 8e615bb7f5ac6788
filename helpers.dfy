/** src/helpers.ts: the deferred promise and the retry combinator. */
module Helpers {

  import opened Remote

  /** The state of a promise: pending until it is settled, then settled for good. */
  datatype Settlement<+T> = Pending | Resolved(value: T) | Rejected(reason: string)

  /** Settling a promise: only the first settlement has an effect. */
  function Settle<T>(s: Settlement<T>, v: Settlement<T>): (r: Settlement<T>)
    requires !v.Pending?
    ensures !r.Pending?
    ensures s.Pending? ==> r == v
    ensures !s.Pending? ==> r == s
  {
    if s.Pending? then v else s
  }

  /** createDeferedPromise: a promise together with the resolve and reject bound to it. */
  class Deferred<T> {
    var state: Settlement<T>

    constructor ()
      ensures state == Pending
    {
      state := Pending;
    }

    method Resolve(v: T)
      modifies this
      ensures state == Settle(old(state), Resolved(v))
    {
      state := Settle(state, Resolved(v));
    }

    method Reject(reason: string)
      modifies this
      ensures state == Settle(old(state), Rejected(reason))
    {
      state := Settle(state, Rejected(reason));
    }
  }

  /** What `retry(() => call, retries)` does against the oracle, starting from `log`: the reply
      it ends with and the log afterwards. The call is repeated while it throws, at most
      retries + 1 times; the first reply that is not a throw is returned, and if every attempt
      throws, the last error is. */
  function RetrySpec(respond: Oracle, c: Call, log: seq<Call>, retries: nat): (r: (Reply, seq<Call>))
    ensures |log| < |r.1| <= |log| + retries + 1
    ensures r.1 == log + Repeat(c, |r.1| - |log|)
    ensures r.0 == respond(c, |r.1| - 1)
    ensures forall j :: |log| <= j < |r.1| - 1 ==> respond(c, j).Threw?
    ensures !r.0.Threw? || |r.1| == |log| + retries + 1
    decreases retries
  {
    var reply := respond(c, |log|);
    if reply.Threw? && retries > 0 then RetrySpec(respond, c, log + [c], retries - 1)
    else (reply, log + [c])
  }

  /** retry(fn, retries) where fn is one remote call. */
  method Retry(ctx: WorkContext, c: Call, retries: nat) returns (r: Reply)
    modifies ctx
    ensures (r, ctx.log) == RetrySpec(ctx.respond, c, old(ctx.log), retries)
    decreases retries
  {
    r := ctx.Perform(c);
    if r.Threw? && retries > 0 {
      r := Retry(ctx, c, retries - 1);
    }
  }

  /** With no retries left the call is made exactly once. */
  lemma RetryOnce(respond: Oracle, c: Call, log: seq<Call>)
    ensures RetrySpec(respond, c, log, 0) == (respond(c, |log|), log + [c])
  {
  }

  /** If attempt k is the first that does not throw, retry returns its reply after k + 1 calls. */
  lemma {:induction false} RetryStopsAtFirstSuccess(respond: Oracle, c: Call, log: seq<Call>, retries: nat, k: nat)
    requires k <= retries
    requires forall j :: |log| <= j < |log| + k ==> respond(c, j).Threw?
    requires !respond(c, |log| + k).Threw?
    ensures RetrySpec(respond, c, log, retries) == (respond(c, |log| + k), log + Repeat(c, k + 1))
    decreases k
  {
    if k > 0 {
      RetryStopsAtFirstSuccess(respond, c, log + [c], retries - 1, k - 1);
      assert log + [c] + Repeat(c, k) == log + Repeat(c, k + 1);
    }
  }
}

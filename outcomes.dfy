/** Success and failure values shared by every part of the engine.

    The source reports failures by throwing (or by rejecting a promise); here a failing
    operation returns `Err` with one of the `Error` kinds below instead. */
module Outcomes {

  datatype Option<+T> = None | Some(value: T)

  /** Why an operation failed. */
  datatype Error =
    | StillPending                              // an awaited future has not settled yet
    | FutureRejected(reason: string)            // an awaited future was rejected
    | NoSuchElement(index: nat)                 // `o[k]` of a resolved list that has no element k
    | Thrown(cause: string)                     // a remote call threw; the cause is passed on unchanged
    | UploadFailed(hostPath: string, message: string)
    | TaskFailed(stdout: string)                // the remote command reported a message
    | DownloadFailed(source: string, message: string)
    | ReadFailed(path: string)                  // readFile rejected: no file there
    | Corrupt(path: string)                     // JSON.parse rejected the stored record
    | WriteFailed(path: string)                 // writeFile rejected: no parent directory, or a directory there
    | MkdirFailed(path: string)                 // mkdir -p met a file on the way
    | NoCheckpointer                            // the stage was never given a checkpointer
    | NoResolver(name: string)                  // no resolver is stored under this qualified name

  datatype Outcome<+T> = Ok(value: T) | Err(error: Error)

  /** The outcome of two steps that both run whatever the first gives: the first failure, if any. */
  function FirstError(first: Outcome<()>, next: Outcome<()>): (r: Outcome<()>)
    ensures r.Ok? <==> first.Ok? && next.Ok?
    ensures first.Err? ==> r == first
    ensures first.Ok? ==> r == next
  {
    if first.Err? then first else next
  }
}

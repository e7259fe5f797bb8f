/** Optional values and the ways an esmero operation can end abnormally. */
module Outcomes {

  datatype Option<+T> = None | Some(value: T)

  /** How a run stops early.  `Exit` is an explicit `sys.exit` through the
      command package's `error` helper (message to stderr, then exit code);
      `Uncaught` is a Python exception nobody handles inside the command,
      which the top-level handler of the program logs and swallows. */
  datatype Failure =
    | Exit(code: int, message: string)
    | Uncaught(reason: string)

  datatype Result<+T> = Ok(value: T) | Err(failure: Failure) {
    predicate IsFailure() { Err? }

    function PropagateFailure<U>(): Result<U>
      requires Err?
    {
      Err(failure)
    }

    function Extract(): T
      requires Ok?
    {
      value
    }
  }
}

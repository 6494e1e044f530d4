/** Failure values shared by the two solver scripts.  Both scripts are
    straight-line Python 2 programs: an exception (or a call of `exit()`)
    ends the whole run, so every operation that can raise returns a
    `Result`, and a run that stops early reports the `Error` that stopped it. */
module Errors {

  /** The ways a run of either script can stop before its corpus is done. */
  datatype Error =
    | IndexError   // a list or string index out of range, or `pop(0)` on an empty list
    | ValueError   // `int(s, 16)` on a token that is not a hexadecimal literal
    | PackError    // `struct.pack('Q', ...)` on a value outside [0, 2^64)
    | Exit         // `dump` has no tool for the mode or architecture: a message, then `exit()`

  datatype Option<+T> = None | Some(value: T)

  datatype Result<+T> = Ok(value: T) | Fail(error: Error) {
    predicate IsFailure() { Fail? }

    function PropagateFailure<U>(): Result<U>
      requires Fail?
    {
      Fail(error)
    }

    function Extract(): T
      requires Ok?
    {
      value
    }
  }

  /** The outcome of a loop that may stop early: the state reached so far,
      and the error that stopped it, if any. */
  datatype Run<+S> = Run(state: S, crash: Option<Error>)
}

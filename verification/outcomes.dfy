/** Failure-carrying values shared by every module: the Python exceptions the
    modelled code raises become `Err` values instead of control flow. */
module Outcomes {

  /** The exceptions that can escape the modelled operations. */
  datatype Error =
    | IndexError                     // a list index out of range
    | KeyError(key: string)          // a missing dictionary key
    | ValueError(message: string)    // an explicit `raise ValueError(...)`
    | AssertionError(message: string)
    | TypeError(message: string)     // an operation applied to `None`
    | NotImplementedError(message: string)
    | CalledProcessError(returnCode: int) // a `check=True` subprocess that exited nonzero
    | TimeoutExpired                 // a subprocess that outlived its `timeout`
    | OSError                        // the process could not be started at all

  datatype Result<+T> = Ok(value: T) | Err(error: Error) {
    predicate IsFailure() {
      Err?
    }

    function PropagateFailure<U>(): Result<U>
      requires Err?
    {
      Err(error)
    }

    function Extract(): T
      requires Ok?
    {
      value
    }
  }

  datatype Option<+T> = None | Some(value: T)
}

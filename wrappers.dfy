/**
 * Failure-carrying results. On the inputs its preconditions admit, each of the
 * model's operations returns an `Err` exactly where the Python code raises,
 * naming the exception class it raises.
 */
module Wrappers {

  datatype Option<+T> = None | Some(value: T)

  /** The Python exception classes the modelled code can raise. */
  datatype Error =
    | ZeroDivisionError
    | ValueError
    | NotImplementedError
    | AssertionError
    | IndexError
    | RuntimeError  // einops' EinopsError derives from RuntimeError

  datatype Result<+T> = Ok(value: T) | Err(error: Error) {
    predicate IsFailure() {
      Err?
    }

    function PropagateFailure<U>(): Result<U>
      requires Err?
    {
      Err(error)
    }

    function Extract(): T
      requires Ok?
    {
      value
    }
  }
}

/** Failure-compatible wrappers used across the model: a value that may be
    absent, and a value or the error the source raises instead. */
module Wrappers {

  datatype Option<+T> = None | Some(value: T)

  datatype Result<+T, +E> = Ok(value: T) | Err(error: E) {
    predicate IsFailure() {
      Err?
    }

    function PropagateFailure<U>(): Result<U, E>
      requires Err?
    {
      Err(error)
    }

    function Extract(): T
      requires Ok?
    {
      value
    }
  }

  /** How a Python call ended: normally, or with an exception escaping it.
      The exception kinds are the ones the modelled code can raise. */
  datatype Outcome = Done | Raised(exc: Exc)

  datatype Exc =
    | AssertionError
    | KeyError
    | TypeError
      /** `raise Exception(message)` */
    | Failure(message: string)
    | FileNotFoundError
    | AttributeError

  /** A value decoded from JSON or passed to a Python function untyped:
      a string, an integer, or anything else (carrying its `str()`). */
  datatype Value = Str(s: string) | Int(i: int) | Other(text: string)

  /** Which reading of a defective piece of code a member follows: the code
      as written, or the evident intent. */
  datatype Variant = AsWritten | Corrected
}

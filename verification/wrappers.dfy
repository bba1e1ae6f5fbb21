/** Failure-carrying datatypes shared by the TerraTime model.

  - Option<T> stands for a Python value that may be `None`.
  - Result<T, E> is a value or the error that stopped its computation.
  - Reply<T> is the outcome of a call into a remote service: either the
    service returned a value, or it raised an exception of some kind.
 */
module Wrappers {

  datatype Option<+T> = None | Some(value: T) {

    /** The value, or `default` when there is none. */
    function GetOr(default: T): T {
      match this
      case Some(v) => v
      case None => default
    }
  }

  /** A computation that either succeeds with a value or stops with an error. */
  datatype Result<+T, +E> = Success(value: T) | Failure(error: E)

  /** The exception classes the source distinguishes in its `except` clauses. */
  datatype Fault = TimedOut | ServiceError | OtherError

  /** What a remote call did: returned normally, or raised. */
  datatype Reply<+T> = Returned(value: T) | Raised(fault: Fault)
}

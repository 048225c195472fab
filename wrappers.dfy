/** Failure-compatible result types shared by the modules of this model. */
module Wrappers {

  datatype Option<+T> = None | Some(value: T) {
    function GetOr(default: T): T {
      match this
      case Some(v) => v
      case None => default
    }
  }

  /** The outcome of an operation that either yields a value or raises an error. */
  datatype Result<+R, +E> = Success(value: R) | Failure(error: E) {
    predicate IsFailure() { Failure? }
    function PropagateFailure<U>(): Result<U, E>
      requires Failure?
    {
      Failure(error)
    }
    function Extract(): R
      requires Success?
    {
      value
    }
  }

  /** The outcome of an operation that returns nothing but may raise an error. */
  datatype Outcome<+E> = Pass | Fail(error: E)
}

/** Failure-compatible result types shared by the rewrites. */
module Wrappers {

  datatype Option<+T> = None | Some(value: T)

  /** The outcome of a rewrite: the rewritten value, or the reason the match failed. */
  datatype Result<+R, +E> = Success(value: R) | Failure(error: E) {
    predicate IsFailure() { Failure? }

    function PropagateFailure<U>(): Result<U, E>
      requires Failure?
    {
      Failure(error)
    }

    function Extract(): R
      requires Success?
    {
      value
    }
  }
}

/** Option and Result, the shapes used for Java's nullable references and thrown exceptions. */
module Wrappers {

  /** A Java reference that may be null: None is null. */
  datatype Option<+T> = None | Some(value: T)

  /** The outcome of a Java call: a value, or the exception it throws. */
  datatype Result<+T, +E> = Success(value: T) | Failure(error: E) {

    predicate IsFailure() {
      Failure?
    }

    /** The exception of a failed call, propagated by `:-` to the caller's result type. */
    function PropagateFailure<U>(): Result<U, E>
      requires Failure?
    {
      Failure(error)
    }

    function Extract(): T
      requires Success?
    {
      value
    }
  }
}

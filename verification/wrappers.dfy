/** Option and Result datatypes used to model Java's null returns and thrown errors. */
module Wrappers {

  /** A value that may be absent; models a Java reference that may be null. */
  datatype Option<+T> = None | Some(value: T)

  /** The outcome of an operation that may throw; `:-` propagates a Failure. */
  datatype Result<+T, +E> = Success(value: T) | Failure(error: E) {

    predicate IsFailure() {
      Failure?
    }

    function PropagateFailure<U>(): Result<U, E>
      requires Failure?
    {
      Failure(error)
    }

    function Extract(): T
      requires Success?
    {
      value
    }
  }
}

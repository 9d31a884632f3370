/** The outcome of an operation that may fail. */
module Wrappers {

  /** Either a value or the error that aborted the computation. `:-` passes
      a failure on unchanged. */
  datatype Result<+T, +E> = Success(value: T) | Failure(error: E) {

    predicate IsFailure() {
      Failure?
    }

    function PropagateFailure<U>(): Result<U, E>
      requires Failure?
    {
      Failure(error)
    }

    function Extract(): T
      requires Success?
    {
      value
    }
  }
}

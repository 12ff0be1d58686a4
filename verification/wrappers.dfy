/** `Option`, and the failure-compatible `Result` used with `:-`, shared by the other modules. */
module Wrappers {

  /** An optional value: what a host lookup yields when nothing may be there. */
  datatype Option<+T> = None | Some(value: T)

  /** A computed value, or the error a JavaScript expression would throw. */
  datatype Result<+R, +E> = Success(value: R) | Failure(error: E) {

    predicate IsFailure() {
      Failure?
    }

    function PropagateFailure<U>(): Result<U, E>
      requires Failure?
    {
      Failure(error)
    }

    function Extract(): R
      requires Success?
    {
      value
    }
  }
}

/** Failure-carrying datatypes shared by the whole model: an optional value
    (PHP's nullable results) and a success-or-error result (the HTTP
    handlers' success payload or error response). */
module Wrappers {

  /** A value that may be absent, as PHP's `null`. */
  datatype Option<+T> = None | Some(value: T) {

    /** The wrapped value, or `default` when absent (PHP's `??`). */
    function GetOr(default: T): T {
      match this
      case Some(v) => v
      case None => default
    }
  }

  /** PHP truthiness of a nullable number: null and zero are false. */
  predicate Truthy(x: Option<real>) {
    x.Some? && x.value != 0.0
  }

  /** Either the value an operation produced or the error it reported. */
  datatype Result<+T, +E> = Ok(value: T) | Err(error: E) {

    predicate IsFailure() {
      Err?
    }

    function PropagateFailure<U>(): Result<U, E>
      requires Err?
    {
      Err(error)
    }

    function Extract(): T
      requires Ok?
    {
      value
    }
  }
}

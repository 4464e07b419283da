// Option, Result and Outcome: the failure-compatible wrappers used to model
// the exceptions the builder lets escape.
module Wrappers {

  datatype Option<+T> = None | Some(value: T)

  /** The value of a pure step: either the new value or the error it raised. */
  datatype Result<+T, +E> = Ok(value: T) | Err(error: E) {
    predicate IsFailure() { Err? }

    function PropagateFailure<U>(): Result<U, E>
      requires Err?
    {
      Err(error)
    }

    function Extract(): T
      requires Ok?
    {
      value
    }
  }

  /** What a state-changing method reports: it finished, or it raised `error`. */
  datatype Outcome<+E> = Pass | Fail(error: E) {
    predicate IsFailure() { Fail? }

    function PropagateFailure(): Outcome<E>
      requires Fail?
    {
      this
    }
  }
}

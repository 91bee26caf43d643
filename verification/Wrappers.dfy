/** Shared result types: a value that may be absent, and a computation that may raise. */
module Wrappers {

  datatype Option<+T> = None | Some(value: T) {

    predicate IsFailure() {
      None?
    }

    function PropagateFailure<U>(): Option<U>
      requires None?
    {
      None
    }

    function Extract(): T
      requires Some?
    {
      value
    }
  }

  /** A normal return, or the exception raised instead. */
  datatype Result<+T, +E> = Ok(value: T) | Raise(error: E) {

    predicate IsFailure() {
      Raise?
    }

    function PropagateFailure<U>(): Result<U, E>
      requires Raise?
    {
      Raise(error)
    }

    function Extract(): T
      requires Ok?
    {
      value
    }
  }
}

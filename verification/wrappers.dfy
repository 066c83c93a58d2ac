/** Option and Result, the two shapes every query and action of the
    marketplace backend returns. A thrown JavaScript value becomes an `Err`:
    almost always an `Error` with a message, and `NonError` for a thrown
    value that is not an `Error` instance (the HTTP route tells the two apart). */
module Wrappers {

  datatype Option<+T> = None | Some(value: T)

  /** A value thrown by the backend code or by a foreign call. */
  datatype Thrown = Error(message: string) | NonError

  datatype Result<+T> = Ok(value: T) | Err(thrown: Thrown) {

    predicate IsFailure() {
      Err?
    }

    function PropagateFailure<U>(): Result<U>
      requires Err?
    {
      Err(thrown)
    }

    function Extract(): T
      requires Ok?
    {
      value
    }
  }

  /** `throw new Error(message)` */
  function Fail<T>(message: string): Result<T> {
    Err(Error(message))
  }
}

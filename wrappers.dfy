/** Option and Result, used for the source's `null`/`undefined` values and for thrown errors. */
module Wrappers {

  datatype Option<+T> = None | Some(value: T)

  /** The outcome of an operation that either returns a value or throws an error. */
  datatype Result<+R, +E> = Success(value: R) | Failure(error: E)

  /** A thrown JavaScript value: an `Error` with its message, or anything else. */
  datatype Thrown = ErrorObject(message: string) | OtherValue

  /** `error instanceof Error ? error.message : fallback`. */
  function MessageOr(thrown: Thrown, fallback: string): (m: string)
    ensures thrown.ErrorObject? ==> m == thrown.message
    ensures thrown.OtherValue? ==> m == fallback
  {
    match thrown
    case ErrorObject(message) => message
    case OtherValue => fallback
  }
}

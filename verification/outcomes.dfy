/** Failure-carrying values shared by every module of the model.

    Go returns `(value, error)` pairs; the model folds such a pair into a
    `Result`, and a bare `error` into a `Status`. Error texts are kept only
    where a caller can observe which check failed. */
module Outcomes {

  /** An optional value: Go's nil values and "unset" filters. */
  datatype Option<+T> = None | Some(value: T)

  /** A value or the message of the error that replaced it. */
  datatype Result<+T> = Ok(value: T) | Err(message: string)

  /** The outcome of an operation that returns only an `error`. */
  datatype Status = Pass | Fail(message: string)

  function Min(a: real, b: real): (r: real)
    ensures r <= a && r <= b
    ensures r == a || r == b
  {
    if a <= b then a else b
  }
}

/** Failure-carrying values used throughout the loan engine model.
    Go returns `(value, error)` pairs; here a call either yields a value or
    an error message, never both. */
module Results {

  /** A value that may be absent (a cache miss, a payload that does not decode). */
  datatype Option<+T> = None | Some(value: T)

  /** The outcome of a call that returns a value or a Go `error`, whose text is kept. */
  datatype Result<+T> = Ok(value: T) | Err(error: string)

  /** The outcome of a call that returns only a Go `error` (nil is `Pass`). */
  datatype Outcome = Pass | Fail(error: string)
}

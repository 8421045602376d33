/** Failure-carrying values that stand for the exceptions the front end raises. */
module Results {

  /** A value that may be absent: the parser's "no current token". */
  datatype Option<+T> = None | Some(value: T)

  /** A successful value or an error. */
  datatype Result<+T, +E> = Ok(value: T) | Err(error: E)

  /** Success without a value, or an error: the outcome of a parsing routine. */
  datatype Outcome<+E> = Pass | Fail(error: E)
}

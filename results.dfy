/** Values that may be absent, and outcomes that may be exceptions. */
module Results {

  datatype Option<+T> = None | Some(value: T)

  /** A call that returns a value or throws. */
  datatype Result<+T, +E> = Ok(value: T) | Err(error: E)

  /** A `void` call that returns normally or throws. */
  datatype Outcome<+E> = Pass | Fail(error: E)
}

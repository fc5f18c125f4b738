/** Option and Result values used where the tracker either has a value or a failure. */
module Results {

  datatype Option<+T> = None | Some(value: T)

  /** The outcome of reading a file: its decoded text, or the message of the exception raised. */
  datatype Result<+T, +E> = Ok(value: T) | Err(error: E)
}

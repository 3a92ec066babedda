/** Nullable values and thrown exceptions, as values. */
module Results {

  /** A reference that may be null. */
  datatype Option<+T> = None | Some(value: T)

  /** A call that either returns a value or throws an exception of kind `error`. */
  datatype Result<+T, +E> = Ok(value: T) | Err(error: E)
}

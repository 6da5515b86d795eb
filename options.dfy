/** Option and Result values shared by the other modules. */
module Options {

  /** A value that may be absent (Python's `None`). */
  datatype Option<+T> = None | Some(value: T)

  /** Either a value or an error, for code paths that raise in the source. */
  datatype Result<+T, +E> = Success(value: T) | Failure(error: E)
}

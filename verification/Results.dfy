/** Outcome of an operation that the engine may refuse, and optional values. */
module Results {

  datatype Option<+T> = None | Some(value: T)

  /** Success carries the value; Failure carries the error code the source throws. */
  datatype Result<+T, +E> = Success(value: T) | Failure(error: E)
}

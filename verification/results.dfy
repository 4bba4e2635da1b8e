/** The optional value and the success-or-error outcome shared by the whole model. */
module Results {

  /** A value that may be missing: a pandas NaN/None cell, a line that sets nothing. */
  datatype Option<+T> = None | Some(value: T)

  /** The outcome of a step that can raise instead of returning. */
  datatype Result<+T, +E> = Success(value: T) | Failure(error: E)
}

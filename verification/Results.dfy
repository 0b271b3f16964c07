/** Option and Result values used throughout the model: `Option` stands for a
    property that may be `undefined`, `Result` for a call that either returns a
    value or throws. */
module Results {

  /** A value that may be absent (`undefined` in the source). */
  datatype Option<+T> = None | Some(value: T)

  /** The outcome of an operation that may throw instead of returning. */
  datatype Result<+T, +E> = Success(value: T) | Failure(error: E)
}

/** Failure-carrying values shared by every stage of the conversion. */
module Results {

  datatype Option<+T> = None | Some(value: T)

  /** The outcome of a stage that either produces a value or aborts the conversion. */
  datatype Result<+T, +E> = Success(value: T) | Failure(error: E)
}

/** Failure-carrying values shared by every module of the model. */
module Results {

  /** An optional value: Python's `None` versus a present value. */
  datatype Option<+T> = None | Some(value: T)

  /** The outcome of a call that may raise: its value, or the text `str(e)` of the exception. */
  datatype Result<+T, +E> = Success(value: T) | Failure(error: E)
}

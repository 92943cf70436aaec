/** Failure-carrying wrappers shared by every module of the intake model. */
module Results {

  /** An optional value: Python's `None` or a present value. */
  datatype Option<+T> = None | Some(value: T)

  /** The outcome of an operation that returns a value or reports one of its own error kinds. */
  datatype Result<+T, +E> = Success(value: T) | Failure(error: E)

  /** The outcome of a call into code outside the model (ffmpeg, the speech-to-text
      service, the language model): a value, or the text of the exception it raised. */
  datatype Outcome<+T> = Ok(value: T) | Fail(message: string)
}

/** Failure-carrying wrappers shared by the stack and the evaluator. */
module Results {

  datatype Option<T> = None | Some(value: T)

  /** The outcome of an evaluation step: a value, or the reason it failed. */
  datatype Result<T, E> = Ok(value: T) | Err(error: E)
}

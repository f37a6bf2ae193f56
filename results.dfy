/** Option and Result wrappers shared by every stage of the compiler model. */
module Results {

  /** A value that may be absent: the model's stand-in for a Java null reference. */
  datatype Option<+T> = None | Some(value: T)

  /** The outcome of an operation that the source may abort with an exception. */
  datatype Result<+T, +E> = Ok(value: T) | Err(error: E)
}

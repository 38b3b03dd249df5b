/** Optional values and error outcomes shared by the modules of the model. */
module Results {
  /** A value that may be absent, like Python's `None`. */
  datatype Option<T> = None | Some(value: T)

  /** The outcome of an operation that raises instead of returning. */
  datatype Result<T> = Ok(value: T) | Err(error: string)
}

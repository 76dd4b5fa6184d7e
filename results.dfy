/** Optional values and error-carrying results, shared by the other modules. */
module Results {

  /** `None` plays the role of Python's `None` (and of `-inf` for an absent best score). */
  datatype Option<+T> = None | Some(value: T)

  /** The outcome of an operation that may raise. */
  datatype Result<+T, +E> = Ok(value: T) | Err(error: E)
}

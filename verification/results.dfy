/** Optional values and success-or-error results, shared by the classifier and the pedigree resolver. */
module Results {

  /** A value that may be absent. A missing or NaN table cell is `None`. */
  datatype Option<+T> = None | Some(value: T)

  /** The outcome of an operation that can raise: `Ok` with its value, or `Err` with the error. */
  datatype Result<+T, +E> = Ok(value: T) | Err(error: E)
}

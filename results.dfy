/** Outcomes of the library's operations: a value or nothing, a value or an error. */
module Results {

  /** `null`/`undefined` versus a present value. */
  datatype Option<+T> = None | Some(value: T)

  /** A returned value, or the exception the operation throws. */
  datatype Result<+T, +E> = Ok(value: T) | Err(error: E)
}

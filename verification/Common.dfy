/** Value types shared by every module. */
module Common {

  /** A nullable column or a missing dictionary entry. */
  datatype Option<+T> = None | Some(value: T)

  /** A call that either returns a value or raises. */
  datatype Result<+T, +E> = Ok(value: T) | Err(error: E)
}

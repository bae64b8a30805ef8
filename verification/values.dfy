/** Small failure-carrying wrappers shared by the decoder and service models. */
module Values {

  /** A value that may be missing (JavaScript's `undefined`). */
  datatype Option<+T> = None | Some(value: T)

  /** The outcome of an operation that can fail with an error value. */
  datatype Result<+R, +E> = Ok(value: R) | Err(error: E)
}

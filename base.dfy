/** Shared vocabulary: bytes and the usual failure-carrying wrappers. */
module Base {

  /** One octet, as Python's `bytes` holds it. */
  type byte = x: int | 0 <= x < 256

  datatype Option<+T> = None | Some(value: T)

  datatype Result<+T, +E> = Ok(value: T) | Err(error: E)

  /** How a call into the transport ended: it returned, or it raised. */
  datatype CallResult = Returned | Raised
}

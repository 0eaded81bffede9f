/** Types that several modules share. */
module Wrappers {
  type Byte = x: int | 0 <= x < 256

  /** A value that may be missing. */
  datatype Option<T> = None | Some(value: T)

  /** What an operation comes to that may fail. */
  datatype Result<T, E> = Ok(value: T) | Err(error: E)
}

/** The result shapes the balancer's fallible operations share, and raw bytes. */
module Wrappers {

  datatype Option<+T> = None | Some(value: T)

  datatype Result<+T, +E> = Ok(value: T) | Err(error: E)

  newtype Byte = n: int | 0 <= n < 256

  type Bytes = seq<Byte>
}

/** Optional values, results, and the fixed-width integers the program uses. */
module Wrappers {
  datatype Option<+T> = None | Some(value: T)

  datatype Result<+T, +E> = Ok(value: T) | Err(error: E)

  const MAX_U32: nat := 0xFFFF_FFFF

  type U32 = n: nat | n <= MAX_U32
}

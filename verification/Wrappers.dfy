/** Success/failure, presence/absence and the width of the source's integers, used across the model. */
module Wrappers {
  const U64_MAX: nat := 0xFFFF_FFFF_FFFF_FFFF

  datatype Option<+T> = None | Some(value: T)

  datatype Result<+T, +E> = Ok(value: T) | Err(error: E)
}

/** Optional values and results, used where the C code returns NULL or jumps to an error label. */
module Wrappers {

  datatype Option<+T> = None | Some(value: T)

  datatype Result<+T, +E> = Ok(value: T) | Err(error: E)
}

/** Optional values and results with an error, used for the library calls the
    console writer depends on and for the outcome of rendering. */
module Wrappers {

  datatype Option<+T> = None | Some(value: T)

  datatype Result<+T, +E> = Ok(value: T) | Err(error: E)
}

/** Optional values and results, for JavaScript's `undefined`/`null` and for
    operations that either succeed or report an error. */
module Wrappers {

  datatype Option<+T> = None | Some(value: T)

  datatype Result<+T, +E> = Ok(value: T) | Err(error: E)
}

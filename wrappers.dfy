/** Optional values (a TypeScript `T | undefined`) and outcomes that may fail
    (a call that can throw). */
module Wrappers {

  datatype Option<+T> = None | Some(value: T)

  datatype Result<+T, +E> = Ok(value: T) | Err(error: E)
}

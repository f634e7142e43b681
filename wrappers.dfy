/** Optional values and fallible results, as the harness's dictionary lookups and raising calls need them. */
module Wrappers {

  datatype Option<+T> = None | Some(value: T)

  datatype Result<+T, +E> = Ok(value: T) | Err(error: E)
}

/** Optional values and error-carrying results, used for missing cells (NaN/NaT),
    failed lookups and the errors the dashboard script raises. */
module Wrappers {

  datatype Option<+T> = None | Some(value: T)

  datatype Result<+R, +E> = Ok(value: R) | Err(error: E)
}

/** Optional values and results that carry the name of the exception the scripts raise. */
module Wrappers {

  datatype Option<+T> = None | Some(value: T)

  /** `Err` carries the Python exception class (and a short reason) the script raises. */
  datatype Result<+T> = Ok(value: T) | Err(error: string)
}

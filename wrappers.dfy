/** Optional values and results, the stand-ins for JavaScript's `undefined`, `NaN` and thrown errors. */
module Wrappers {

  datatype Option<+T> = None | Some(value: T)

  /** `Err` carries the name of the error the JavaScript code would throw. */
  datatype Result<+T> = Ok(value: T) | Err(error: string)
}

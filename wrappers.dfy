/** Optional values and results with an error message, used for the
    JavaScript values that may be missing and for the errors the app throws. */
module Wrappers {

  datatype Option<+T> = None | Some(value: T)

  /** `Err` carries the `message` of the JavaScript `Error` that was thrown. */
  datatype Result<+T> = Ok(value: T) | Err(error: string)
}

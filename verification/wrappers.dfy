/** Optional values and success-or-error results, the model's stand-ins for
    JavaScript's `null` returns and thrown exceptions. */
module Wrappers {

  datatype Option<+T> = None | Some(value: T)

  /** `Err` carries the message of the error the source would throw. */
  datatype Result<+T> = Ok(value: T) | Err(message: string)
}

/** Option and Result, the model's stand-ins for Python's `None` and raised exceptions. */
module Wrappers {

  datatype Option<+T> = None | Some(value: T)

  /** `Err` stands for an exception that escapes the modelled call. */
  datatype Result<+T> = Ok(value: T) | Err(error: string)
}

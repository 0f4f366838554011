/** Option and Result datatypes used for the app's failure paths. */
module Wrappers {

  datatype Option<+T> = None | Some(value: T)

  /** A value, or the message of the exception the Python code raises instead. */
  datatype Result<+T> = Ok(value: T) | Err(message: string)
}

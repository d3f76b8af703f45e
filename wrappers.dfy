/** Failure-carrying results: Python exceptions of the modelled code become `Err`. */
module Wrappers {

  datatype Option<+T> = None | Some(value: T)

  /** `Err` carries the text of the exception the Python code raises. */
  datatype Result<+T> = Ok(value: T) | Err(error: string)
}

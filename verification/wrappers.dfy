/** The Option and Result datatypes used across the model. */
module Wrappers {

  datatype Option<+T> = None | Some(value: T)

  /** Either a value or an error; the error carries the text the program reports. */
  datatype Result<+R, +E> = Success(value: R) | Failure(error: E)
}

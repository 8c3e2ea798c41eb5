/** Results and options: refusals and missing values as data. */
module Wrappers {

  datatype Option<+T> = None | Some(value: T)

  datatype Result<+T, +E> = Ok(value: T) | Err(error: E)

  /** The result of a check that returns nothing but may refuse. */
  datatype Outcome<+E> = Pass | Fail(error: E)
}

/** The two result types of the project. */
module Wrappers {

  datatype Option<+T> = None | Some(value: T)

  /** A value, or the exception the operation raised. */
  datatype Result<+T> = Ok(value: T) | Raised(reason: string)
}

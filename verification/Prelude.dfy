/** Datatypes shared by the modules of this project. */
module Prelude {

  /** A value that may be absent. */
  datatype Option<+T> = None | Some(value: T)

  /** The outcome of an operation that may fail. */
  datatype Result<+T, +E> = Ok(value: T) | Err(error: E)

  /** The outcome of an operation that has nothing to return. */
  datatype Outcome<+E> = Pass | Fail(error: E)
}

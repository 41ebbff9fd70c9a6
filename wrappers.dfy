/** Result and optional-value types shared by the modules of this model. */
module Wrappers {

  /** A value that may be absent: stands for a Java reference that may be null,
      or for a `java.util.Optional`. */
  datatype Option<+T> = None | Some(value: T)

  /** The outcome of a call that returns a value or throws. */
  datatype Result<+R, +E> = Ok(value: R) | Err(error: E)

  /** The outcome of a `void` call that either returns normally or throws. */
  datatype Outcome<+E> = Pass | Fail(error: E)
}

/** Failure-carrying values shared by every module of the model. */
module Wrappers {

  /** A value that may be absent: `None` stands for a Python exception
      (ValueError) that the modelled code lets propagate. */
  datatype Option<+T> = None | Some(value: T)

  /** A value or the error the modelled call raises instead. */
  datatype Result<+T, +E> = Ok(value: T) | Err(error: E)
}

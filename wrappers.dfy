/** Wrappers shared by the model. */
module Wrappers {

  /** A value that may be missing: an absent header, an unparseable setting, a key not in the store. */
  datatype Option<+T> = None | Some(value: T)

  /** Pass or fail with an error value, for operations that return nothing on success. */
  datatype Outcome<+E> = Pass | Fail(error: E)
}

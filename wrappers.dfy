/** Failure-compatible optional values shared by the other modules. */
module Wrappers {

  /** A value that may be missing, used in place of a nullable pointer. */
  datatype Option<+T> = None | Some(value: T)
}

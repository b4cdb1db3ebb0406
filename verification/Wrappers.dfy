/** Shared result types. */
module Wrappers {

  /** A value that the program may lack: a nil reference, a missing key, a nil error. */
  datatype Option<+T> = None | Some(value: T)
}

/** The optional value used throughout the project in place of Go's nil and zero values. */
module Wrappers {
  datatype Option<+T> = None | Some(value: T)
}

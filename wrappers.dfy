/** The outcome of a handler that may do nothing. */
module Wrappers {
  datatype Option<+T> = None | Some(value: T)
}

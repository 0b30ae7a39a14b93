// Shared value types.
module Wrappers {
  /** A value that may be absent: the source's `None`. */
  datatype Option<+T> = None | Some(value: T)
}

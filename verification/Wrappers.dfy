module Wrappers {
  // A value that may be absent: null, undefined or a missing file in the source.
  datatype Option<+T> = None | Some(value: T)
}

/** A value that may be missing: the source's null pointers and failed look-ups. */
module Wrappers {
  datatype Option<+T> = None | Some(value: T)
}

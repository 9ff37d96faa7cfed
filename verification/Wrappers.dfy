module Wrappers {
  /** A value that may be missing: a NULL pointer, an absent key. */
  datatype Option<+T> = None | Some(value: T)
}

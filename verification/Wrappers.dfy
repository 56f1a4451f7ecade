module Wrappers {
  /** A Python `None` / JavaScript `null`, or a value. */
  datatype Option<+T> = None | Some(value: T)
}

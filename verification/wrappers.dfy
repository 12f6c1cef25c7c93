/** The optional value used wherever the relay's Python code reads a key that may be
    absent or a JSON value that may be null. */
module Wrappers {
  datatype Option<+T> = None | Some(value: T)
}

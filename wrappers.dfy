/** The optional value that stands for Python's `None` in a returned pair. */
module Wrappers {
  datatype Option<+T> = None | Some(value: T)
}

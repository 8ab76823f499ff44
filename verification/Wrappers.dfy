/** The usual optional value; None stands for Python's None and C's NULL. */
module Wrappers {
  datatype Option<+T> = None | Some(value: T)
}

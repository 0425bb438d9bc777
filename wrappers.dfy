/** Python's `None` and the values that may stand in its place. */
module Wrappers {

  datatype Option<+T> = None | Some(value: T)
}

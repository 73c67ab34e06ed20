/** A value that may be absent: `undefined` or `null` in the dashboard's state. */
module Wrappers {
  datatype Option<+T> = None | Some(value: T)
}

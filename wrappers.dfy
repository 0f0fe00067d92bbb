/** An optional value, in the shape of the usual Option datatype. */
module Wrappers {
  datatype Option<+T> = None | Some(value: T)
}

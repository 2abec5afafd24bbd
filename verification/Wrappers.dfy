/** An optional value, for what the code returns as nil or as an error. */
module Wrappers {
  datatype Option<+T> = None | Some(value: T)
}

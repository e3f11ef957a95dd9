/** The usual optional value, used for Go's nil pointers and absent map entries. */
module Wrappers {
  datatype Option<+T> = None | Some(value: T)
}

/** Optional values: the model's stand-in for Go's nil-able pointers. */
module Wrappers {
  datatype Option<+T> = None | Some(value: T)
}

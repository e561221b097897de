/** Optional values: stands for a reference field that may be null. */
module Wrappers {
  datatype Option<+T> = None | Some(value: T)
}

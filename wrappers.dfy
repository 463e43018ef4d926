/** Optional values: Python's `None` as an explicit case. */
module Wrappers {
  datatype Option<T> = None | Some(value: T)
}

/** Optional values, standing for Python's `None` and for calls that may fail. */
module Wrappers {
  datatype Option<+T> = None | Some(value: T)
}

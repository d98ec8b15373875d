/** Optional values: Python's `None` versus a set value. */
module Wrappers {

  datatype Option<+T> = None | Some(value: T)
}

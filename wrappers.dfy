/** Optional values: JavaScript's `null` results and Python's `None` fields. */
module Wrappers {
  datatype Option<+T> = None | Some(value: T)
}

/** Optional values, used for nullable columns and for operations that may raise. */
module Wrappers {
  datatype Option<+T> = None | Some(value: T)
}

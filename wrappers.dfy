/** Optional values, used for nullable columns and nullable arguments. */
module Wrappers {
  datatype Option<+T> = None | Some(value: T)
}

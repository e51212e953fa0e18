/** Optional values shared by every module: a nullable column, a missing field, a failed lookup. */
module Wrappers {
  datatype Option<+T> = None | Some(value: T)
}

/** Optional values: the source's nil pointers and missing lookups. */
module Wrappers {
  datatype Option<+T> = None | Some(value: T)
}

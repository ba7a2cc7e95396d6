/** Optional values: the source's `dict.get` lookups and keys that may be absent. */
module Wrappers {
  datatype Option<+T> = None | Some(value: T)
}

/** Optional values, used wherever the source has a "missing" or "failed" case. */
module Wrappers {
  datatype Option<+T> = None | Some(value: T)
}

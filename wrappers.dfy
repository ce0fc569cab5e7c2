/** Optional values: a missing stored preference, an unresolved target, a pending timer. */
module Wrappers {
  datatype Option<+T> = None | Some(value: T)
}

/** Optional values for partial lookups. */
module Wrappers {

  /** A value that may be missing, used for partial lookups. */
  datatype Option<+T> = None | Some(value: T)
}

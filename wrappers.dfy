/** Optional values, used where the source uses `null` or raises on a missing value. */
module Wrappers {

  datatype Option<+T> = None | Some(value: T)
}

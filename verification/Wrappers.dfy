/** Optional values, used for nullable rows and missing results. */
module Wrappers {
  datatype Option<+T> = None | Some(value: T)
}

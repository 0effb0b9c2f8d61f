/** Optional values, used for lookups in PHP arrays that may miss a key. */
module Wrappers {

  datatype Option<+T> = None | Some(value: T)
}

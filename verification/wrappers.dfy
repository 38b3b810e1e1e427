/** Optional values, used for "not found" results and for the JSON oracle. */
module Wrappers {

  datatype Option<+T> = None | Some(value: T)
}

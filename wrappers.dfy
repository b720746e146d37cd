/** Optional values, used for request bodies that may fail to decode and for response bodies. */
module Wrappers {

  datatype Option<+T> = None | Some(value: T)
}

/** Optional values: a Redis reply that may be nil, a nullable timestamp. */
module Wrappers {

  datatype Option<+T> = None | Some(value: T)
}

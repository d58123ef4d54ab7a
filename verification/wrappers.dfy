/** Optional values, standing in for the `null` a JavaScript reference may hold. */
module Wrappers {

  datatype Option<+T> = None | Some(value: T)
}

/** Optional values: JavaScript's `null` alternative in the records this model builds. */
module Wrappers {

  datatype Option<+T> = None | Some(value: T)
}

/** Optional values: a missing map entry, a value that is not a number. */
module Wrappers {

  datatype Option<+T> = None | Some(value: T)
}

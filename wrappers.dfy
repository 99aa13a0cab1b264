/** Optional values: stands for a C string that may be NULL. */
module Wrappers {

  datatype Option<+T> = None | Some(value: T)
}

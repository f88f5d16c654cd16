/** Optional values, used for a constructor's name, a parent link and a chain lookup. */
module Wrappers {

  datatype Option<+T> = None | Some(value: T)
}

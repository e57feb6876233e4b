/** The nullable reference of the cache's values, as an explicit option. */
module Wrappers {
  datatype Option<+T> = None | Some(value: T)
}

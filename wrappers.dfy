/** Optional values: a reading that could not be parsed as a number is None. */
module Wrappers {

  datatype Option<+T> = None | Some(value: T)
}

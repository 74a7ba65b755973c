/** Optional values, used for the results that can fail: parsing a display text and applying an operator. */
module Wrappers {

  datatype Option<+T> = None | Some(value: T)
}

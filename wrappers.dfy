/** Optional values: the model's stand-in for a number that may be NaN. */
module Wrappers {

  datatype Option<+T> = None | Some(value: T)
}

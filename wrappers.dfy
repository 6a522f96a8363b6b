/** Optional values: the model's stand-in for `null` and for a missing lookup result. */
module Wrappers {

  datatype Option<+T> = None | Some(value: T)

}

/** Optional values: the model's stand-in for `null`, `undefined` and optional fields. */
module Wrappers {

  datatype Option<+T> = None | Some(value: T)
}

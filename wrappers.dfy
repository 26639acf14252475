/** Optional values: the model's counterpart of `undefined` / `null`. */
module Wrappers {
  datatype Option<+T> = None | Some(value: T)
}

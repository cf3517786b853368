/** Optional values: the model's form of the source's `None`. */
module Wrappers {
  datatype Option<+T> = None | Some(value: T)
}

/** Optional values: `null` in the components becomes `None`. */
module Wrappers {
  datatype Option<+T> = None | Some(value: T)
}

/** Optional values, for the source's `undefined` results and absent arguments. */
module Wrappers {
  datatype Option<+T> = None | Some(value: T)
}

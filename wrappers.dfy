/** Optional results, for a read or a parse that can fail. */
module Wrappers {

  datatype Option<+T> = None | Some(value: T)
}

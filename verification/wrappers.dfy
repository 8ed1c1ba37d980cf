/** Optional results of the decoder. */
module Wrappers {

  datatype Option<+T> = None | Some(value: T)
}

/** Optional values, used for sockets that may be absent and for the identity file. */
module Wrappers {
  datatype Option<+T> = None | Some(value: T)
}

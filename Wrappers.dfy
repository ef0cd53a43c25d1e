/** A value that may be missing: an absent request field, a cache file that could not be read. */
module Wrappers {
  datatype Option<T> = None | Some(value: T)
}

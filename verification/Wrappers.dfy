/** A value that may be missing: a null pointer, an absent key, a failed parse. */
module Wrappers {

  datatype Option<T> = None | Some(value: T)
}

/** The optional value used for the source's `None` results and for calls that may fail. */
module Wrappers {
  datatype Option<T> = None | Some(value: T)
}

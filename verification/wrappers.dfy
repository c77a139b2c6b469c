/** The optional-value type used for lookups and conversions that may produce nothing. */
module Wrappers {
  datatype Option<T> = None | Some(value: T)
}

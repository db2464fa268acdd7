/** The type of a value that may be missing: a NULL column, a query without a row, a failed call. */
module Wrappers {
  datatype Option<+T> = None | Some(value: T)
}

/** The optional value used for the source's `null` returns and for SQL NULL columns. */
module Wrappers {
  datatype Option<+T> = None | Some(value: T)
}

/** The optional value used for JSON null and for a failed regular-expression match. */
module Wrappers {
  datatype Option<+T> = None | Some(value: T)
}

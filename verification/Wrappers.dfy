/** Values that may be missing: a nullable column, or a query that finds no row. */
module Wrappers {
  datatype Option<+T> = None | Some(value: T)
}

/** The usual optional value, standing for a nullable column. */
module Wrappers {
  datatype Option<+T> = None | Some(value: T)
}

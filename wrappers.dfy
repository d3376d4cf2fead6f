/** The optional value used for fields that Python leaves unset or sets to None. */
module Wrappers {
  datatype Option<+T> = None | Some(value: T)
}

/** The optional value used wherever the original program returns a nullable (`float?`, `int?`). */
module Wrappers {
  datatype Option<+T> = None | Some(value: T)
}

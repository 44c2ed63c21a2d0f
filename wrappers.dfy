/** The optional value used where the source reads `undefined`, `null` or a missing match. */
module Wrappers {

  datatype Option<+T> = None | Some(value: T)
}

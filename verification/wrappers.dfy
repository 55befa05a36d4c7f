/** An optional value, used where the source has `null`, a missing record or a thrown error. */
module Wrappers {
  datatype Option<+T> = None | Some(value: T)
}

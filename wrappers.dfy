/** The optional value used wherever the source either produces something or skips. */
module Wrappers {
  datatype Option<+T> = None | Some(value: T)
}

/** The optional value used wherever the source has `null`, `undefined` or "absent". */
module Wrappers {
  datatype Option<+T> = None | Some(value: T)
}

/** The optional value used wherever the original program passes `None`. */
module Wrappers {
  datatype Option<+T> = None | Some(value: T)
}

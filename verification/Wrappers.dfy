/** The one generic datatype of the model. */
module Wrappers {
  datatype Option<+T> = None | Some(value: T)
}

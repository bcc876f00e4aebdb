/** The one optional-value type the model needs: JavaScript's `null` versus a value. */
module Wrappers {
  datatype Option<+T> = None | Some(value: T)
}

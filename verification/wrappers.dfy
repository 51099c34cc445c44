/** Small value wrappers shared by the rest of the model. */
module Wrappers {

  /** An optional value: JavaScript's `undefined` on one side, a present value on the other. */
  datatype Option<+T> = None | Some(value: T)
}

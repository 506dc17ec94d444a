/** The optional values the model uses where the source yields `undefined`, `NaN` or nothing. */
module Wrappers {

  datatype Option<+T> = None | Some(value: T)
}

/** The optional value used for JavaScript's `undefined` attribute and `NaN` time values. */
module Wrappers {

  datatype Option<+T> = None | Some(value: T)
}

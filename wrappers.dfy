/** The conventional optional value, used where the JavaScript code returns `null` or `undefined`. */
module Wrappers {
  datatype Option<+T> = None | Some(value: T)
}

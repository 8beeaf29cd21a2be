/** The conventional optional value, used for data that may be absent. */
module Wrappers {

  datatype Option<+T> = None | Some(value: T)
}

/** A minimal optional value, used for store keys that may be absent. */
module Wrappers {

  datatype Option<+T> = None | Some(value: T)
}

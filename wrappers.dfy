/** The Option type used wherever the script may or may not have a value. */
module Wrappers {
  datatype Option<+T> = None | Some(value: T)
}

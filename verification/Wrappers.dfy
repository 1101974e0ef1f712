// Optional values, used by several modules.
module Wrappers {
  datatype Option<+T> = None | Some(value: T)
}

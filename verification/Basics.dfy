/** The one datatype everything shares. */
module Basics {
  datatype Option<+T> = None | Some(value: T)
}

/** An optional value; `None` stands for a Python call that raises. */
module Wrappers {
  datatype Option<+T> = None | Some(value: T)
}

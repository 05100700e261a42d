/** An optional value: `None` stands for a dictionary key that is absent (or holds null). */
module Wrappers {
  datatype Option<+T> = None | Some(value: T)
}

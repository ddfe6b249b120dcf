/** The option type that stands for Python's None-or-value results. */
module Wrappers {
  datatype Option<+T> = None | Some(value: T)
}

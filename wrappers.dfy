/** Python's `None`-or-value, as the handler's inputs and verifiers use it. */
module Wrappers {

  datatype Option<+T> = None | Some(value: T)
}

/** The optional value that the modelled code returns in place of Python's `None`. */
module Wrappers {

  datatype Option<+T> = None | Some(value: T)
}

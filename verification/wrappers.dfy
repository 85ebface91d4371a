/** The optional value that the modelled code returns from `get` and from its iterators. */
module Wrappers {

  datatype Option<+T> = None | Some(value: T)
}

/** The optional value used wherever the source returns `Optional[...]` or `None`. */
module Wrappers {

  datatype Option<+T> = None | Some(value: T)
}

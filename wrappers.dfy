/** The optional value used for fields the Python classes leave unset (`None`). */
module Wrappers {

  datatype Option<+T> = None | Some(value: T)
}

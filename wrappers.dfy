/** The optional value used for the session identity and for validation results. */
module Wrappers {

  datatype Option<+T> = None | Some(value: T)

}

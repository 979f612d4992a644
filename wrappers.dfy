/** The optional value used for the nil-able parts of the model:
    a platform variant that may be unset and a matcher that may be nil. */
module Wrappers {

  datatype Option<+T> = None | Some(value: T)
}

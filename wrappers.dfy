/** The absent-or-present value every fallible collaborator of the token builder returns. */
module Wrappers {

  datatype Option<+T> = None | Some(value: T)
}

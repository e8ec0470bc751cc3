/** The optional value that stands for Ruby's `nil`: a record attribute that
    may be absent is an `Option` of its type. */
module Wrappers {

  datatype Option<+T> = None | Some(value: T)
}

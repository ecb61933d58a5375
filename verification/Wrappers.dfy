/** The optional value used for C# nulls. */
module Wrappers {
  datatype Option<+T> = None | Some(value: T)
}

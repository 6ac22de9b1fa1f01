/** The optional value used for .NET's nullable results (`null`, `int?`, a failed TryParse). */
module Wrappers {
  datatype Option<+T> = None | Some(value: T)
}

/** The optional value that stands for a nullable reference of the C# code. */
module Wrappers {

  datatype Option<+T> = None | Some(value: T)
}

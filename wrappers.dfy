/** Helper types shared by the whole model. */
module Wrappers {

  /** A value that may be absent: the model's rendering of a C# nullable (`string?`, `int?`, `DateTime?`). */
  datatype Option<+T> = None | Some(value: T)
}

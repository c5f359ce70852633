/** The optional value used for nullable columns, missing keys and absent parameters. */
module Wrappers {
  datatype Option<+T> = None | Some(value: T)
}

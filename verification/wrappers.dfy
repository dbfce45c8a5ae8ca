/** The optional value used for the store's nullable fields (`profile`, `activeConfig`). */
module Wrappers {
  datatype Option<+T> = None | Some(value: T)
}

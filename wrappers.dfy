// Small value types shared by the controllers.

module Wrappers {

  /** A value that may be absent (`null`, `undefined` or a missing map key). */
  datatype Option<T> = None | Some(value: T)
}

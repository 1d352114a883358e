/** `Option<T>` stands for TypeScript's `T | null`, and for a read that may
    come back `undefined`. */
module Wrappers {

  datatype Option<+T> = None | Some(value: T)
}

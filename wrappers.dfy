/** The optional value used for the descriptor fields that TypeScript marks with `?`. */
module Wrappers {
  datatype Option<+T> = None | Some(value: T)
}

/** Definitions that several components share. */
module Basics {

  type Byte = x: nat | x < 256

  datatype Option<+T> = None | Some(value: T)
}

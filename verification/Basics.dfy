/** Types used throughout. */
module Basics {

  datatype Option<+T> = None | Some(value: T)

  type Byte = x: int | 0 <= x < 256

  type Pos = x: int | 0 < x witness 1
}

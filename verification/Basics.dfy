/** The two types that every component shares. */
module Basics {

  datatype Option<+T> = None | Some(value: T)

  type byte = x: int | 0 <= x < 256

  type uint32 = x: int | 0 <= x < 0x1_0000_0000
}

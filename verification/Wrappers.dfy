/** Small types shared by the other modules. */
module Wrappers {

  datatype Option<+T> = None | Some(value: T)

  /** An octet of a C buffer. */
  type Byte = x: int | 0 <= x < 0x100
}

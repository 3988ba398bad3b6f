/** The types shared by the other modules. */
module Wrappers {

  datatype Option<+T> = None | Some(value: T)

  type U32 = n: nat | n < 0x1_0000_0000
}

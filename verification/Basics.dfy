/**
 Octets, machine integers and their limits.
 */
module Basics {
  type byte = b: int | 0 <= b < 256
  type uint32 = x: int | 0 <= x < SPAN32

  // The number of values of unsigned integers.
  const SPAN32: nat := 0x1_0000_0000
  const SPAN: nat := 0x1_0000_0000_0000_0000

  // The largest variable-length integer.
  const MAX_VARINT: nat := 0x3FFF_FFFF_FFFF_FFFF

  datatype Option<T> = None | Some(value: T)

  function Min(a: nat, b: nat): nat { if a < b then a else b }

  function Max(a: nat, b: nat): nat { if a > b then a else b }
}

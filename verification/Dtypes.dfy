/** The pixel types the decoder takes. */
module Dtypes {
  datatype Dtype = U8 | U16 | U32 | U64 | I8 | I16 | I32 | I64 | F32 | F64

  function ItemSize(d: Dtype): (n: nat)
    ensures n >= 1
  {
    match d
    case U8 | I8 => 1
    case U16 | I16 => 2
    case U32 | I32 | F32 => 4
    case U64 | I64 | F64 => 8
  }

  predicate IsInteger(d: Dtype) {
    d != F32 && d != F64
  }

  /** The largest value of an integer type. */
  function MaxValue(d: Dtype): nat
    requires IsInteger(d)
  {
    match d
    case U8 => 0xFF
    case U16 => 0xFFFF
    case U32 => 0xFFFF_FFFF
    case U64 => 0xFFFF_FFFF_FFFF_FFFF
    case I8 => 0x7F
    case I16 => 0x7FFF
    case I32 => 0x7FFF_FFFF
    case I64 => 0x7FFF_FFFF_FFFF_FFFF
  }
}

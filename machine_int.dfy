/** The C++ `int` of the modelled programs: a 32-bit two's-complement integer. */
module MachineInt {

  const Int32Min: int := -0x8000_0000
  const Int32Max: int := 0x7FFF_FFFF

  predicate InInt32(x: int) {
    Int32Min <= x <= Int32Max
  }

  /** Signed 32-bit integer; arithmetic that leaves this range is undefined in C++. */
  newtype int32 = x: int | Int32Min <= x <= Int32Max
}

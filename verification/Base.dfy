/** Machine integers of the program's fixed-width types. */
module Ints {
  const INT_MAX: int := 0x7fff_ffff
  const INT_MIN: int := -0x8000_0000
  const UINT_MAX: int := 0xffff_ffff

  type I32 = x: int | -0x8000_0000 <= x <= 0x7fff_ffff
  type U32 = x: int | 0 <= x <= 0xffff_ffff

  /** Saturate a wide intermediate into `int`, as the offset code does before a cast. */
  function SaturateI32(v: int): (r: I32)
    ensures INT_MIN <= v <= INT_MAX ==> r == v
    ensures v > INT_MAX ==> r == INT_MAX
    ensures v < INT_MIN ==> r == INT_MIN
  {
    if v > INT_MAX then INT_MAX else if v < INT_MIN then INT_MIN else v
  }

  function Min(a: int, b: int): int {
    if a < b then a else b
  }

  function Max(a: int, b: int): int {
    if a < b then b else a
  }

  /** Distance between two values, saturated into `int`. */
  function Distance(a: int, b: int): I32 {
    Min(if a < b then b - a else a - b, INT_MAX)
  }
}

module Options {
  datatype Option<T> = None | Some(value: T)
}

/** Profile slots, numbered from 1. */
module Slots {
  const NUM_SLOTS := 5
  const DEFAULT_SLOT := 1

  predicate ValidSlot(slot: int) {
    1 <= slot <= NUM_SLOTS
  }
}

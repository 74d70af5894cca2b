/** Signed 64-bit timestamps and the saturating operations used on them. */
module Int64 {
  const MIN: int := -0x8000_0000_0000_0000
  const MAX: int := 0x7FFF_FFFF_FFFF_FFFF

  type I64 = x: int | MIN <= x <= MAX

  predicate InI64(x: int) { MIN <= x <= MAX }

  function Larger(a: int, b: int): int { if a < b then b else a }

  function Smaller(a: int, b: int): int { if a < b then a else b }

  function Saturate(x: int): I64 { Larger(MIN, Smaller(MAX, x)) }

  function SatAdd(a: int, b: int): I64 { Saturate(a + b) }

  function SatSub(a: int, b: int): I64 { Saturate(a - b) }

  function SatMul(a: int, b: int): I64 { Saturate(a * b) }
}

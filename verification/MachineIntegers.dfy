/** The integer widths the C++ code computes with: a 64-bit `std::size_t`, a
    32-bit `int` and a 64-bit signed tick count.

    A variable of type `Size` is checked at every assignment, so a subtraction
    or an addition stored in one has been proved not to wrap around. */
module MachineIntegers {
  const SIZE_LIMIT: int := 0x1_0000_0000_0000_0000
  const UINT_LIMIT: int := 0x1_0000_0000
  const INT_MAX: int := 0x7fff_ffff
  const INT64_MAX: int := 0x7fff_ffff_ffff_ffff
  const INT64_MIN: int := -0x8000_0000_0000_0000

  type Size = x: int | 0 <= x < SIZE_LIMIT
  type Int64 = x: int | INT64_MIN <= x <= INT64_MAX
  type Byte = x: int | 0 <= x < 256

  function Min(a: int, b: int): int { if a <= b then a else b }

  function Max(a: int, b: int): int { if a >= b then a else b }

  /** `static_cast<int>(n)` of an unsigned 64-bit value: the low 32 bits, read
      as a signed number. */
  function CastToInt(n: Size): int {
    var low := n % UINT_LIMIT;
    if low <= INT_MAX then low else low - UINT_LIMIT
  }

  /** The cast keeps the value exactly when it fits. */
  lemma CastToIntExact(n: Size)
    ensures CastToInt(n) == n <==> n <= INT_MAX
  {
  }
}

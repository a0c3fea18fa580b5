/** Small arithmetic shared by the numeric controllers. */
module Numbers {
  const INT64_MAX: int := 0x7fff_ffff_ffff_ffff

  function Min(a: int, b: int): int {
    if a < b then a else b
  }

  function Max(a: int, b: int): int {
    if a > b then a else b
  }

  function Power2(k: nat): (r: int)
    ensures r >= 1
  {
    if k == 0 then 1 else 2 * Power2(k - 1)
  }

  predicate Int64(x: int) {
    -INT64_MAX - 1 <= x <= INT64_MAX
  }

  // The value a signed 64-bit integer holds after an operation with this exact result.
  function Wrapped(x: int): int {
    (x + 0x8000_0000_0000_0000) % 0x1_0000_0000_0000_0000 - 0x8000_0000_0000_0000
  }

  lemma MulMonotone(a: int, b: int, factor: int)
    requires factor > 0
    ensures a <= b ==> a * factor <= b * factor
  {
    if a <= b {
      assert (b - a) * factor >= 0;
    }
  }
}

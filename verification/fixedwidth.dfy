/** Fixed-width integers as Go lays them out: `uint64` with wrapping `+` and
    `-`, and the range of `int64`. Go's unsigned arithmetic never traps; it
    silently reduces modulo 2^64, and the account code detects overflow by
    comparing the wrapped result with the operand it started from. */
module FixedWidth {

  const TWO_64: nat := 0x1_0000_0000_0000_0000
  const MAX_U64: nat := TWO_64 - 1

  /** Go's `uint64`. */
  type u64 = x: nat | x < TWO_64

  const MIN_I64: int := -0x8000_0000_0000_0000
  const MAX_I64: int := 0x7fff_ffff_ffff_ffff

  /** Go's `int64`. */
  type i64 = x: int | MIN_I64 <= x <= MAX_I64

  /** Go's `x + y` on `uint64`: the true sum reduced modulo 2^64. The result
      is the true sum when that fits, and the sum less 2^64 otherwise. */
  function WrapAdd(x: u64, y: u64): (r: u64)
    ensures x + y < TWO_64 ==> r == x + y
    ensures x + y >= TWO_64 ==> r == x + y - TWO_64
  {
    (x + y) % TWO_64
  }

  /** Go's `x - y` on `uint64`: the true difference reduced modulo 2^64. The
      result is the true difference when `y <= x`, and it is 2^64 larger
      otherwise. */
  function WrapSub(x: u64, y: u64): (r: u64)
    ensures y <= x ==> r == x - y
    ensures y > x ==> r == x - y + TWO_64
  {
    (x - y) % TWO_64
  }

  /** The source's overflow test for an addition, `x + y < x`, fires exactly
      when the true sum does not fit in 64 bits. */
  lemma AddOverflowIff(x: u64, y: u64)
    ensures WrapAdd(x, y) < x <==> x + y > MAX_U64
  {
  }

  /** The source's underflow test for a subtraction, `x - y > x`, fires
      exactly when the true difference is negative. */
  lemma SubUnderflowIff(x: u64, y: u64)
    ensures WrapSub(x, y) > x <==> y > x
  {
  }
}

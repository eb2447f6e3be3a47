// Shared arithmetic: clamped and wrapped integers, and the nanosecond clock.
module Arithmetic {

  /** Times and durations are integers in nanoseconds. */
  const SECOND: int := 1_000_000_000

  function Min(a: int, b: int): int { if a <= b then a else b }

  /** The whole seconds of a duration, cut towards zero. */
  function WholeSeconds(d: int): int { if d >= 0 then d / SECOND else 0 - (0 - d) / SECOND }

  /** GREATEST(0, n). */
  function Clamp0(n: int): nat { if n < 0 then 0 else n }

  /** The int64 that n wraps to. */
  function Wrap64(n: int): int {
    (n + 0x8000_0000_0000_0000) % 0x1_0000_0000_0000_0000 - 0x8000_0000_0000_0000
  }

  /** It is the one value in range that differs from n by a multiple of 2^64. */
  lemma WrapExactly(n: int)
    ensures -0x8000_0000_0000_0000 <= Wrap64(n) <= 0x7fff_ffff_ffff_ffff
    ensures (n - Wrap64(n)) % 0x1_0000_0000_0000_0000 == 0
  {
    var k := (n + 0x8000_0000_0000_0000) / 0x1_0000_0000_0000_0000;
    assert n - Wrap64(n) == k * 0x1_0000_0000_0000_0000;
  }

  lemma WholeSecondsExactly(d: int)
    ensures d >= 0 ==> WholeSeconds(d) * SECOND <= d < (WholeSeconds(d) + 1) * SECOND
    ensures d < 0 ==> (WholeSeconds(d) - 1) * SECOND < d <= WholeSeconds(d) * SECOND
  {
  }
}

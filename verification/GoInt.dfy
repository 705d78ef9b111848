/** Two's-complement 64-bit integers and durations, as the Go runtime computes them. */
module GoInt {
  const TWO_63: int := 0x8000_0000_0000_0000
  const TWO_64: int := 0x1_0000_0000_0000_0000

  /** A point in time or a duration, in nanoseconds. */
  type Time = int

  const MINUTE: Time := 60_000_000_000
  const HOUR: Time := 3_600_000_000_000

  /** The length of a number of 24-hour days. */
  function Days(n: int): Time {
    n * 86_400_000_000_000
  }

  function Min(x: int, y: int): int {
    if x <= y then x else y
  }

  predicate IsInt64(x: int) { -TWO_63 <= x < TWO_63 }

  /** The int64 that the low 64 bits of x stand for. */
  function Wrap64(x: int): int {
    (x + 0x8000_0000_0000_0000) % 0x1_0000_0000_0000_0000 - 0x8000_0000_0000_0000
  }

  function Pow2(n: nat): (p: nat)
    ensures p >= 1
  {
    if n == 0 then 1 else 2 * Pow2(n - 1)
  }

  lemma ModShift(x: int, k: int, m: int)
    requires m > 0
    ensures (x + k * m) % m == x % m
  {
    var q, r := x / m, x % m;
    assert x + k * m == (q + k) * m + r by {
      assert x == q * m + r;
      assert (q + k) * m == q * m + k * m;
    }
    DivisionIsUnique(x + k * m, m, q + k, r);
  }

  lemma DivisionIsUnique(x: int, m: int, q: int, r: int)
    requires m > 0 && 0 <= r < m && x == q * m + r
    ensures x % m == r
  {
    var d := x / m - q;
    assert d * m == r - x % m by {
      assert x == (x / m) * m + x % m;
      assert d * m == (x / m) * m - q * m;
    }
    assert d >= 1 ==> d * m >= m;
    assert d <= -1 ==> d * m <= -m;
  }

  lemma WrapFits(x: int)
    requires IsInt64(x)
    ensures Wrap64(x) == x
  {
  }

  lemma WrapShift(x: int, k: int)
    ensures Wrap64(x + k * TWO_64) == Wrap64(x)
  {
    ModShift(x + TWO_63, k, TWO_64);
    assert x + k * TWO_64 + TWO_63 == x + TWO_63 + k * TWO_64;
  }

  /** Wrapping one factor first does not change a wrapped product. */
  lemma WrapProduct(a: int, b: int)
    ensures Wrap64(Wrap64(a) * b) == Wrap64(a * b)
  {
    var k := (a + TWO_63) / TWO_64;
    assert Wrap64(a) == a - k * TWO_64;
    assert Wrap64(a) * b + (k * b) * TWO_64 == a * b;
    WrapShift(Wrap64(a) * b, k * b);
  }

  /** A product just past the int64 range turns up negative. */
  lemma WrapOverflow(x: int)
    requires TWO_63 <= x < TWO_64
    ensures Wrap64(x) < 0
  {
    WrapShift(x - TWO_64, 1);
    WrapFits(x - TWO_64);
  }

  lemma Pow2Monotone(m: nat, n: nat)
    requires m <= n
    ensures Pow2(m) <= Pow2(n)
    decreases n
  {
    if m < n {
      Pow2Monotone(m, n - 1);
    }
  }

  /** What the service multiplies out for a number of days: int64 at every step. */
  function DaysDuration(days: int): Time {
    Wrap64(Wrap64(days * 24) * 3_600_000_000_000)
  }

  /** The greatest number of days whose duration fits an int64 of nanoseconds. */
  const MAX_DAYS := 106_751

  /** The duration of a number of days is right exactly up to MAX_DAYS, in either direction. */
  lemma DaysDurationExact(days: int)
    ensures DaysDuration(days) == Days(days) <==> -MAX_DAYS <= days <= MAX_DAYS
  {
    WrapProduct(days * 24, 3_600_000_000_000);
    assert days * 24 * 3_600_000_000_000 == Days(days);
  }
}

/** The integer arithmetic of the SD/MMC clock divider, with C's semantics
    written out: signed division truncates toward zero, a negative `int`
    converted to `unsigned int` wraps, and `uint32_t` subtraction wraps. */
module ClockDivider {
  import opened Bits

  const U32: nat := 0x1_0000_0000

  predicate IsInt32(x: int) {
    -0x8000_0000 <= x < 0x8000_0000
  }

  /** `freq /= 1000` on a C `int`: the quotient truncated toward zero. */
  function Khz(freq: int): (f: int)
    ensures freq >= 0 ==> f >= 0 && f * 1000 <= freq < f * 1000 + 1000
    ensures freq < 0 ==> f <= 0 && f * 1000 - 1000 < freq <= f * 1000
  {
    if freq >= 0 then freq / 1000 else -((-freq) / 1000)
  }

  /** A C `int` converted to `unsigned int`. */
  function ToUnsigned(x: int): (u: nat)
    requires IsInt32(x)
    ensures u < U32 && u % U32 == x % U32
  {
    if x >= 0 then x else x + U32
  }

  /** `m = ((pll_freq / (1 << n)) / freq) - 1` in `uint32_t` arithmetic: the
      divisions truncate in that order and the final subtraction wraps. */
  function Divider(pll: nat, n: nat, f: int): (m: nat)
    requires pll < U32 && IsInt32(f) && f != 0
    ensures m < U32
  {
    Decrement(Quotient(Quotient(pll, Pow2(n)), ToUnsigned(f)))
  }

  /** Unsigned division of a 32-bit dividend. */
  function Quotient(p: nat, d: nat): (q: nat)
    requires p < U32 && d > 0
    ensures q <= p && q < U32
  {
    QuotientBelow(p, d);
    p / d
  }

  /** `q - 1` in `uint32_t` arithmetic: 0 - 1 wraps to the largest value. */
  function Decrement(q: nat): (m: nat)
    requires q < U32
    ensures m < U32
    ensures q == 0 ==> m == U32 - 1
    ensures q > 0 ==> m + 1 == q
  {
    (q - 1) % U32
  }

  /** When the clock can be divided down to `f`, `m + 1` is the largest
      divisor whose output is still at least `f`. */
  lemma DividerFloor(pll: nat, n: nat, f: int)
    requires pll < U32 && IsInt32(f) && f > 0 && pll / Pow2(n) >= f
    ensures var m := Divider(pll, n, f);
      (m + 1) * f <= pll / Pow2(n) < (m + 2) * f
  {
    var p := Quotient(pll, Pow2(n));
    QuotientOfLarger(p, f);
    FloorBrackets(p, f, Divider(pll, n, f));
  }

  /** When the clock is already slower than `f`, `0 - 1` wraps to the
      largest 32-bit value. */
  lemma DividerWraps(pll: nat, n: nat, f: int)
    requires pll < U32 && IsInt32(f) && f != 0 && pll / Pow2(n) < ToUnsigned(f)
    ensures Divider(pll, n, f) == U32 - 1
  {
    QuotientOfSmaller(Quotient(pll, Pow2(n)), ToUnsigned(f));
  }

  /** With `m + 1` the quotient, the dividend lies between `(m + 1) * d` and `(m + 2) * d`. */
  lemma FloorBrackets(p: nat, d: nat, m: nat)
    requires d > 0 && m + 1 == p / d
    ensures (m + 1) * d <= p < (m + 2) * d
  {
    DivBounds(p, d);
    assert (m + 2) * d == (m + 1) * d + d;
  }

  /** `a * b` in `unsigned int` arithmetic. */
  function MulU32(a: nat, b: nat): (p: nat)
    ensures p < U32
    ensures a * b < U32 ==> p == a * b
  {
    (a * b) % U32
  }

  lemma MulCommutes(a: nat, b: nat)
    ensures a * b == b * a
  {}

  /** A factor of a product that fits in 32 bits fits too. */
  lemma FactorBelow(a: nat, b: nat)
    requires b >= 1 && a * b < U32
    ensures a < U32
  {
    MulAtLeast(a, b);
  }

  /** Euclidean division by a positive divisor brackets the dividend. */
  lemma DivBounds(p: nat, d: nat)
    requires d > 0
    ensures (p / d) * d <= p < (p / d) * d + d
  {
    assert p == (p / d) * d + p % d;
  }

  lemma QuotientBelow(p: nat, d: nat)
    requires d > 0
    ensures p / d <= p
  {
    DivBounds(p, d);
    MulAtLeast(p / d, d);
  }

  lemma QuotientOfSmaller(p: nat, d: nat)
    requires p < d
    ensures p / d == 0
  {}

  lemma QuotientOfLarger(p: nat, d: nat)
    requires 0 < d <= p
    ensures p / d >= 1
  {
    DivBounds(p, d);
  }

  lemma {:induction false} MulAtLeast(a: nat, b: nat)
    requires b >= 1
    ensures a * b >= a
  {
    if b > 1 {
      MulAtLeast(a, b - 1);
      assert a * b == a * (b - 1) + a;
    }
  }
}

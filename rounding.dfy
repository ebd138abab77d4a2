/** `Series.round(2)` on exact reals. numpy rounds `x * 100` to the nearest
    integer, ties going to the even neighbour, and divides by 100 again. */
module Rounding {

  /** The integer nearest to `y`; at an exact half, the even one. */
  function RoundHalfEven(y: real): (n: int)
    ensures n as real - 0.5 <= y <= n as real + 0.5
    ensures (y == n as real - 0.5 || y == n as real + 0.5) ==> n % 2 == 0
  {
    var f := y.Floor;
    var frac := y - f as real;
    if frac < 0.5 then f
    else if frac > 0.5 then f + 1
    else if f % 2 == 0 then f
    else f + 1
  }

  /** The two properties above pin the rounded value down uniquely. */
  lemma RoundHalfEvenUnique(y: real, m: int)
    requires m as real - 0.5 <= y <= m as real + 0.5
    requires (y == m as real - 0.5 || y == m as real + 0.5) ==> m % 2 == 0
    ensures m == RoundHalfEven(y)
  {
  }

  lemma RoundHalfEvenMonotone(x: real, y: real)
    requires x <= y
    ensures RoundHalfEven(x) <= RoundHalfEven(y)
  {
  }

  /** Above an even integer `k`, round-half-even passes `k` exactly when `y`
      passes `k + 1/2`: the half itself still rounds down to `k`. */
  lemma RoundHalfEvenAbove(y: real, k: int)
    requires k % 2 == 0
    ensures RoundHalfEven(y) > k <==> y > k as real + 0.5
  {
    var n := RoundHalfEven(y);
    if y == k as real + 0.5 {
      assert n == k || n == k + 1;
    }
  }

  /** Rounding to two decimal places. */
  function Round2(x: real): (r: real)
    ensures x - 0.005 <= r <= x + 0.005
    ensures IsCents(r)
  {
    var n := RoundHalfEven(x * 100.0);
    assert (n as real / 100.0) * 100.0 == n as real;
    n as real / 100.0
  }

  /** `r` is a whole number of hundredths. */
  predicate IsCents(r: real)
  {
    (r * 100.0).Floor as real == r * 100.0
  }

  lemma Round2Monotone(x: real, y: real)
    requires x <= y
    ensures Round2(x) <= Round2(y)
  {
    RoundHalfEvenMonotone(x * 100.0, y * 100.0);
  }

  /** Whole numbers are left alone. */
  lemma Round2Integer(k: int)
    ensures Round2(k as real) == k as real
  {
    RoundHalfEvenUnique(k as real * 100.0, k * 100);
  }

  /** `Round2(x) > k / 100` for an even `k` exactly when `x * 100 > k + 1/2`. */
  lemma Round2Above(x: real, k: int)
    requires k % 2 == 0
    ensures Round2(x) > k as real / 100.0 <==> x * 100.0 > k as real + 0.5
  {
    RoundHalfEvenAbove(x * 100.0, k);
  }
}

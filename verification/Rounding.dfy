/** Python's `round` to two decimals, on real numbers. */
module Rounding {

  // The nearest integer, and of two equally near the even one.
  function Nearest(x: real): int {
    var n := x.Floor;
    if x - n as real < 0.5 || (x - n as real == 0.5 && n % 2 == 0) then n else n + 1
  }

  function Round2(x: real): real {
    Nearest(x * 100.0) as real / 100.0
  }

  /** Rounding moves a number by at most half a hundredth, and whole hundredths not at all. */
  lemma RoundedIsNear(x: real, n: int)
    ensures -0.005 <= Round2(x) - x <= 0.005
    ensures x * 100.0 == n as real ==> Round2(x) == x
  {
    var y := x * 100.0;
    assert -0.5 <= Nearest(y) as real - y <= 0.5;
  }

  lemma NearestIs(y: real, n: int)
    requires -0.5 < y - n as real < 0.5 || ((y - n as real == 0.5 || y - n as real == -0.5) && n % 2 == 0)
    ensures Nearest(y) == n
  {
    if y >= n as real {
      assert y.Floor == n;
    } else {
      assert y.Floor == n - 1;
    }
  }

  /** The nearest whole hundredth, and of two equally near the even one. */
  lemma RoundsTo(x: real, n: int)
    requires var d := x * 100.0 - n as real; -0.5 < d < 0.5 || ((d == 0.5 || d == -0.5) && n % 2 == 0)
    ensures Round2(x) == n as real / 100.0
  {
    hide Nearest;
    NearestIs(x * 100.0, n);
  }
}

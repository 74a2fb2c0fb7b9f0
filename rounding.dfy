/** Python's built-in `round` on a single number. */
module Rounding {

  /** The integer nearest to `x`; a value exactly halfway between two integers goes to
      the even one (round-half-to-even, as Python 3 rounds). */
  function RoundHalfEven(x: real): (n: int)
    ensures n as real - 0.5 <= x <= n as real + 0.5
    ensures x == n as real - 0.5 || x == n as real + 0.5 ==> n % 2 == 0
  {
    var f := x.Floor;
    var frac := x - f as real;
    if frac < 0.5 then f
    else if frac > 0.5 then f + 1
    else if f % 2 == 0 then f
    else f + 1
  }

  /** Rounding keeps a value's integer upper bound. */
  lemma RoundAtMost(x: real, hi: int)
    requires x <= hi as real
    ensures RoundHalfEven(x) <= hi
  {
  }

  /** Rounding keeps a value's integer lower bound. */
  lemma RoundAtLeast(x: real, lo: int)
    requires lo as real <= x
    ensures lo <= RoundHalfEven(x)
  {
  }
}

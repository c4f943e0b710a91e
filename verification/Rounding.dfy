/** Rounding to the nearest grid point, ties to the even one, over exact reals. */
module Rounding {

  function RoundHalfEven(x: real): (n: int)
    ensures n as real - 0.5 <= x <= n as real + 0.5
    ensures x == n as real + 0.5 || x == n as real - 0.5 ==> n % 2 == 0
  {
    var f := x.Floor;
    var d := x - f as real;
    if d < 0.5 then f
    else if d > 0.5 then f + 1
    else if f % 2 == 0 then f
    else f + 1
  }

  /** Around an even number ties fall to it, so rounding exceeds it only past a half. */
  lemma RoundsAboveIff(x: real, m: int)
    requires m % 2 == 0
    ensures RoundHalfEven(x) > m <==> x > m as real + 0.5
    ensures RoundHalfEven(x) >= m <==> x >= m as real - 0.5
  {
    var n := RoundHalfEven(x);
    if n == m + 1 {
      assert n % 2 == 1;
    } else if n == m - 1 {
      assert n % 2 == 1;
    }
  }

  /** `round(x, digits)` where scale is 10 to the number of digits. */
  function RoundTo(x: real, scale: int): real
    requires scale > 0
  {
    RoundHalfEven(x * scale as real) as real / scale as real
  }

  /** Rounding gives a grid point no more than half a step away, and the even one of two such. */
  lemma RoundToIsNearest(x: real, scale: int)
    requires scale > 0
    ensures var r, n := RoundTo(x, scale), RoundHalfEven(x * scale as real);
            && r * scale as real == n as real
            && n as real - 0.5 <= x * scale as real <= n as real + 0.5
            && (x * scale as real == n as real + 0.5 || x * scale as real == n as real - 0.5 ==> n % 2 == 0)
  {
  }
}

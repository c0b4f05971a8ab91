/** Python's `round`: to the nearest, ties to even, on reals. */
module Rounding {

  function RoundHalfEven(x: real): (n: int)
    ensures -0.5 <= n as real - x <= 0.5
    ensures n as real - x == 0.5 || n as real - x == -0.5 ==> n % 2 == 0
  {
    var f := x.Floor;
    var d := x - f as real;
    if d < 0.5 then f
    else if d > 0.5 then f + 1
    else if f % 2 == 0 then f
    else f + 1
  }

  /** `round(x, 3)`. */
  function RoundTo3(x: real): (y: real)
    ensures -0.0005 <= y - x <= 0.0005 && (y * 1000.0).Floor as real == y * 1000.0
  {
    RoundHalfEven(x * 1000.0) as real / 1000.0
  }

  /** `round(x, 4)`. */
  function RoundTo4(x: real): (y: real)
    ensures -0.00005 <= y - x <= 0.00005 && (y * 10000.0).Floor as real == y * 10000.0
  {
    RoundHalfEven(x * 10000.0) as real / 10000.0
  }

  lemma RoundMonotone(x: real, y: real)
    requires x <= y
    ensures RoundHalfEven(x) <= RoundHalfEven(y)
  {
  }
}

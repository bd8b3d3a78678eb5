/** The three deliberate roundings of the source. Everything else is exact arithmetic. */
module Rounding {
  import opened Common

  /** `to_integral_value(rounding=ROUND_FLOOR)`. */
  function FloorToWhole(x: real): real {
    x.Floor as real
  }

  /** `to_integral_value(rounding=ROUND_HALF_UP)`: ties go away from zero. */
  function HalfUp(x: real): int {
    if x >= 0.0 then (x + 0.5).Floor else -((0.5 - x).Floor)
  }

  /** Round-half-to-even, Python's default for `quantize`. */
  function HalfEven(x: real): int {
    var below := x.Floor;
    var excess := x - below as real;
    if excess < 0.5 then below
    else if excess > 0.5 then below + 1
    else if below % 2 == 0 then below else below + 1
  }

  const TICKS_PER_SHARE: real := 10000.0

  const HALF_A_TICK: real := 0.00005

  /** `quantize(Decimal("0.0001"))`. */
  function Quantize4(x: real): real {
    HalfEven(x * TICKS_PER_SHARE) as real / TICKS_PER_SHARE
  }

  lemma HalfUpIsNearest(x: real)
    ensures Abs(HalfUp(x) as real - x) <= 0.5
    ensures Abs(HalfUp(x) as real - x) == 0.5 ==> Abs(HalfUp(x) as real) > Abs(x)
  {
  }

  lemma HalfEvenIsNearest(x: real)
    ensures Abs(HalfEven(x) as real - x) <= 0.5
    ensures Abs(HalfEven(x) as real - x) == 0.5 ==> HalfEven(x) % 2 == 0
  {
  }

  /** Rounding to four places moves a value by at most half a tick and never turns a
      non-positive value positive. */
  lemma Quantize4Bounds(x: real)
    ensures Abs(Quantize4(x) - x) <= HALF_A_TICK
    ensures x <= 0.0 ==> Quantize4(x) <= 0.0
  {
    var ticks := x * TICKS_PER_SHARE;
    assert Abs(HalfEven(ticks) as real - ticks) <= 0.5;
    assert x == ticks / TICKS_PER_SHARE;
    if x <= 0.0 {
      assert ticks <= 0.0;
      assert ticks.Floor <= 0;
    }
  }
}

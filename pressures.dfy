/**
 * The pressure transducer scaling of the HYDRA boards
 * (`invictus2/hydra/src/pressures.c`): a reading in millivolts becomes a
 * pressure by multiplying with the sensor's full-scale value, dividing by 10
 * with C's truncating division, and adding the sensor's minimum.
 */
module Pressures {
  import opened Bytes

  /**
   * `mv_to_mbar`: `((mv * max_bar) / 10) + min_bar` in 32-bit `int`, whose
   * overflow C leaves undefined; the caller keeps the product and the sum in
   * range.
   */
  function MvToMbar(mv: i32, minBar: i32, maxBar: i32): (r: i32)
    requires -0x8000_0000 <= mv * maxBar < 0x8000_0000
    requires -0x8000_0000 <= CDiv(mv * maxBar, 10) + minBar < 0x8000_0000
    ensures mv * maxBar >= 0 ==> 0 <= mv * maxBar - 10 * (r - minBar) < 10
    ensures mv * maxBar < 0 ==> -10 < mv * maxBar - 10 * (r - minBar) <= 0
  {
    CDiv(mv * maxBar, 10) + minBar
  }

  /** A zero reading is exactly the sensor's minimum. */
  lemma ZeroIsMinimum(minBar: i32, maxBar: i32)
    ensures MvToMbar(0, minBar, maxBar) == minBar
  {
  }

  /** C's truncating division by 10 never reverses an order. */
  lemma {:induction false} CDivMonotone(a: int, b: int)
    requires a <= b
    ensures CDiv(a, 10) <= CDiv(b, 10)
  {
    if a >= 0 {
      assert a / 10 <= b / 10;
    } else if b < 0 {
      assert (-b) / 10 <= (-a) / 10;
    }
  }

  /** With a non-negative full scale the pressure never falls as the reading rises. */
  lemma {:induction false} MonotoneInReading(mv1: i32, mv2: i32, minBar: i32, maxBar: i32)
    requires maxBar >= 0 && mv1 <= mv2
    requires -0x8000_0000 <= mv1 * maxBar < 0x8000_0000 && -0x8000_0000 <= mv2 * maxBar < 0x8000_0000
    requires -0x8000_0000 <= CDiv(mv1 * maxBar, 10) + minBar < 0x8000_0000
    requires -0x8000_0000 <= CDiv(mv2 * maxBar, 10) + minBar < 0x8000_0000
    ensures MvToMbar(mv1, minBar, maxBar) <= MvToMbar(mv2, minBar, maxBar)
  {
    MulMonotone(mv1, mv2, maxBar);
    CDivMonotone(mv1 * maxBar, mv2 * maxBar);
  }

  /** Scaling by a non-negative factor keeps an order. */
  lemma MulMonotone(a: int, b: int, k: int)
    requires a <= b && k >= 0
    ensures a * k <= b * k
  {
    assert b * k - a * k == (b - a) * k;
  }

  /** A negative product rounds toward the minimum, not below it as a floored division would. */
  lemma NegativeTruncatesTowardMinimum(minBar: i32)
    requires -0x8000_0000 <= minBar - 1 && minBar < 0x8000_0000
    ensures MvToMbar(-1, minBar, 15) == minBar - 1
    ensures MvToMbar(-1, minBar, 5) == minBar
  {
  }
}

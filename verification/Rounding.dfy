/** `src/proxy.rs`: `round2`, correctly rounded to two decimals with ties to even, over the reals. */
module Rounding {

  /** The nearest integer, a tie going to the even neighbour. */
  function NearestEven(t: real): (k: int)
    ensures t - 0.5 <= k as real <= t + 0.5
  {
    var f := t.Floor;
    var d := t - f as real;
    if d < 0.5 then f
    else if d > 0.5 then f + 1
    else if f % 2 == 0 then f else f + 1
  }

  function Round2(x: real): real
  {
    NearestEven(x * 100.0) as real / 100.0
  }

  /** Rounding never reverses an order. */
  lemma Round2Monotone(x: real, y: real)
    requires x <= y
    ensures Round2(x) <= Round2(y)
  {
    var (s, t) := (x * 100.0, y * 100.0);
    assert s.Floor <= t.Floor by {
      assert s.Floor as real <= t;
    }
    assert NearestEven(s) <= NearestEven(t);
  }

  /** A value that already has two decimals is left alone. */
  lemma Round2Fixed(k: int)
    ensures Round2(k as real / 100.0) == k as real / 100.0
  {
    assert (k as real / 100.0) * 100.0 == k as real;
  }

  lemma Round2Unit(x: real)
    requires 0.0 <= x <= 1.0
    ensures 0.0 <= Round2(x) <= 1.0
  {
    Round2Fixed(0);
    Round2Fixed(100);
    Round2Monotone(0.0, x);
    Round2Monotone(x, 1.0);
  }

  lemma Round2NonNegative(x: real)
    requires 0.0 <= x
    ensures 0.0 <= Round2(x)
  {
    Round2Fixed(0);
    Round2Monotone(0.0, x);
  }
}

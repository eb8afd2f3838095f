/** Python's `min`, `max` and `abs` on reals. */
module Numeric {

  function Min(a: real, b: real): real {
    if a <= b then a else b
  }

  function Max(a: real, b: real): real {
    if a >= b then a else b
  }

  function Abs(x: real): real {
    if x < 0.0 then -x else x
  }

  /** Scaling by a positive factor keeps the sign. */
  lemma ScaledSign(a: real, b: real)
    requires a > 0.0
    ensures a * b >= 0.0 <==> b >= 0.0
  {
    if b < 0.0 {
      assert a * b == -(a * -b);
    }
  }

  /** Scaling by a non-negative factor keeps the order. */
  lemma ScaledOrder(a: real, x: real, y: real)
    requires a >= 0.0 && x <= y
    ensures a * x <= a * y
  {
    assert a * y - a * x == a * (y - x);
  }
}

/** Facts about single real numbers that several modules rely on. */
module Reals {

  /** The absolute value, as `abs` gives it on a real. */
  function Abs(x: real): (a: real)
    ensures a >= 0.0 && (a == x || a == -x)
  {
    if x < 0.0 then -x else x
  }

  lemma NonNegativeProduct(a: real, b: real)
    requires a >= 0.0 && b >= 0.0
    ensures a * b >= 0.0
  {
  }

  lemma PositiveProduct(a: real, b: real)
    requires a > 0.0 && b > 0.0
    ensures a * b > 0.0
  {
  }

  lemma NegativeProduct(a: real, b: real)
    requires a < 0.0 && b < 0.0
    ensures a * b > 0.0
  {
    PositiveProduct(-a, -b);
    assert (-a) * (-b) == a * b;
  }

  /** A product is zero only when one of its factors is. */
  lemma ProductZero(a: real, b: real)
    ensures a * b == 0.0 ==> a == 0.0 || b == 0.0
  {
    if a > 0.0 && b > 0.0 {
      PositiveProduct(a, b);
    } else if a < 0.0 && b < 0.0 {
      NegativeProduct(a, b);
    } else if a > 0.0 && b < 0.0 {
      PositiveProduct(a, -b);
      assert a * (-b) == -(a * b);
    } else if a < 0.0 && b > 0.0 {
      PositiveProduct(-a, b);
      assert (-a) * b == -(a * b);
    }
  }
}

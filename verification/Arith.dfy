/** The sign rules for products that the solver needs spelled out. */
module Arith {
  lemma MulPositive(a: int, b: int)
    requires a > 0 && b > 0
    ensures a * b > 0
  {
  }

  lemma MulSign(a: real, b: real)
    requires b > 0.0
    ensures a * b > 0.0 <==> a > 0.0
    ensures a * b >= 0.0 <==> a >= 0.0
  {
    if a < 0.0 { assert -a * b > 0.0; }
  }
}

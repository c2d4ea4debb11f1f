/** Facts about products and quotients that the solver does not find by itself. */
module Arith {

  lemma Quotient(x: int, d: int, q: int, r: int)
    requires d > 0 && 0 <= r < d && x == q * d + r
    ensures x / d == q && x % d == r
  {
    var e := x / d - q;
    assert x == (x / d) * d + x % d;
    assert e * d == r - x % d;
    Multiple(e, d);
  }

  lemma Multiple(e: int, d: int)
    requires d > 0
    ensures e > 0 ==> e * d >= d
    ensures e < 0 ==> e * d <= -d
  {
    if e > 0 {
      PositiveMultiple(e, d);
    } else if e < 0 {
      PositiveMultiple(-e, d);
      assert (-e) * d == -(e * d);
    }
  }

  lemma {:induction false} PositiveMultiple(e: nat, d: nat)
    requires e > 0
    ensures e * d >= d
  {
    if e > 1 {
      PositiveMultiple(e - 1, d);
      assert e * d == (e - 1) * d + d;
    }
  }
}

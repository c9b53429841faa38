/** Facts about numbers and sets that several modules need. */
module Facts {

  lemma MulAtLeast(d: nat, k: int)
    requires k >= 1
    ensures d * k >= d
  {
  }

  /** A quotient and a remainder below the divisor are the quotient and the remainder. */
  lemma DivModIs(x: nat, d: nat, q: nat, r: nat)
    requires d > 0 && x == d * q + r && r < d
    ensures x / d == q && x % d == r
  {
    var k := x / d - q;
    assert d * k == d * (x / d) - d * q;
    assert x == d * (x / d) + x % d;
    if k >= 1 { MulAtLeast(d, k); }
    if k <= -1 { MulAtLeast(d, -k); }
  }

  lemma {:induction false} SubsetSize<T>(a: set<T>, b: set<T>)
    requires a <= b
    ensures |a| <= |b|
  {
    if a != {} {
      var x :| x in a;
      SubsetSize(a - {x}, b - {x});
    }
  }
}

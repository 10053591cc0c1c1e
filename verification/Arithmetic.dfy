/** Facts about products, quotients and remainders that the solver does not find by itself. */
module Arithmetic {

  lemma MulAtLeast(a: int, b: nat)
    requires 1 <= a
    ensures b <= a * b
  {
    assert a * b == b + (a - 1) * b;
  }

  // A quotient and a remainder below the divisor are the quotient and the remainder.
  lemma DivisionIsUnique(i: nat, d: nat, q: nat, r: nat)
    requires i == q * d + r && r < d
    ensures i / d == q && i % d == r
  {
    var q', r' := i / d, i % d;
    assert i == q' * d + r';
    if q' < q {
      assert (q - q') * d == q * d - q' * d;
      MulAtLeast(q - q', d);
    } else if q < q' {
      assert (q' - q) * d == q' * d - q * d;
      MulAtLeast(q' - q, d);
    }
  }
}

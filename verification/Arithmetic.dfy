/** Products and quotients of natural numbers. */
module Arithmetic {
  lemma MulLe(a: nat, b: nat, c: nat)
    requires a <= b
    ensures a * c <= b * c
  {}

  lemma MulLt(a: nat, b: nat, c: nat)
    requires a < b
    ensures a * c + c <= b * c
  {
    MulLe(a + 1, b, c);
    assert (a + 1) * c == a * c + c;
  }

  /** The quotient and the remainder are unique. */
  lemma DivMod(a: nat, m: nat, r: nat)
    requires r < m
    ensures (a * m + r) / m == a && (a * m + r) % m == r
  {
    var n := a * m + r;
    var q, s := n / m, n % m;
    assert q * m + s == n && 0 <= s < m;
    if q < a {
      MulLt(q, a, m);
    } else if a < q {
      MulLt(a, q, m);
    }
  }
}

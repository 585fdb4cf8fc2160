/** Products, quotients and remainders. */
module Arith {

  lemma MulGap(a: int, b: int, c: nat)
    ensures a < b ==> a * c + c <= b * c
  {
    if a < b {
      var d := b - a - 1;
      assert b * c == a * c + c + d * c;
    }
  }

  lemma DivModUnique(x: nat, c: nat, q: nat, r: nat)
    requires c > 0 && r < c && x == q * c + r
    ensures x / c == q && x % c == r
  {
    var k := x / c;
    assert x == k * c + x % c;
    MulGap(k, q, c);
    MulGap(q, k, c);
  }

  /** Adding the divisor keeps the remainder. */
  lemma AddKeepsRemainder(x: nat, c: nat)
    requires c > 0
    ensures (x + c) % c == x % c
  {
    assert x == (x / c) * c + x % c;
    assert x + c == (x / c + 1) * c + x % c;
    DivModUnique(x + c, c, x / c + 1, x % c);
  }
}

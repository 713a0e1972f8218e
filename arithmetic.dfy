/** Uniqueness of Euclidean division, shared by the modules that compute
    with quotients and remainders. */
module Arithmetic {
  /** Euclidean division has only one remainder. */
  lemma ModUnique(x: int, c: nat, q: int, r: int)
    requires c > 0 && 0 <= r < c && x == q * c + r
    ensures x % c == r
  {
    var q0, r0 := x / c, x % c;
    assert x == q0 * c + r0;
    var d := q - q0;
    assert d * c == r0 - r by {
      assert d * c == q * c - q0 * c;
    }
    assert d == 0;
  }

  /** Euclidean division has only one quotient. */
  lemma DivUnique(x: int, c: nat, q: int, r: int)
    requires c > 0 && 0 <= r < c && x == q * c + r
    ensures x / c == q
  {
    var q0, r0 := x / c, x % c;
    assert x == q0 * c + r0;
    var d := q - q0;
    assert d * c == r0 - r by {
      assert d * c == q * c - q0 * c;
    }
    assert d == 0;
  }
}

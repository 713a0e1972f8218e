/** Euclid's gcd and the frame-rate-to-fraction conversion of
    utils/fractional.hpp. */
module Fractional {
  import opened Arithmetic

  /** No integer above 1 divides both `a` and `b`: a fraction a/b in
      lowest terms. */
  ghost predicate Coprime(a: int, b: int)
  {
    forall d: int :: d > 1 ==> a % d != 0 || b % d != 0
  }

  /** details::gcd, with the source's branches in the source's order. */
  function Gcd(a: nat, b: nat): (g: nat)
    ensures a > 0 || b > 0 ==> g > 0
    decreases a + b
  {
    if a == 0 then b
    else if b == 0 then a
    else if a < b then Gcd(a, b % a)
    else Gcd(b, a % b)
  }

  /** The precision of build_fraction: remainders are rounded to 1e-6. */
  const Precision: nat := 1000000

  /** build_fraction on a frame rate given as its floor `integral` and its
      rounded micro-remainder `r` = round((f - floor f) * 10^6). Returns
      (numerator, denominator). The denominator is positive and divides
      the precision 10^6. */
  function BuildFraction(integral: int, r: nat): (f: (int, int))
    requires r <= Precision
    ensures f.1 > 0 && Precision % f.1 == 0
  {
    var g := Gcd(r, Precision);
    GcdDivides(r, Precision);
    var denominator := Precision / g;
    assert Precision == denominator * g;
    ModOfMultiple(g, denominator);
    assert Precision == g * denominator;
    var numerator := r / g;
    (integral * denominator + numerator, denominator)
  }

  // ---------------------------------------------------------------- gcd

  lemma GcdZeroLeft(b: nat)
    ensures Gcd(0, b) == b
  {
  }

  lemma GcdZeroRight(a: nat)
    ensures Gcd(a, 0) == a
  {
  }

  lemma {:induction false} DividesMod(c: nat, a: nat, b: nat)
    requires c > 0 && a > 0 && b % c == 0 && a % c == 0
    ensures (b % a) % c == 0
  {
    var q := b / a;
    assert b == q * a + b % a;
    var ka := a / c;
    var kb := b / c;
    assert a == ka * c;
    assert b == kb * c;
    assert b % a == (kb - q * ka) * c by {
      calc {
        b % a;
        b - q * a;
        kb * c - q * (ka * c);
        { assert q * (ka * c) == (q * ka) * c; }
        kb * c - (q * ka) * c;
        (kb - q * ka) * c;
      }
    }
    ModOfMultiple(kb - q * ka, c);
  }

  lemma ModOfMultiple(k: int, c: nat)
    requires c > 0 && k * c >= 0
    ensures (k * c) % c == 0
  {
    if k < 0 {
      NegativeProduct(k, c);
    } else {
      ModOfNatMultiple(k, c);
    }
  }

  lemma NegativeProduct(k: int, c: nat)
    requires k < 0 && c > 0
    ensures k * c < 0
  {
  }

  lemma ModOfNatMultiple(k: nat, c: nat)
    requires c > 0
    ensures (k * c) % c == 0
  {
    ModUnique(k * c, c, k, 0);
  }

  /** The result of gcd divides both arguments. */
  lemma {:induction false} GcdDivides(a: nat, b: nat)
    requires a > 0 || b > 0
    ensures Gcd(a, b) > 0
    ensures a % Gcd(a, b) == 0 && b % Gcd(a, b) == 0
    decreases a + b
  {
    if a == 0 || b == 0 {
    } else if a < b {
      GcdDivides(a, b % a);
      var g := Gcd(a, b % a);
      RecombineMod(a, b, g);
    } else {
      GcdDivides(b, a % b);
      var g := Gcd(b, a % b);
      RecombineMod(b, a, g);
    }
  }

  /** If g divides a and b % a, it divides b. */
  lemma {:induction false} RecombineMod(a: nat, b: nat, g: nat)
    requires a > 0 && g > 0 && a % g == 0 && (b % a) % g == 0
    ensures b % g == 0
  {
    var q := b / a;
    var ka := a / g;
    var kr := (b % a) / g;
    assert a == ka * g;
    assert b % a == kr * g;
    assert b == (q * ka + kr) * g by {
      calc {
        b;
        q * a + b % a;
        q * (ka * g) + kr * g;
        { assert q * (ka * g) == (q * ka) * g; }
        (q * ka) * g + kr * g;
        (q * ka + kr) * g;
      }
    }
    ModOfMultiple(q * ka + kr, g);
  }

  /** Every common divisor of the arguments divides their gcd. */
  lemma {:induction false} GcdGreatest(a: nat, b: nat, c: nat)
    requires c > 0 && a % c == 0 && b % c == 0
    ensures Gcd(a, b) % c == 0
    decreases a + b
  {
    if a == 0 || b == 0 {
    } else if a < b {
      DividesMod(c, a, b);
      GcdGreatest(a, b % a, c);
    } else {
      DividesMod(c, b, a);
      GcdGreatest(b, a % b, c);
    }
  }

  /** The values fixed by the unit tests of fractional.hpp. */
  lemma GcdExamples()
    ensures Gcd(1, 0) == 1 && Gcd(0, 1) == 1 && Gcd(1, 1) == 1 && Gcd(0, 0) == 0
    ensures Gcd(1, 2) == 1 && Gcd(2, 3) == 1 && Gcd(3, 6) == 3
    ensures Gcd(3 * 5, 3 * 7) == 3
  {
    assert Gcd(1, 2) == Gcd(1, 0);
    assert Gcd(2, 3) == Gcd(2, 1) == Gcd(1, 0);
    assert Gcd(3, 6) == Gcd(3, 0);
    assert Gcd(15, 21) == Gcd(15, 6) == Gcd(6, 3) == Gcd(3, 0);
  }

  // ------------------------------------------------------ build_fraction

  /** A non-negative frame rate gives a non-negative numerator. */
  lemma BuildFractionNonNegative(integral: nat, r: nat)
    requires r <= Precision
    ensures BuildFraction(integral, r).0 >= 0
  {
    GcdDivides(r, Precision);
  }

  /** num / den equals integral + r / 10^6 as a rational number. */
  lemma BuildFractionValue(integral: int, r: nat)
    requires r <= Precision
    ensures BuildFraction(integral, r).0 * Precision
         == (integral * Precision + r) * BuildFraction(integral, r).1
  {
    var g := Gcd(r, Precision);
    GcdDivides(r, Precision);
    var a, b := Reduce(r, g), Reduce(Precision, g);
    CrossMultiply(integral, a, b, g);
  }

  /** x / g once g is known to divide x, with the factorisation stated. */
  function Reduce(x: int, g: nat): (q: int)
    requires g > 0 && x % g == 0
    ensures x == q * g
    ensures x >= 0 ==> q >= 0
  {
    x / g
  }

  lemma CrossMultiply(i: int, a: int, b: int, g: int)
    ensures (i * b + a) * (b * g) == (i * (b * g) + a * g) * b
  {
    calc {
      (i * b + a) * (b * g);
      (i * b) * (b * g) + a * (b * g);
      { assert (i * b) * (b * g) == (i * (b * g)) * b; assert a * (b * g) == (a * g) * b; }
      (i * (b * g)) * b + (a * g) * b;
      (i * (b * g) + a * g) * b;
    }
  }

  /** (num, den) is in lowest terms. */
  lemma BuildFractionLowestTerms(integral: int, r: nat)
    requires r <= Precision
    ensures Coprime(BuildFraction(integral, r).0, BuildFraction(integral, r).1)
  {
    var (num, den) := BuildFraction(integral, r);
    var g := Gcd(r, Precision);
    assert g > 0;
    forall d: int | d > 1
      ensures num % d != 0 || den % d != 0
    {
      CommonFactorBound(integral, r, d);
      FactorGrows(d, g);
    }
  }

  lemma FactorGrows(d: int, g: int)
    requires d > 1 && g > 0
    ensures d * g > g
  {
  }

  /** A positive common divisor d of the reduced fraction satisfies
      d * g <= g, where g is the gcd that was divided out. */
  lemma CommonFactorBound(integral: int, r: nat, d: int)
    requires r <= Precision && d > 0
    ensures var (num, den) := BuildFraction(integral, r);
            num % d == 0 && den % d == 0 ==> d * Gcd(r, Precision) <= Gcd(r, Precision)
  {
    var (num, den) := BuildFraction(integral, r);
    var g := Gcd(r, Precision);
    GcdDivides(r, Precision);
    var a, b := Reduce(r, g), Reduce(Precision, g);
    assert num == integral * b + a && den == b;
    if num % d == 0 && den % d == 0 {
      var kn, kd := Reduce(num, d), Reduce(den, d);
      var ka := kn - integral * kd;
      LiftFactor(integral, a, g, d, kn, kd);
      ModOfMultiple(ka, d * g);
      ModOfMultiple(kd, d * g);
      GcdGreatest(r, Precision, d * g);
      PositiveMultiple(g, d * g);
    }
  }

  /** If num = i*b + a = kn*d and b = kd*d then a*g = (kn - i*kd) * (d*g)
      and b*g = kd * (d*g). */
  lemma LiftFactor(i: int, a: int, g: int, d: int, kn: int, kd: int)
    ensures i * (kd * d) + a == kn * d ==> a * g == (kn - i * kd) * (d * g)
    ensures (kd * d) * g == kd * (d * g)
  {
    if i * (kd * d) + a == kn * d {
      assert a == (kn - i * kd) * d;
    }
  }

  /** A positive multiple of y is at least y. */
  lemma PositiveMultiple(x: int, y: int)
    requires x > 0 && y > 0 && x % y == 0
    ensures y <= x
  {
    assert x == (x / y) * y;
    assert x / y >= 1;
  }

  /** An integral frame rate gives (integral, 1). */
  lemma BuildFractionIntegral(integral: int)
    ensures BuildFraction(integral, 0) == (integral, 1)
  {
  }

  /** A remainder rounded up to a whole unit carries into the integer part. */
  lemma BuildFractionCarry(integral: int)
    ensures BuildFraction(integral, Precision) == (integral + 1, 1)
  {
  }

  /** The values fixed by the unit tests: 1.0, 25.0 and 33.333f (whose
      remainder rounds to 333000 micro-units). */
  lemma BuildFractionExamples()
    ensures BuildFraction(1, 0) == (1, 1)
    ensures BuildFraction(25, 0) == (25, 1)
    ensures BuildFraction(33, 333000) == (33333, 1000)
  {
    assert Gcd(333000, Precision) == Gcd(333000, 1000) == Gcd(1000, 0) == 1000;
  }
}

/**
 * The JavaScript `Math` functions used by the engine, as uninterpreted
 * functions on `real`.  A value of `Transcendentals` bundles one choice of
 * them; `Laws` is the small set of facts the proofs rely on.  Every member
 * that needs one of these facts requires `Laws(m)`; real mathematics
 * (exp, ln, log10, sqrt, pow on the reals) is a model of `Laws`.
 */
module Numerics {

  datatype Transcendentals = Transcendentals(
    exp: real -> real,          // the natural exponential
    ln: real -> real,           // Math.log
    log10: real -> real,        // Math.log10
    sqrt: real -> real,         // Math.sqrt
    pow: (real, real) -> real,  // Math.pow
    e: real,                    // Math.E
    minValue: real              // Number.MIN_VALUE, the smallest positive double
  )

  /**
   * x < y, as a named predicate: the monotonicity law of `exp` is used only
   * where a proof mentions it, through ExpStrictlyIncreasing.
   */
  predicate Below(x: real, y: real) {
    x < y
  }

  /**
   * The facts about the transcendentals the proofs use.  Each law keeps its
   * arithmetic outside the applications of exp, ln and pow, so that the
   * solver relates them by plain equalities.
   */
  ghost predicate Laws(m: Transcendentals) {
    && m.exp(0.0) == 1.0
    && (forall x {:trigger m.exp(x)} :: m.exp(x) > 0.0)
    && (forall x, y {:trigger Below(x, y)} :: Below(x, y) ==> m.exp(x) < m.exp(y))
    && (forall x {:trigger m.ln(m.exp(x))} :: m.ln(m.exp(x)) == x)
    && (forall x {:trigger m.exp(m.ln(x))} :: x > 0.0 ==> m.exp(m.ln(x)) == x)
    && (forall b, x {:trigger m.pow(b, x)} :: b > 0.0 ==> m.pow(b, x) > 0.0 && m.ln(m.pow(b, x)) == x * m.ln(b))
    && (forall x {:trigger m.pow(x, 2.0)} :: m.pow(x, 2.0) == x * x)
    && (forall x {:trigger m.log10(x)} :: x > 0.0 ==> m.log10(x) * m.ln(10.0) == m.ln(x))
    && (forall x {:trigger m.sqrt(x)} :: x >= 0.0 ==> m.sqrt(x) >= 0.0 && m.sqrt(x) * m.sqrt(x) == x)
    && m.e == m.exp(1.0)
    && 0.0 < m.minValue < 1.0
  }

  /** x to the natural power n, by repeated multiplication. */
  function IntPow(x: real, n: nat): real {
    if n == 0 then 1.0 else x * IntPow(x, n - 1)
  }

  /**
   * Math.pow on the cases the real-valued laws above leave open: a zero base
   * with a positive exponent, and any base with a natural exponent.
   */
  ghost predicate SignedPowers(m: Transcendentals) {
    && (forall x {:trigger m.pow(0.0, x)} :: x > 0.0 ==> m.pow(0.0, x) == 0.0)
    && (forall x, n: nat {:trigger m.pow(x, n as real)} :: m.pow(x, n as real) == IntPow(x, n))
  }

  lemma PowOfNat(m: Transcendentals, x: real, n: nat)
    requires SignedPowers(m)
    ensures m.pow(x, n as real) == IntPow(x, n)
  {
  }

  /** (-x)^n is x^n for even n and -(x^n) for odd n. */
  lemma {:induction false} IntPowOfNegated(x: real, n: nat)
    ensures IntPow(-x, n) == if n % 2 == 0 then IntPow(x, n) else -IntPow(x, n)
  {
    if n > 0 {
      IntPowOfNegated(x, n - 1);
    }
  }

  /** A non-negative base has a non-negative power, and a positive base a positive one. */
  lemma {:induction false} IntPowSign(x: real, n: nat)
    requires x >= 0.0
    ensures IntPow(x, n) >= 0.0
    ensures x > 0.0 ==> IntPow(x, n) > 0.0
  {
    if n > 0 {
      IntPowSign(x, n - 1);
      MulNonNegative(x, IntPow(x, n - 1));
    }
  }

  /** Every power of 1 is 1. */
  lemma {:induction false} IntPowOfOne(n: nat)
    ensures IntPow(1.0, n) == 1.0
  {
    if n > 0 {
      IntPowOfOne(n - 1);
    }
  }

  lemma ExpStrictlyIncreasing(m: Transcendentals, x: real, y: real)
    requires Laws(m) && x < y
    ensures m.exp(x) < m.exp(y)
  {
    assert Below(x, y);
  }

  lemma ExpMonotone(m: Transcendentals, x: real, y: real)
    requires Laws(m) && x <= y
    ensures m.exp(x) <= m.exp(y)
  {
    if x < y { ExpStrictlyIncreasing(m, x, y); }
  }

  lemma LnOne(m: Transcendentals)
    requires Laws(m)
    ensures m.ln(1.0) == 0.0
  {
    assert m.ln(m.exp(0.0)) == 0.0;
  }

  /** ln is strictly increasing on the positive reals. */
  lemma LnStrictlyIncreasing(m: Transcendentals, x: real, y: real)
    requires Laws(m) && 0.0 < x < y
    ensures m.ln(x) < m.ln(y)
  {
    assert m.exp(m.ln(x)) == x && m.exp(m.ln(y)) == y;
    assert m.ln(y) < m.ln(x) ==> m.exp(m.ln(y)) < m.exp(m.ln(x)) by {
      if m.ln(y) < m.ln(x) { ExpStrictlyIncreasing(m, m.ln(y), m.ln(x)); }
    }
  }

  lemma LnMonotone(m: Transcendentals, x: real, y: real)
    requires Laws(m) && 0.0 < x <= y
    ensures m.ln(x) <= m.ln(y)
  {
    if x < y { LnStrictlyIncreasing(m, x, y); }
  }

  /** The sign of ln b: positive above 1, negative on (0, 1), zero only at 1. */
  lemma LnSign(m: Transcendentals, b: real)
    requires Laws(m)
    ensures b > 1.0 ==> m.ln(b) > 0.0
    ensures 0.0 < b < 1.0 ==> m.ln(b) < 0.0
    ensures b > 0.0 ==> (m.ln(b) == 0.0 <==> b == 1.0)
  {
    LnOne(m);
    if b > 1.0 { LnStrictlyIncreasing(m, 1.0, b); }
    if 0.0 < b < 1.0 { LnStrictlyIncreasing(m, b, 1.0); }
  }

  lemma ExpInjective(m: Transcendentals, x: real, y: real)
    requires Laws(m) && m.exp(x) == m.exp(y)
    ensures x == y
  {
    assert m.ln(m.exp(x)) == x && m.ln(m.exp(y)) == y;
  }

  /** Math.pow(e, x) is the exponential. */
  lemma PowOfE(m: Transcendentals, x: real)
    requires Laws(m)
    ensures m.pow(m.e, x) == m.exp(x)
  {
    assert m.ln(m.e) == 1.0 by { assert m.ln(m.exp(1.0)) == 1.0; }
    assert m.ln(m.pow(m.e, x)) == x;
    assert m.exp(m.ln(m.pow(m.e, x))) == m.pow(m.e, x);
  }

  lemma DivCancel(x: real, l: real)
    requires l != 0.0
    ensures (x * l) / l == x
  {
  }

  lemma DivSelf(d: real)
    requires d != 0.0
    ensures d / d == 1.0
  {
    assert (1.0 * d) / d == 1.0;
  }

  lemma MulDiv(a: real, b: real)
    requires b != 0.0
    ensures (a / b) * b == a
  {
  }

  lemma MulNonNegative(a: real, b: real)
    requires a >= 0.0 && b >= 0.0
    ensures a * b >= 0.0
  {
  }

  /** Dividing a product by one of its factors; p names the product so that it is matched as written. */
  lemma DivOfProduct(p: real, l: real, x: real)
    requires l != 0.0 && p == l * x
    ensures p / l == x
  {
  }

  /** Taking the base-b logarithm (ln _ / ln b) undoes raising b to a power. */
  lemma LogOfPow(m: Transcendentals, b: real, x: real)
    requires Laws(m) && b > 0.0 && b != 1.0
    ensures m.ln(b) != 0.0
    ensures m.ln(m.pow(b, x)) / m.ln(b) == x
  {
    LnSign(m, b);
    assert m.ln(m.pow(b, x)) == x * m.ln(b);
    DivCancel(x, m.ln(b));
  }

  /** Raising b to the base-b logarithm of x gives x back. */
  lemma PowOfLog(m: Transcendentals, b: real, x: real)
    requires Laws(m) && b > 0.0 && b != 1.0 && x > 0.0
    ensures m.ln(b) != 0.0
    ensures m.pow(b, m.ln(x) / m.ln(b)) == x
  {
    LnSign(m, b);
    var y := m.ln(x) / m.ln(b);
    MulDiv(m.ln(x), m.ln(b));
    assert m.ln(m.pow(b, y)) == m.ln(x);
    assert m.exp(m.ln(m.pow(b, y))) == m.pow(b, y);
    assert m.exp(m.ln(x)) == x;
  }

  /** For a base above 1, b^x is strictly increasing in x. */
  lemma PowStrictlyIncreasing(m: Transcendentals, b: real, x: real, y: real)
    requires Laws(m) && b > 1.0 && x < y
    ensures m.pow(b, x) < m.pow(b, y)
  {
    LnSign(m, b);
    MulStrictlyIncreasing(x, y, m.ln(b));
    var p, q := m.pow(b, x), m.pow(b, y);
    assert m.ln(p) < m.ln(q);
    assert q <= p ==> m.ln(q) <= m.ln(p) by {
      if q <= p { LnMonotone(m, q, p); }
    }
  }

  /** For a base above 1, b^x is increasing in x. */
  lemma PowMonotone(m: Transcendentals, b: real, x: real, y: real)
    requires Laws(m) && b > 1.0 && x <= y
    ensures m.pow(b, x) <= m.pow(b, y)
  {
    if x < y { PowStrictlyIncreasing(m, b, x, y); }
  }

  lemma DivStrictlyIncreasing(x: real, y: real, l: real)
    requires x < y && l > 0.0
    ensures x / l < y / l
  {
    MulDiv(x, l);
    MulDiv(y, l);
  }

  lemma DivMonotone(x: real, y: real, l: real)
    requires x <= y && l > 0.0
    ensures x / l <= y / l
  {
    if x < y { DivStrictlyIncreasing(x, y, l); }
  }

  lemma MulStrictlyIncreasing(x: real, y: real, l: real)
    requires x < y && l > 0.0
    ensures x * l < y * l
  {
  }

  lemma SquareStrictlyIncreasing(a: real, b: real)
    requires 0.0 <= a < b
    ensures a * a < b * b
  {
    assert (b - a) * a >= 0.0;
    assert (b - a) * b > 0.0;
  }

  lemma SqrtOfSquare(m: Transcendentals, z: real)
    requires Laws(m)
    ensures m.sqrt(z * z) == if z >= 0.0 then z else -z
  {
    var s := m.sqrt(z * z);
    var a := if z >= 0.0 then z else -z;
    assert a * a == z * z;
    assert s >= 0.0 && s * s == a * a;
    assert s < a ==> s * s < a * a by {
      if s < a { SquareStrictlyIncreasing(s, a); }
    }
    assert a < s ==> a * a < s * s by {
      if a < s { SquareStrictlyIncreasing(a, s); }
    }
  }

  lemma SqrtMonotone(m: Transcendentals, x: real, y: real)
    requires Laws(m) && 0.0 <= x <= y
    ensures m.sqrt(x) <= m.sqrt(y)
  {
    var sx, sy := m.sqrt(x), m.sqrt(y);
    assert sx >= 0.0 && sy >= 0.0 && sx * sx == x && sy * sy == y;
    assert sy < sx ==> sy * sy < sx * sx by {
      if sy < sx { SquareStrictlyIncreasing(sy, sx); }
    }
  }

  lemma SqrtPositive(m: Transcendentals, x: real)
    requires Laws(m) && x > 0.0
    ensures m.sqrt(x) > 0.0
  {
  }
}

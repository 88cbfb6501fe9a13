/**
 * The pure numeric helpers of the engine: clamping, the quadratic solver and
 * the power-of-two test of pkg/src/util/math-helpers.ts, and the affine
 * rescale and decibel conversions of docs/helpers/math-helpers.ts.
 */
module MathKernel {
  import opened Numerics

  // ---------------------------------------------------------------------
  // Clamping
  // ---------------------------------------------------------------------

  /** Clamps `value` into [min, max]. */
  function FitToBounds(value: real, min: real, max: real): (r: real)
    ensures value < min ==> r == min
    ensures min <= value && max < value ==> r == max
    ensures min <= value <= max ==> r == value
    ensures min <= max ==> min <= r <= max
  {
    if value < min then min
    else if value > max then max
    else value
  }

  /** Clamping twice is clamping once. */
  lemma FitToBoundsIdempotent(value: real, min: real, max: real)
    requires min <= max
    ensures FitToBounds(FitToBounds(value, min, max), min, max) == FitToBounds(value, min, max)
  {
  }

  // ---------------------------------------------------------------------
  // Quadratic equations a*t^2 + b*t + c = 0
  // ---------------------------------------------------------------------

  datatype QuadraticRoot = QuadraticRoot(realPart: real, imaginaryPart: real)

  datatype QuadraticResult = QuadraticResult(solution1: QuadraticRoot, solution2: QuadraticRoot)

  function Discriminant(a: real, b: real, c: real): real {
    b * b - 4.0 * a * c
  }

  /** The value of the polynomial a*t^2 + b*t + c at t. */
  function Quadratic(a: real, b: real, c: real, t: real): real {
    a * t * t + b * t + c
  }

  /**
   * The discriminant method.  A zero leading coefficient divides by zero in
   * the source (an infinite or NaN root), which the model does not represent.
   */
  function SolveQuadratic(m: Transcendentals, a: real, b: real, c: real): (r: QuadraticResult)
    requires a != 0.0
    ensures Discriminant(a, b, c) >= 0.0 ==>
      r.solution1.imaginaryPart == 0.0 && r.solution2.imaginaryPart == 0.0
    ensures r.solution2.imaginaryPart == -r.solution1.imaginaryPart
  {
    var discriminant := Discriminant(a, b, c);
    if discriminant > 0.0 then
      QuadraticResult(
        QuadraticRoot((-b + m.sqrt(discriminant)) / (2.0 * a), 0.0),
        QuadraticRoot((-b - m.sqrt(discriminant)) / (2.0 * a), 0.0))
    else if discriminant == 0.0 then
      QuadraticResult(QuadraticRoot(-b / (2.0 * a), 0.0), QuadraticRoot(-b / (2.0 * a), 0.0))
    else
      var realPart := -b / (2.0 * a);
      var imagPart := m.sqrt(-discriminant) / (2.0 * a);
      QuadraticResult(QuadraticRoot(realPart, imagPart), QuadraticRoot(realPart, -imagPart))
  }

  /** If s*s is the discriminant, then (-b + s)/(2a) is a root. */
  lemma RootFromSquareRoot(a: real, b: real, c: real, s: real)
    requires a != 0.0 && s * s == Discriminant(a, b, c)
    ensures Quadratic(a, b, c, (-b + s) / (2.0 * a)) == 0.0
  {
    var t := (-b + s) / (2.0 * a);
    assert s == 2.0 * a * t + b;
    assert s * s == 4.0 * a * a * t * t + 4.0 * a * b * t + b * b;
    assert 4.0 * a * Quadratic(a, b, c, t) == 0.0;
  }

  /** A positive discriminant gives two different real roots of the polynomial. */
  lemma SolveQuadraticDistinctRoots(m: Transcendentals, a: real, b: real, c: real)
    requires Laws(m) && a != 0.0 && Discriminant(a, b, c) > 0.0
    ensures SolveQuadratic(m, a, b, c).solution1.imaginaryPart == 0.0
    ensures SolveQuadratic(m, a, b, c).solution2.imaginaryPart == 0.0
    ensures SolveQuadratic(m, a, b, c).solution1.realPart != SolveQuadratic(m, a, b, c).solution2.realPart
    ensures Quadratic(a, b, c, SolveQuadratic(m, a, b, c).solution1.realPart) == 0.0
    ensures Quadratic(a, b, c, SolveQuadratic(m, a, b, c).solution2.realPart) == 0.0
  {
    var d := Discriminant(a, b, c);
    var s := m.sqrt(d);
    assert s > 0.0 && s * s == d;
    RootFromSquareRoot(a, b, c, s);
    RootFromSquareRoot(a, b, c, -s);
    assert (-b + s) / (2.0 * a) - (-b - s) / (2.0 * a) == s / a;
  }

  /** With a positive leading coefficient the first root is the larger one. */
  lemma SolveQuadraticOrder(m: Transcendentals, a: real, b: real, c: real)
    requires Laws(m) && a > 0.0 && Discriminant(a, b, c) > 0.0
    ensures SolveQuadratic(m, a, b, c).solution1.realPart > SolveQuadratic(m, a, b, c).solution2.realPart
  {
    var s := m.sqrt(Discriminant(a, b, c));
    assert s > 0.0;
    assert (-b + s) / (2.0 * a) - (-b - s) / (2.0 * a) == s / a;
  }

  /** A zero discriminant gives the repeated real root -b/(2a) twice. */
  lemma SolveQuadraticRepeatedRoot(m: Transcendentals, a: real, b: real, c: real)
    requires a != 0.0 && Discriminant(a, b, c) == 0.0
    ensures SolveQuadratic(m, a, b, c).solution1 == QuadraticRoot(-b / (2.0 * a), 0.0)
    ensures SolveQuadratic(m, a, b, c).solution2 == QuadraticRoot(-b / (2.0 * a), 0.0)
    ensures Quadratic(a, b, c, -b / (2.0 * a)) == 0.0
  {
    RootFromSquareRoot(a, b, c, 0.0);
  }

  /** A negative discriminant gives a complex-conjugate pair with non-zero imaginary parts. */
  lemma SolveQuadraticComplexRoots(m: Transcendentals, a: real, b: real, c: real)
    requires Laws(m) && a != 0.0 && Discriminant(a, b, c) < 0.0
    ensures SolveQuadratic(m, a, b, c).solution1.realPart == -b / (2.0 * a)
    ensures SolveQuadratic(m, a, b, c).solution2.realPart == -b / (2.0 * a)
    ensures SolveQuadratic(m, a, b, c).solution2.imaginaryPart == -SolveQuadratic(m, a, b, c).solution1.imaginaryPart
    ensures SolveQuadratic(m, a, b, c).solution1.imaginaryPart != 0.0
  {
    SqrtPositive(m, -Discriminant(a, b, c));
  }

  /** solveQuadratic(1, 0, -4) yields the real roots 2 and -2. */
  lemma SolveQuadraticExampleReal(m: Transcendentals)
    requires Laws(m)
    ensures SolveQuadratic(m, 1.0, 0.0, -4.0) ==
      QuadraticResult(QuadraticRoot(2.0, 0.0), QuadraticRoot(-2.0, 0.0))
  {
    assert Discriminant(1.0, 0.0, -4.0) == 4.0 * 4.0;
    SqrtOfSquare(m, 4.0);
  }

  /** solveQuadratic(1, 2, 5) yields the complex pair -1 + 2i, -1 - 2i. */
  lemma SolveQuadraticExampleComplex(m: Transcendentals)
    requires Laws(m)
    ensures SolveQuadratic(m, 1.0, 2.0, 5.0) ==
      QuadraticResult(QuadraticRoot(-1.0, 2.0), QuadraticRoot(-1.0, -2.0))
  {
    assert -Discriminant(1.0, 2.0, 5.0) == 4.0 * 4.0;
    SqrtOfSquare(m, 4.0);
  }

  // ---------------------------------------------------------------------
  // Power-of-two test on 32-bit integers
  // ---------------------------------------------------------------------

  /** The single-bit word 2^k. */
  function Bit(k: bv32): bv32
    requires k < 32
  {
    1 << k
  }

  /**
   * `(n & (n - 1)) === 0`.  The bitwise operators of JavaScript work on the
   * 32-bit two's-complement image of their operands, so the argument is that
   * image and the subtraction wraps around, as the conversion does.
   */
  function IsPowerOfTwo(n: bv32): (r: bool)
    ensures n == 0 ==> r
  {
    n & (n - 1) == 0
  }

  /** One step of the search for the single set bit of n. */
  lemma NextBitClear(n: bv32, k: bv32)
    requires k < 31 && n & (n - 1) == 0
    requires n & (Bit(k) - 1) == 0 && n != Bit(k)
    ensures n & (Bit(k + 1) - 1) == 0
  {
  }

  /** Finds, from bit k upwards, the exponent j with n == 2^j. */
  lemma {:induction false} FindExponent(n: bv32, k: bv32) returns (j: bv32)
    requires k <= 31 && n != 0 && n & (n - 1) == 0
    requires n & (Bit(k) - 1) == 0
    ensures k <= j < 32 && n == Bit(j)
    decreases 31 - k as int
  {
    if n == Bit(k) {
      j := k;
    } else {
      assert k < 31;
      NextBitClear(n, k);
      j := FindExponent(n, k + 1);
    }
  }

  /**
   * On every non-zero word the test holds exactly of the powers of two,
   * 0x8000_0000 (the image of both 2^31 and -2^31) among them.
   */
  lemma IsPowerOfTwoIff(n: bv32)
    requires n != 0
    ensures IsPowerOfTwo(n) <==> exists k: bv32 :: k < 32 && n == Bit(k)
    ensures n == 0x8000_0000 ==> IsPowerOfTwo(n)
  {
    if IsPowerOfTwo(n) {
      var j := FindExponent(n, 0);
    }
  }

  // ---------------------------------------------------------------------
  // docs/helpers/math-helpers.ts
  // ---------------------------------------------------------------------

  /** 10^(db/20). */
  function DbToGain(m: Transcendentals, db: real): (gain: real)
    requires Laws(m)
    ensures gain > 0.0
  {
    m.pow(10.0, db / 20.0)
  }

  /** 20 * log10(gain), written with Math.log and Math.LN10 (= ln 10). */
  function GainToDb(m: Transcendentals, gain: real): (db: real)
    requires Laws(m)
    ensures gain > 1.0 ==> db > 0.0
    ensures gain == 1.0 ==> db == 0.0
    ensures 0.0 < gain < 1.0 ==> db < 0.0
  {
    LnSign(m, 10.0);
    LnSign(m, gain);
    20.0 * (m.ln(gain) / m.ln(10.0))
  }

  lemma DbToGainOfZero(m: Transcendentals)
    requires Laws(m)
    ensures DbToGain(m, 0.0) == 1.0
  {
    LnOne(m);
    assert m.ln(m.pow(10.0, 0.0)) == 0.0;
    assert m.exp(m.ln(m.pow(10.0, 0.0))) == m.pow(10.0, 0.0);
  }

  /** Converting a positive gain to decibels and back returns it. */
  lemma GainDbRoundTrip(m: Transcendentals, gain: real)
    requires Laws(m) && gain > 0.0
    ensures DbToGain(m, GainToDb(m, gain)) == gain
  {
    PowOfLog(m, 10.0, gain);
    assert GainToDb(m, gain) / 20.0 == m.ln(gain) / m.ln(10.0);
  }

  /** Converting decibels to a gain and back returns them. */
  lemma DbGainRoundTrip(m: Transcendentals, db: real)
    requires Laws(m)
    ensures GainToDb(m, DbToGain(m, db)) == db
  {
    LogOfPow(m, 10.0, db / 20.0);
  }

  /** log base n of x: ln x / ln n. */
  function LogBaseN(m: Transcendentals, n: real, x: real): real
    requires Laws(m) && n > 0.0 && n != 1.0
  {
    LnSign(m, n);
    m.ln(x) / m.ln(n)
  }

  /** n to the power x. */
  function PowBaseN(m: Transcendentals, n: real, x: real): real {
    m.pow(n, x)
  }

  lemma LogBaseNOfPowBaseN(m: Transcendentals, n: real, x: real)
    requires Laws(m) && n > 0.0 && n != 1.0
    ensures LogBaseN(m, n, PowBaseN(m, n, x)) == x
  {
    LogOfPow(m, n, x);
  }

  lemma PowBaseNOfLogBaseN(m: Transcendentals, n: real, x: real)
    requires Laws(m) && n > 0.0 && n != 1.0 && x > 0.0
    ensures PowBaseN(m, n, LogBaseN(m, n, x)) == x
  {
    PowOfLog(m, n, x);
  }

  /**
   * Maps v affinely from [inMin, inMax] onto [outMin, outMax].  Equal input
   * bounds divide by zero in the source, which the model does not represent.
   */
  function ScaleValue(v: real, inMin: real, inMax: real, outMin: real, outMax: real): (r: real)
    requires inMax != inMin
    ensures v == inMin ==> r == outMin
    ensures v == inMax ==> r == outMax
    ensures inMin == outMin && inMax == outMax ==> r == v
  {
    DivSelf(inMax - inMin);
    MulDiv(v - inMin, inMax - inMin);
    outMin + (outMax - outMin) * ((v - inMin) / (inMax - inMin))
  }

  /** Scaling from A to B and then from B back to A is the identity. */
  lemma ScaleValueRoundTrip(v: real, inMin: real, inMax: real, outMin: real, outMax: real)
    requires inMax != inMin && outMax != outMin
    ensures ScaleValue(ScaleValue(v, inMin, inMax, outMin, outMax), outMin, outMax, inMin, inMax) == v
  {
    var u := (v - inMin) / (inMax - inMin);
    var w := ScaleValue(v, inMin, inMax, outMin, outMax);
    assert w - outMin == (outMax - outMin) * u;
    DivOfProduct(w - outMin, outMax - outMin, u);
    MulDiv(v - inMin, inMax - inMin);
  }

  /** Between two increasing ranges the rescale is strictly increasing. */
  lemma ScaleValueStrictlyIncreasing(v: real, w: real, inMin: real, inMax: real, outMin: real, outMax: real)
    requires inMax > inMin && outMax > outMin && v < w
    ensures ScaleValue(v, inMin, inMax, outMin, outMax) < ScaleValue(w, inMin, inMax, outMin, outMax)
  {
    var d := inMax - inMin;
    var x, y := (v - inMin) / d, (w - inMin) / d;
    DivStrictlyIncreasing(v - inMin, w - inMin, d);
    MulStrictlyIncreasing(x, y, outMax - outMin);
    assert (outMax - outMin) * x < (outMax - outMin) * y;
  }
}

/**
 * The curve engine of pkg/src/util/curved-range.ts.  The class hierarchy
 * (a base class whose accessors are overridden by five variants) becomes
 * one datatype with a case per variant and one dispatch function per
 * accessor.  A thrown string becomes an `Err` carrying the reason.
 *
 * Sub-expressions the source computes inline (the unit position t, the
 * exponent of the log curve, the logarithm's argument of its inverse) are
 * named functions here, so that lemmas can speak about exactly the value
 * the formula uses.
 */
module CurvedRanges {
  import opened Numerics
  import opened MathKernel

  datatype CurveError =
    | BelowMin(value: real, min: real)   // "given value … is less than min value …"
    | AboveMax(value: real, max: real)   // "given value … is greater than max value …"
    | NotReal                            // "invalid bezier curve - quadratic solution is not real"
    | CurvedNotOverridden                // "getCurvedValue must be overriden in child class"
    | LinearNotOverridden                // "getLinearValue must be overriden in child class"

  datatype Outcome = Pass | Fail(error: CurveError)

  datatype Result<T> = Ok(value: T) | Err(error: CurveError)

  /** BaseCurvedRange.validateInput: rejects values outside [min, max]. */
  function ValidateInput(min: real, max: real, value: real): (o: Outcome)
    ensures o == Pass <==> min <= value <= max
    ensures value < min ==> o == Fail(BelowMin(value, min))
    ensures min <= value && value > max ==> o == Fail(AboveMax(value, max))
  {
    if value < min then Fail(BelowMin(value, min))
    else if value > max then Fail(AboveMax(value, max))
    else Pass
  }

  datatype Point = Point(x: real, y: real)

  datatype CurvedRange =
    | LinearCurvedRange(min: real, max: real)
    | LogCurvedRange(min: real, max: real, curveAmount: real)
    | InverseLogCurvedRange(min: real, max: real, curveAmount: real)
    | QuadBezierCurvedRange(min: real, max: real)
    | Pow2CurvedRange(min: real, max: real)

  /**
   * What the accessors need to stay away from a division by zero (which in
   * the source gives NaN or an infinity): distinct bounds for every variant
   * but the linear one, which never divides, and a non-zero curve amount for
   * the two logarithmic variants.
   */
  predicate WellDefined(r: CurvedRange) {
    && (!r.LinearCurvedRange? ==> r.min != r.max)
    && (r.LogCurvedRange? || r.InverseLogCurvedRange? ==> r.curveAmount != 0.0)
  }

  /** t = (value - min) / (max - min), the position of value in [min, max]. */
  function UnitPosition(value: real, min: real, max: real): real
    requires max != min
  {
    (value - min) / (max - min)
  }

  // ---------------------------------------------------------------------
  // The two log-curve formulas
  // ---------------------------------------------------------------------

  /** The file's own `exp`, Math.pow(Math.E, x). */
  function Exp(m: Transcendentals, x: real): (y: real)
    requires Laws(m)
    ensures y == m.exp(x) && y > 0.0
  {
    PowOfE(m, x);
    m.pow(m.e, x)
  }

  /** exp(-k) lies below 1 for positive k and above 1 for negative k. */
  lemma ExpOfNegated(m: Transcendentals, k: real)
    requires Laws(m)
    ensures k > 0.0 ==> m.exp(-k) < 1.0
    ensures k < 0.0 ==> m.exp(-k) > 1.0
  {
    if k > 0.0 { ExpStrictlyIncreasing(m, -k, 0.0); }
    if k < 0.0 { ExpStrictlyIncreasing(m, 0.0, -k); }
  }

  /** t * (hi - lo) + lo, placing a unit position t in [lo, hi]. */
  function Place(t: real, lo: real, hi: real): real {
    t * (hi - lo) + lo
  }

  /** The exponent getLogCurve passes to exp: (t - 1) * curveAmt. */
  function LogCurveExponent(x: real, minInput: real, maxInput: real, curveAmt: real): real
    requires maxInput != minInput
  {
    (UnitPosition(x, minInput, maxInput) - 1.0) * curveAmt
  }

  /** exp(-curveAmt) - 1, the denominator of getLogCurve; its sign is opposite to curveAmt's. */
  function LogCurveScale(m: Transcendentals, curveAmt: real): (d: real)
    requires Laws(m)
    ensures d + 1.0 == m.exp(-curveAmt)
    ensures curveAmt > 0.0 ==> -1.0 < d < 0.0
    ensures curveAmt < 0.0 ==> d > 0.0
    ensures d > -1.0
  {
    ExpOfNegated(m, curveAmt);
    Exp(m, -curveAmt) - 1.0
  }

  /** The outer step of getLogCurve: ((e - 1) / d) * (minOutput - maxOutput) + maxOutput. */
  function LogShape(e: real, d: real, minOutput: real, maxOutput: real): real
    requires d != 0.0
  {
    ((e - 1.0) / d) * (minOutput - maxOutput) + maxOutput
  }

  /** getLogCurve: the exponential curve from [minInput, maxInput] onto [minOutput, maxOutput]. */
  function GetLogCurve(m: Transcendentals, x: real, minInput: real, maxInput: real,
                       minOutput: real, maxOutput: real, curveAmt: real): real
    requires Laws(m) && maxInput != minInput && curveAmt != 0.0
  {
    LogShape(Exp(m, LogCurveExponent(x, minInput, maxInput, curveAmt)), LogCurveScale(m, curveAmt),
             minOutput, maxOutput)
  }

  /** The argument of getInverseLogCurve's logarithm, ((x - maxOutput) * d) / (minOutput - maxOutput) + 1. */
  function InverseArgument(x: real, d: real, minOutput: real, maxOutput: real): real
    requires minOutput != maxOutput
  {
    ((x - maxOutput) * d) / (minOutput - maxOutput) + 1.0
  }

  /** The step after the logarithm in getInverseLogCurve: l / curveAmt + 1. */
  function ScaledLog(l: real, curveAmt: real): real
    requires curveAmt != 0.0
  {
    l / curveAmt + 1.0
  }

  /** getInverseLogCurve: solves the log curve for its input through the natural logarithm. */
  function GetInverseLogCurve(m: Transcendentals, x: real, minInput: real, maxInput: real,
                              minOutput: real, maxOutput: real, curveAmt: real): real
    requires Laws(m) && minOutput != maxOutput && curveAmt != 0.0
  {
    Place(ScaledLog(m.ln(InverseArgument(x, LogCurveScale(m, curveAmt), minOutput, maxOutput)), curveAmt),
          minInput, maxInput)
  }

  // Real-number steps of the two formulas, free of the transcendentals.

  lemma UnitPositionAtBounds(min: real, max: real)
    requires max != min
    ensures UnitPosition(min, min, max) == 0.0 && UnitPosition(max, min, max) == 1.0
  {
    DivSelf(max - min);
  }

  lemma UnitPositionInUnit(x: real, lo: real, hi: real)
    requires lo < hi && lo <= x <= hi
    ensures 0.0 <= UnitPosition(x, lo, hi) <= 1.0
  {
    MulDiv(x - lo, hi - lo);
  }

  /** Placing t in [lo, hi] and measuring its position again gives t back. */
  lemma UnitPositionOfPlaced(t: real, lo: real, hi: real)
    requires hi != lo
    ensures UnitPosition(Place(t, lo, hi), lo, hi) == t
  {
    DivOfProduct(t * (hi - lo), hi - lo, t);
  }

  /** Measuring the position of x and placing it again gives x back. */
  lemma PlacedUnitPosition(x: real, lo: real, hi: real)
    requires hi != lo
    ensures Place(UnitPosition(x, lo, hi), lo, hi) == x
  {
    MulDiv(x - lo, hi - lo);
  }

  lemma PlaceAtBounds(lo: real, hi: real)
    ensures Place(0.0, lo, hi) == lo && Place(1.0, lo, hi) == hi
  {
  }

  lemma PlaceInRange(w: real, lo: real, hi: real)
    requires 0.0 <= w <= 1.0 && lo <= hi
    ensures lo <= Place(w, lo, hi) <= hi
  {
    MulNonNegative(w, hi - lo);
    MulNonNegative(1.0 - w, hi - lo);
  }

  /** The exponent is -k at the bottom of the input range and 0 at the top. */
  lemma ExponentAtBounds(lo: real, hi: real, k: real)
    requires hi != lo
    ensures LogCurveExponent(lo, lo, hi, k) == -k && LogCurveExponent(hi, lo, hi, k) == 0.0
  {
    UnitPositionAtBounds(lo, hi);
  }

  /** The exponent lies between -k and 0 on the input range. */
  lemma ExponentBetween(x: real, lo: real, hi: real, k: real)
    requires lo < hi && lo <= x <= hi
    ensures k > 0.0 ==> -k <= LogCurveExponent(x, lo, hi, k) <= 0.0
    ensures k < 0.0 ==> 0.0 <= LogCurveExponent(x, lo, hi, k) <= -k
  {
    UnitPositionInUnit(x, lo, hi);
    var u := UnitPosition(x, lo, hi);
    if k > 0.0 { MulNonNegative(1.0 - u, k); MulNonNegative(u, k); }
    if k < 0.0 { MulNonNegative(1.0 - u, -k); MulNonNegative(u, -k); }
  }

  /** The outer step of getLogCurve takes exp(-k) = d + 1 to minOutput and 1 to maxOutput. */
  lemma LogShapeAtBounds(d: real, lo: real, hi: real)
    requires d != 0.0
    ensures LogShape(d + 1.0, d, lo, hi) == lo && LogShape(1.0, d, lo, hi) == hi
  {
    DivSelf(d);
  }

  lemma RatioInUnit(a: real, d: real)
    requires (d < 0.0 && d <= a <= 0.0) || (d > 0.0 && 0.0 <= a <= d)
    ensures 0.0 <= a / d <= 1.0
  {
    MulDiv(a, d);
    DivSelf(d);
  }

  /** The outer step of getLogCurve keeps an e between 1 and d + 1 within the output range. */
  lemma LogShapeInRange(e: real, d: real, lo: real, hi: real)
    requires lo <= hi
    requires (d < 0.0 && d + 1.0 <= e <= 1.0) || (d > 0.0 && 1.0 <= e <= d + 1.0)
    ensures lo <= LogShape(e, d, lo, hi) <= hi
  {
    RatioInUnit(e - 1.0, d);
    var q := (e - 1.0) / d;
    assert q * (hi - lo) <= hi - lo;
  }

  /** The argument of the logarithm is 1 at maxOutput and d + 1 at minOutput. */
  lemma InverseArgumentAtBounds(d: real, lo: real, hi: real)
    requires lo != hi
    ensures InverseArgument(hi, d, lo, hi) == 1.0 && InverseArgument(lo, d, lo, hi) == d + 1.0
  {
    InverseArgumentAt(hi, 0.0, d, lo, hi);
    InverseArgumentAt(lo, 1.0, d, lo, hi);
  }

  /** At x = t * (lo - hi) + hi, the argument of the logarithm is t * d + 1. */
  lemma InverseArgumentAt(x: real, t: real, d: real, lo: real, hi: real)
    requires lo != hi && x == t * (lo - hi) + hi
    ensures InverseArgument(x, d, lo, hi) == t * d + 1.0
  {
    DivOfProduct((x - hi) * d, lo - hi, t * d);
  }

  /** The position of c in [lo, hi] measured from hi, as getInverseLogCurve measures it. */
  lemma UnitFromTop(c: real, lo: real, hi: real)
    requires lo < hi && lo <= c <= hi
    ensures 0.0 <= (c - hi) / (lo - hi) <= 1.0
  {
    RatioInUnit(c - hi, lo - hi);
  }

  /** On the output range the argument of the logarithm lies between 1 and d + 1; for d > -1 it is positive. */
  lemma InverseArgumentBetween(x: real, d: real, lo: real, hi: real)
    requires lo < hi && lo <= x <= hi && d > -1.0
    ensures InverseArgument(x, d, lo, hi) > 0.0
    ensures d <= 0.0 ==> d + 1.0 <= InverseArgument(x, d, lo, hi) <= 1.0
    ensures d >= 0.0 ==> 1.0 <= InverseArgument(x, d, lo, hi) <= d + 1.0
  {
    UnitFromTop(x, lo, hi);
    var t := (x - hi) / (lo - hi);
    assert ((x - hi) * d) / (lo - hi) == t * d;
    if d <= 0.0 {
      MulNonNegative(t, -d);
      MulNonNegative(1.0 - t, -d);
    } else {
      MulNonNegative(t, d);
      MulNonNegative(1.0 - t, d);
    }
  }

  /** The argument of the logarithm undoes the outer step of getLogCurve. */
  lemma InverseArgumentOfLogShape(e: real, d: real, lo: real, hi: real)
    requires d != 0.0 && lo != hi
    ensures InverseArgument(LogShape(e, d, lo, hi), d, lo, hi) == e
  {
    var c := LogShape(e, d, lo, hi);
    var s := lo - hi;
    var q := (e - 1.0) / d;
    MulDiv(e - 1.0, d);
    assert (c - hi) * d == s * (e - 1.0) by {
      assert c - hi == q * s;
      assert (q * s) * d == s * (q * d);
    }
    DivOfProduct((c - hi) * d, s, e - 1.0);
  }

  /** The outer step of getLogCurve undoes the argument of the logarithm. */
  lemma LogShapeOfInverseArgument(c: real, d: real, lo: real, hi: real)
    requires d != 0.0 && lo != hi
    ensures LogShape(InverseArgument(c, d, lo, hi), d, lo, hi) == c
  {
    var a := InverseArgument(c, d, lo, hi);
    var s := lo - hi;
    MulDiv((c - hi) * d, s);
    assert (a - 1.0) * s == (c - hi) * d;
    assert ((a - 1.0) / d) * s == ((a - 1.0) * s) / d;
    DivOfProduct((c - hi) * d, d, c - hi);
  }

  /** ScaledLog undoes the exponent: it gives back the unit position. */
  lemma ScaledLogOfExponent(x: real, lo: real, hi: real, k: real)
    requires hi != lo && k != 0.0
    ensures ScaledLog(LogCurveExponent(x, lo, hi, k), k) == UnitPosition(x, lo, hi)
  {
    var u := UnitPosition(x, lo, hi);
    DivOfProduct((u - 1.0) * k, k, u - 1.0);
  }

  /** The exponent of a placed ScaledLog(l, k) is l again. */
  lemma ExponentOfScaledLog(l: real, lo: real, hi: real, k: real)
    requires hi != lo && k != 0.0
    ensures LogCurveExponent(Place(ScaledLog(l, k), lo, hi), lo, hi, k) == l
  {
    UnitPositionOfPlaced(ScaledLog(l, k), lo, hi);
    MulDiv(l, k);
  }

  lemma ScaledLogAtBounds(k: real)
    requires k != 0.0
    ensures ScaledLog(0.0, k) == 1.0 && ScaledLog(-k, k) == 0.0
  {
    DivOfProduct(-k, k, -1.0);
  }

  /** ScaledLog(l, k) lands in [0, 1] when l lies between 0 and -k. */
  lemma ScaledLogInUnit(l: real, k: real)
    requires (k > 0.0 && -k <= l <= 0.0) || (k < 0.0 && 0.0 <= l <= -k)
    ensures 0.0 <= ScaledLog(l, k) <= 1.0
  {
    MulDiv(l, k);
  }

  // The two formulas: endpoints, ranges and round trips.

  /** The file's exp of the exponent at minInput is exp(-k) = d + 1, and at maxInput it is 1. */
  lemma ExpOfExponentAtBounds(m: Transcendentals, lo: real, hi: real, k: real)
    requires Laws(m) && hi != lo
    ensures Exp(m, LogCurveExponent(lo, lo, hi, k)) == LogCurveScale(m, k) + 1.0
    ensures Exp(m, LogCurveExponent(hi, lo, hi, k)) == 1.0
  {
    ExponentAtBounds(lo, hi, k);
  }

  /** With a non-zero curve amount, getLogCurve takes minInput to minOutput and maxInput to maxOutput. */
  lemma LogCurveEndpoints(m: Transcendentals, minInput: real, maxInput: real,
                          minOutput: real, maxOutput: real, curveAmt: real)
    requires Laws(m) && maxInput != minInput && curveAmt != 0.0
    ensures GetLogCurve(m, minInput, minInput, maxInput, minOutput, maxOutput, curveAmt) == minOutput
    ensures GetLogCurve(m, maxInput, minInput, maxInput, minOutput, maxOutput, curveAmt) == maxOutput
  {
    ExpOfExponentAtBounds(m, minInput, maxInput, curveAmt);
    LogShapeAtBounds(LogCurveScale(m, curveAmt), minOutput, maxOutput);
  }

  /** ln of the logarithm's argument is 0 at maxOutput and -k at minOutput. */
  lemma LnOfArgumentAtBounds(m: Transcendentals, lo: real, hi: real, k: real)
    requires Laws(m) && lo != hi
    ensures m.ln(InverseArgument(hi, LogCurveScale(m, k), lo, hi)) == 0.0
    ensures m.ln(InverseArgument(lo, LogCurveScale(m, k), lo, hi)) == -k
  {
    LnOne(m);
    InverseArgumentAtBounds(LogCurveScale(m, k), lo, hi);
    assert m.ln(m.exp(-k)) == -k;
  }

  /** With a non-zero curve amount, getInverseLogCurve takes maxOutput to maxInput and minOutput to minInput. */
  lemma InverseLogCurveEndpoints(m: Transcendentals, minInput: real, maxInput: real,
                                 minOutput: real, maxOutput: real, curveAmt: real)
    requires Laws(m) && minOutput != maxOutput && curveAmt != 0.0
    ensures GetInverseLogCurve(m, maxOutput, minInput, maxInput, minOutput, maxOutput, curveAmt) == maxInput
    ensures GetInverseLogCurve(m, minOutput, minInput, maxInput, minOutput, maxOutput, curveAmt) == minInput
  {
    LnOfArgumentAtBounds(m, minOutput, maxOutput, curveAmt);
    ScaledLogAtBounds(curveAmt);
    PlaceAtBounds(minInput, maxInput);
  }

  /** On the input range the file's exp of the exponent lies between 1 and exp(-k) = d + 1. */
  lemma ExpOfExponentBetween(m: Transcendentals, x: real, lo: real, hi: real, k: real)
    requires Laws(m) && lo < hi && lo <= x <= hi && k != 0.0
    ensures k > 0.0 ==> LogCurveScale(m, k) + 1.0 <= Exp(m, LogCurveExponent(x, lo, hi, k)) <= 1.0
    ensures k < 0.0 ==> 1.0 <= Exp(m, LogCurveExponent(x, lo, hi, k)) <= LogCurveScale(m, k) + 1.0
  {
    ExponentBetween(x, lo, hi, k);
    var z := LogCurveExponent(x, lo, hi, k);
    if k > 0.0 {
      ExpMonotone(m, -k, z);
      ExpMonotone(m, z, 0.0);
    } else {
      ExpMonotone(m, 0.0, z);
      ExpMonotone(m, z, -k);
    }
  }

  /** getLogCurve sends [minInput, maxInput] into [minOutput, maxOutput]. */
  lemma LogCurveInRange(m: Transcendentals, x: real, minInput: real, maxInput: real,
                        minOutput: real, maxOutput: real, curveAmt: real)
    requires Laws(m) && minInput < maxInput && minOutput <= maxOutput && curveAmt != 0.0
    requires minInput <= x <= maxInput
    ensures minOutput <= GetLogCurve(m, x, minInput, maxInput, minOutput, maxOutput, curveAmt) <= maxOutput
  {
    ExpOfExponentBetween(m, x, minInput, maxInput, curveAmt);
    LogShapeInRange(Exp(m, LogCurveExponent(x, minInput, maxInput, curveAmt)), LogCurveScale(m, curveAmt),
                    minOutput, maxOutput);
  }

  /** ln maps the interval between 1 and exp(-k) onto the interval between 0 and -k. */
  lemma LnBetween(m: Transcendentals, a: real, k: real)
    requires Laws(m) && k != 0.0
    requires k > 0.0 ==> m.exp(-k) <= a <= 1.0
    requires k < 0.0 ==> 1.0 <= a <= m.exp(-k)
    ensures k > 0.0 ==> -k <= m.ln(a) <= 0.0
    ensures k < 0.0 ==> 0.0 <= m.ln(a) <= -k
  {
    LnOne(m);
    assert m.ln(m.exp(-k)) == -k;
    assert m.exp(-k) > 0.0;
    if k > 0.0 {
      LnMonotone(m, m.exp(-k), a);
      LnMonotone(m, a, 1.0);
    } else {
      LnMonotone(m, 1.0, a);
      LnMonotone(m, a, m.exp(-k));
    }
  }

  /** getInverseLogCurve sends [minOutput, maxOutput] into [minInput, maxInput]. */
  lemma InverseLogCurveInRange(m: Transcendentals, x: real, minInput: real, maxInput: real,
                               minOutput: real, maxOutput: real, curveAmt: real)
    requires Laws(m) && minInput <= maxInput && minOutput < maxOutput && curveAmt != 0.0
    requires minOutput <= x <= maxOutput
    ensures minInput <= GetInverseLogCurve(m, x, minInput, maxInput, minOutput, maxOutput, curveAmt) <= maxInput
  {
    var a := InverseArgument(x, LogCurveScale(m, curveAmt), minOutput, maxOutput);
    InverseArgumentBetween(x, LogCurveScale(m, curveAmt), minOutput, maxOutput);
    LnBetween(m, a, curveAmt);
    ScaledLogInUnit(m.ln(a), curveAmt);
    PlaceInRange(ScaledLog(m.ln(a), curveAmt), minInput, maxInput);
  }

  /** getInverseLogCurve undoes getLogCurve for every input. */
  lemma LogCurveThenInverse(m: Transcendentals, x: real, minInput: real, maxInput: real,
                            minOutput: real, maxOutput: real, curveAmt: real)
    requires Laws(m) && maxInput != minInput && minOutput != maxOutput && curveAmt != 0.0
    ensures GetInverseLogCurve(m, GetLogCurve(m, x, minInput, maxInput, minOutput, maxOutput, curveAmt),
                               minInput, maxInput, minOutput, maxOutput, curveAmt) == x
  {
    var z := LogCurveExponent(x, minInput, maxInput, curveAmt);
    InverseArgumentOfLogShape(Exp(m, z), LogCurveScale(m, curveAmt), minOutput, maxOutput);
    assert m.ln(m.exp(z)) == z;
    ScaledLogOfExponent(x, minInput, maxInput, curveAmt);
    PlacedUnitPosition(x, minInput, maxInput);
  }

  /** getLogCurve undoes getInverseLogCurve on the output range, where the logarithm's argument is positive. */
  lemma InverseThenLogCurve(m: Transcendentals, x: real, minInput: real, maxInput: real,
                            minOutput: real, maxOutput: real, curveAmt: real)
    requires Laws(m) && maxInput != minInput && minOutput < maxOutput && curveAmt != 0.0
    requires minOutput <= x <= maxOutput
    ensures GetLogCurve(m, GetInverseLogCurve(m, x, minInput, maxInput, minOutput, maxOutput, curveAmt),
                        minInput, maxInput, minOutput, maxOutput, curveAmt) == x
  {
    var a := InverseArgument(x, LogCurveScale(m, curveAmt), minOutput, maxOutput);
    InverseArgumentBetween(x, LogCurveScale(m, curveAmt), minOutput, maxOutput);
    ExponentOfScaledLog(m.ln(a), minInput, maxInput, curveAmt);
    assert m.exp(m.ln(a)) == a;
    LogShapeOfInverseArgument(x, LogCurveScale(m, curveAmt), minOutput, maxOutput);
  }

  // ---------------------------------------------------------------------
  // QuadBezierCurvedRange
  // ---------------------------------------------------------------------

  /** The control points set by the QuadBezierCurvedRange constructor. */
  function BezierPoints(min: real, max: real): (p: seq<Point>)
    ensures |p| == 3
  {
    var range := max - min;
    [Point(0.0, 0.0), Point(range, 0.0), Point(range, range)]
  }

  /** y0 - 2 y1 + y2, the coefficient of t^2 in y(t). */
  function BezierA(p: seq<Point>): real
    requires |p| == 3
  {
    p[0].y - 2.0 * p[1].y + p[2].y
  }

  /** 2 (y1 + y0), the coefficient of t in y(t). */
  function BezierB(p: seq<Point>): real
    requires |p| == 3
  {
    2.0 * (p[1].y + p[0].y)
  }

  /** y0 - yt, the constant term of y(t) - yt. */
  function BezierC(p: seq<Point>, yt: real): real
    requires |p| == 3
  {
    p[0].y - yt
  }

  /** With the constructor's points, y(t) = range * t^2. */
  lemma BezierCoefficients(min: real, max: real, yt: real)
    ensures BezierA(BezierPoints(min, max)) == max - min
    ensures BezierB(BezierPoints(min, max)) == 0.0
    ensures BezierC(BezierPoints(min, max), yt) == -yt
    ensures BezierPoints(min, max)[0].y == 0.0
  {
  }

  /** QuadBezierCurvedRange.getCurvedValue after validation. */
  function QuadBezierCurved(m: Transcendentals, min: real, max: real, value: real): real
    requires max != min
  {
    var p := BezierPoints(min, max);
    var t := UnitPosition(value, min, max);
    var y := BezierA(p) * m.pow(t, 2.0) + BezierB(p) * t + p[0].y;
    y + min
  }

  /** The Bezier curve is the square of the unit position, placed in [min, max]. */
  lemma QuadBezierCurvedIsSquare(m: Transcendentals, min: real, max: real, value: real)
    requires Laws(m) && max != min
    ensures QuadBezierCurved(m, min, max, value)
         == Place(UnitPosition(value, min, max) * UnitPosition(value, min, max), min, max)
  {
    BezierCoefficients(min, max, 0.0);
  }

  /** The root QuadBezier's inverse keeps: the first one unless it is negative. */
  function PositiveRoot(s: QuadraticResult): real {
    if s.solution1.realPart < 0.0 then s.solution2.realPart else s.solution1.realPart
  }

  /** The solutions of y(t) = yt that getLinearValue computes. */
  function BezierSolution(m: Transcendentals, min: real, max: real, yt: real): QuadraticResult
    requires max != min
  {
    var p := BezierPoints(min, max);
    BezierCoefficients(min, max, yt);
    SolveQuadratic(m, BezierA(p), BezierB(p), BezierC(p, yt))
  }

  /** QuadBezierCurvedRange.getLinearValue after validation. */
  function QuadBezierLinear(m: Transcendentals, min: real, max: real, value: real): Result<real>
    requires max != min
  {
    var solution := BezierSolution(m, min, max, value - min);
    if solution.solution1.imaginaryPart != 0.0 || solution.solution2.imaginaryPart != 0.0 then
      Err(NotReal)
    else
      Ok(min + PositiveRoot(solution) * (max - min))
  }

  /** For 0 <= yt the solutions are real and the kept root t is the non-negative solution of range * t^2 = yt. */
  lemma BezierSolutionReal(m: Transcendentals, min: real, max: real, yt: real)
    requires Laws(m) && min < max && yt >= 0.0
    ensures BezierSolution(m, min, max, yt).solution1.imaginaryPart == 0.0
    ensures BezierSolution(m, min, max, yt).solution2.imaginaryPart == 0.0
    ensures PositiveRoot(BezierSolution(m, min, max, yt)) >= 0.0
    ensures (max - min) * (PositiveRoot(BezierSolution(m, min, max, yt)) * PositiveRoot(BezierSolution(m, min, max, yt))) == yt
  {
    var p := BezierPoints(min, max);
    BezierCoefficients(min, max, yt);
    var a, b, c := BezierA(p), BezierB(p), BezierC(p, yt);
    assert Discriminant(a, b, c) == 4.0 * (max - min) * yt;
    var s := SolveQuadratic(m, a, b, c);
    if yt > 0.0 {
      SolveQuadraticDistinctRoots(m, a, b, c);
      var d := m.sqrt(Discriminant(a, b, c));
      assert d > 0.0;
      assert s.solution1.realPart == (-b + d) / (2.0 * a);
      assert s.solution1.realPart > 0.0;
      assert Quadratic(a, b, c, s.solution1.realPart) == 0.0;
    } else {
      SolveQuadraticRepeatedRoot(m, a, b, c);
      assert s.solution1.realPart == 0.0;
    }
  }

  /** For a value at or above min the inverse succeeds with min + t * range, where t >= 0 and range * t^2 = value - min. */
  lemma QuadBezierLinearRoot(m: Transcendentals, min: real, max: real, value: real) returns (t: real)
    requires Laws(m) && min < max && min <= value
    ensures t >= 0.0 && (max - min) * (t * t) == value - min
    ensures QuadBezierLinear(m, min, max, value) == Ok(min + t * (max - min))
  {
    BezierSolutionReal(m, min, max, value - min);
    t := PositiveRoot(BezierSolution(m, min, max, value - min));
  }

  lemma SquareInjective(a: real, b: real)
    requires a >= 0.0 && b >= 0.0 && a * a == b * b
    ensures a == b
  {
    if a < b { SquareStrictlyIncreasing(a, b); }
    if b < a { SquareStrictlyIncreasing(b, a); }
  }

  lemma ScaledSquareInjective(r: real, a: real, b: real)
    requires r > 0.0 && a >= 0.0 && b >= 0.0 && r * (a * a) == r * (b * b)
    ensures a == b
  {
    SquareInjective(a, b);
  }

  /** The unit position strictly increases with the value. */
  lemma UnitPositionStrictlyIncreasing(x: real, y: real, lo: real, hi: real)
    requires lo < hi && x < y
    ensures UnitPosition(x, lo, hi) < UnitPosition(y, lo, hi)
  {
    MulDiv(x - lo, hi - lo);
    MulDiv(y - lo, hi - lo);
  }

  lemma PlaceStrictlyIncreasing(s: real, w: real, lo: real, hi: real)
    requires lo < hi && s < w
    ensures Place(s, lo, hi) < Place(w, lo, hi)
  {
    MulStrictlyIncreasing(s, w, hi - lo);
  }

  /** The Bezier curve maps [min, max] into itself. */
  lemma QuadBezierCurvedInRange(m: Transcendentals, min: real, max: real, value: real)
    requires Laws(m) && min < max && min <= value <= max
    ensures min <= QuadBezierCurved(m, min, max, value) <= max
  {
    QuadBezierCurvedIsSquare(m, min, max, value);
    var u := UnitPosition(value, min, max);
    UnitPositionInUnit(value, min, max);
    MulNonNegative(u, u);
    MulNonNegative(u, 1.0 - u);
    PlaceInRange(u * u, min, max);
  }

  /** The Bezier curve fixes min and max. */
  lemma QuadBezierCurvedEndpoints(m: Transcendentals, min: real, max: real)
    requires Laws(m) && min != max
    ensures QuadBezierCurved(m, min, max, min) == min
    ensures QuadBezierCurved(m, min, max, max) == max
  {
    QuadBezierCurvedIsSquare(m, min, max, min);
    QuadBezierCurvedIsSquare(m, min, max, max);
    UnitPositionAtBounds(min, max);
    PlaceAtBounds(min, max);
  }

  /** The Bezier curve is strictly increasing on [min, max]. */
  lemma QuadBezierCurvedStrictlyIncreasing(m: Transcendentals, min: real, max: real, v: real, w: real)
    requires Laws(m) && min < max && min <= v < w <= max
    ensures QuadBezierCurved(m, min, max, v) < QuadBezierCurved(m, min, max, w)
  {
    QuadBezierCurvedIsSquare(m, min, max, v);
    QuadBezierCurvedIsSquare(m, min, max, w);
    var s, u := UnitPosition(v, min, max), UnitPosition(w, min, max);
    UnitPositionInUnit(v, min, max);
    UnitPositionStrictlyIncreasing(v, w, min, max);
    SquareStrictlyIncreasing(s, u);
    PlaceStrictlyIncreasing(s * s, u * u, min, max);
  }

  /** The inverse undoes the Bezier curve on [min, max]. */
  lemma QuadBezierCurvedThenLinear(m: Transcendentals, min: real, max: real, value: real)
    requires Laws(m) && min < max && min <= value <= max
    ensures QuadBezierLinear(m, min, max, QuadBezierCurved(m, min, max, value)) == Ok(value)
  {
    var u := UnitPosition(value, min, max);
    var c := QuadBezierCurved(m, min, max, value);
    QuadBezierCurvedIsSquare(m, min, max, value);
    QuadBezierCurvedInRange(m, min, max, value);
    var t := QuadBezierLinearRoot(m, min, max, c);
    SquareFromPlaced(value, t, min, max, c);
  }

  /** If range * t^2 = c - min for c the placed square of value's position and t >= 0, then min + t * range is value. */
  lemma SquareFromPlaced(value: real, t: real, min: real, max: real, c: real)
    requires min < max && min <= value <= max && t >= 0.0
    requires c == Place(UnitPosition(value, min, max) * UnitPosition(value, min, max), min, max)
    requires (max - min) * (t * t) == c - min
    ensures min + t * (max - min) == value
  {
    var u := UnitPosition(value, min, max);
    UnitPositionInUnit(value, min, max);
    assert (max - min) * (u * u) == c - min;
    ScaledSquareInjective(max - min, t, u);
    PlacedUnitPosition(value, min, max);
  }

  /** The Bezier curve undoes its inverse at and above min. */
  lemma QuadBezierLinearThenCurved(m: Transcendentals, min: real, max: real, value: real)
    requires Laws(m) && min < max && min <= value
    ensures QuadBezierLinear(m, min, max, value).Ok?
    ensures QuadBezierCurved(m, min, max, QuadBezierLinear(m, min, max, value).value) == value
  {
    var t := QuadBezierLinearRoot(m, min, max, value);
    var y := min + t * (max - min);
    assert y == Place(t, min, max);
    UnitPositionOfPlaced(t, min, max);
    QuadBezierCurvedIsSquare(m, min, max, y);
  }

  // ---------------------------------------------------------------------
  // Pow2CurvedRange
  // ---------------------------------------------------------------------

  /** Pow2CurvedRange.log2. */
  function Log2(m: Transcendentals, x: real): real
    requires Laws(m)
  {
    LnSign(m, 2.0);
    m.ln(x) / m.ln(2.0)
  }

  /** Pow2CurvedRange.exp2. */
  function Exp2(m: Transcendentals, x: real): real {
    m.pow(2.0, x)
  }

  lemma Log2OfExp2(m: Transcendentals, x: real)
    requires Laws(m)
    ensures Log2(m, Exp2(m, x)) == x
  {
    LogOfPow(m, 2.0, x);
  }

  lemma Exp2OfLog2(m: Transcendentals, x: real)
    requires Laws(m) && x > 0.0
    ensures Exp2(m, Log2(m, x)) == x
  {
    PowOfLog(m, 2.0, x);
  }

  /** Math.max(min, Number.MIN_VALUE), the constructor's guard against log2 of a non-positive minimum. */
  function Pow2Floor(m: Transcendentals, min: real): (f: real)
    requires Laws(m)
    ensures f > 0.0 && f >= min
    ensures min >= m.minValue ==> f == min
    ensures min < m.minValue ==> f == m.minValue
  {
    if min > m.minValue then min else m.minValue
  }

  /** The constructor's logMin. */
  function Pow2LogMin(m: Transcendentals, min: real): real
    requires Laws(m)
  {
    Log2(m, Pow2Floor(m, min))
  }

  /** The constructor's logMax, the base-2 logarithm of the range (so not of max). */
  function Pow2LogMax(m: Transcendentals, min: real, max: real): real
    requires Laws(m)
  {
    Log2(m, max - min)
  }

  /** The exponent getCurvedValue passes to exp2: t * logRange + logMin. */
  function Pow2Exponent(t: real, logMin: real, logMax: real): real {
    t * (logMax - logMin) + logMin
  }

  /** The position getLinearValue computes: (l - logMin) / logRange. */
  function Pow2Position(l: real, logMin: real, logMax: real): real
    requires logMax != logMin
  {
    (l - logMin) / (logMax - logMin)
  }

  lemma Pow2PositionOfExponent(t: real, logMin: real, logMax: real)
    requires logMax != logMin
    ensures Pow2Position(Pow2Exponent(t, logMin, logMax), logMin, logMax) == t
  {
    DivOfProduct(t * (logMax - logMin), logMax - logMin, t);
  }

  lemma Pow2ExponentOfPosition(l: real, logMin: real, logMax: real)
    requires logMax != logMin
    ensures Pow2Exponent(Pow2Position(l, logMin, logMax), logMin, logMax) == l
  {
    MulDiv(l - logMin, logMax - logMin);
  }

  lemma Pow2ExponentAtBounds(logMin: real, logMax: real)
    ensures Pow2Exponent(0.0, logMin, logMax) == logMin
    ensures Pow2Exponent(1.0, logMin, logMax) == logMax
  {
  }

  /** Pow2CurvedRange.getCurvedValue after validation, for a given logMax. */
  function Pow2Curved(m: Transcendentals, min: real, max: real, logMax: real, value: real): real
    requires Laws(m) && max != min
  {
    Exp2(m, Pow2Exponent(UnitPosition(value, min, max), Pow2LogMin(m, min), logMax))
  }

  /** Pow2CurvedRange.getLinearValue after validation, for a given logMax. */
  function Pow2Linear(m: Transcendentals, min: real, max: real, logMax: real, value: real): real
    requires Laws(m) && logMax != Pow2LogMin(m, min)
  {
    Place(Pow2Position(Log2(m, value), Pow2LogMin(m, min), logMax), min, max)
  }

  /** exp2 of logMin and of log2(x) for x > 0: the curve's value at min is the floored min, at max it is x. */
  lemma Pow2CurvedEndpoints(m: Transcendentals, min: real, max: real, x: real)
    requires Laws(m) && max != min && x > 0.0
    ensures Pow2Curved(m, min, max, Log2(m, x), min) == Pow2Floor(m, min)
    ensures Pow2Curved(m, min, max, Log2(m, x), max) == x
  {
    UnitPositionAtBounds(min, max);
    Pow2ExponentAtBounds(Pow2LogMin(m, min), Log2(m, x));
    Exp2OfLog2(m, Pow2Floor(m, min));
    Exp2OfLog2(m, x);
  }

  /** As written, the curve sends max to max - min, not to max. */
  lemma Pow2CurvedAsWrittenAtMax(m: Transcendentals, min: real, max: real)
    requires Laws(m) && min < max
    ensures Pow2Curved(m, min, max, Pow2LogMax(m, min, max), min) == Pow2Floor(m, min)
    ensures Pow2Curved(m, min, max, Pow2LogMax(m, min, max), max) == max - min
  {
    Pow2CurvedEndpoints(m, min, max, max - min);
  }

  /** On the range [1, 100] the curve as written reaches 99 at the top, which lies inside the range it should end at. */
  lemma Pow2CurvedAsWrittenExample(m: Transcendentals)
    requires Laws(m)
    ensures Pow2Curved(m, 1.0, 100.0, Pow2LogMax(m, 1.0, 100.0), 100.0) == 99.0
    ensures Pow2Floor(m, 1.0) == 1.0
  {
    Pow2CurvedAsWrittenAtMax(m, 1.0, 100.0);
  }

  /** The corrected logMax, log2(max). */
  function Pow2LogMaxCorrected(m: Transcendentals, max: real): real
    requires Laws(m)
  {
    Log2(m, max)
  }

  /**
   * With logMax = log2(max) the curve sends min to the floored min and max to
   * max, so it fixes both ends of a range at or above Number.MIN_VALUE.
   */
  lemma Pow2CurvedCorrectedEndpoints(m: Transcendentals, min: real, max: real)
    requires Laws(m) && min < max && max > 0.0
    ensures Pow2Curved(m, min, max, Pow2LogMaxCorrected(m, max), min) == Pow2Floor(m, min)
    ensures Pow2Curved(m, min, max, Pow2LogMaxCorrected(m, max), max) == max
    ensures m.minValue <= min ==> Pow2Curved(m, min, max, Pow2LogMaxCorrected(m, max), min) == min
  {
    Pow2CurvedEndpoints(m, min, max, max);
  }

  /**
   * When max lies above Number.MIN_VALUE, logMin = log2(Math.max(min,
   * Number.MIN_VALUE)) lies below the corrected logMax = log2(max).
   */
  lemma Pow2CorrectedLogsOrdered(m: Transcendentals, min: real, max: real)
    requires Laws(m) && min < max && m.minValue < max
    ensures m.minValue <= min ==> Pow2LogMin(m, min) == Log2(m, min)
    ensures Pow2LogMin(m, min) < Pow2LogMaxCorrected(m, max)
  {
    var f := Pow2Floor(m, min);
    LnSign(m, 2.0);
    LnStrictlyIncreasing(m, f, max);
    DivStrictlyIncreasing(m.ln(f), m.ln(max), m.ln(2.0));
  }

  /** With logMax = log2(max) the curve is strictly increasing on [min, max]. */
  lemma Pow2CurvedCorrectedStrictlyIncreasing(m: Transcendentals, min: real, max: real, v: real, w: real)
    requires Laws(m) && min < max && m.minValue < max && min <= v < w <= max
    ensures Pow2Curved(m, min, max, Pow2LogMaxCorrected(m, max), v)
          < Pow2Curved(m, min, max, Pow2LogMaxCorrected(m, max), w)
  {
    var lo, hi := Pow2LogMin(m, min), Pow2LogMaxCorrected(m, max);
    Pow2CorrectedLogsOrdered(m, min, max);
    UnitPositionStrictlyIncreasing(v, w, min, max);
    var s, u := UnitPosition(v, min, max), UnitPosition(w, min, max);
    MulStrictlyIncreasing(s, u, hi - lo);
    PowStrictlyIncreasing(m, 2.0, Pow2Exponent(s, lo, hi), Pow2Exponent(u, lo, hi));
  }

  /** With logMax = log2(max) the curve maps [min, max] into [Math.max(min, Number.MIN_VALUE), max]. */
  lemma Pow2CurvedCorrectedInRange(m: Transcendentals, min: real, max: real, v: real)
    requires Laws(m) && min < max && m.minValue < max && min <= v <= max
    ensures min <= Pow2Floor(m, min) <= Pow2Curved(m, min, max, Pow2LogMaxCorrected(m, max), v) <= max
  {
    var lo, hi := Pow2LogMin(m, min), Pow2LogMaxCorrected(m, max);
    Pow2CorrectedLogsOrdered(m, min, max);
    UnitPositionInUnit(v, min, max);
    var s := UnitPosition(v, min, max);
    MulNonNegative(s, hi - lo);
    MulNonNegative(1.0 - s, hi - lo);
    PowMonotone(m, 2.0, lo, Pow2Exponent(s, lo, hi));
    PowMonotone(m, 2.0, Pow2Exponent(s, lo, hi), hi);
    Exp2OfLog2(m, Pow2Floor(m, min));
    Exp2OfLog2(m, max);
  }

  /** With logMax = log2(max), getLinearValue maps [Math.max(min, Number.MIN_VALUE), max] into [min, max]. */
  lemma Pow2LinearCorrectedInRange(m: Transcendentals, min: real, max: real, w: real)
    requires Laws(m) && min < max && m.minValue < max && Pow2Floor(m, min) <= w <= max
    ensures Pow2LogMaxCorrected(m, max) != Pow2LogMin(m, min)
    ensures min <= Pow2Linear(m, min, max, Pow2LogMaxCorrected(m, max), w) <= max
  {
    var f := Pow2Floor(m, min);
    var lo, hi := Pow2LogMin(m, min), Pow2LogMaxCorrected(m, max);
    Pow2CorrectedLogsOrdered(m, min, max);
    LnSign(m, 2.0);
    LnMonotone(m, f, w);
    LnMonotone(m, w, max);
    DivMonotone(m.ln(f), m.ln(w), m.ln(2.0));
    DivMonotone(m.ln(w), m.ln(max), m.ln(2.0));
    RatioInUnit(Log2(m, w) - lo, hi - lo);
    PlaceInRange(Pow2Position(Log2(m, w), lo, hi), min, max);
  }

  /** getLinearValue undoes getCurvedValue for any logMax other than logMin. */
  lemma Pow2CurvedThenLinear(m: Transcendentals, min: real, max: real, logMax: real, value: real)
    requires Laws(m) && max != min && logMax != Pow2LogMin(m, min)
    ensures Pow2Linear(m, min, max, logMax, Pow2Curved(m, min, max, logMax, value)) == value
  {
    var e := Pow2Exponent(UnitPosition(value, min, max), Pow2LogMin(m, min), logMax);
    Log2OfExp2(m, e);
    Pow2PositionOfExponent(UnitPosition(value, min, max), Pow2LogMin(m, min), logMax);
    PlacedUnitPosition(value, min, max);
  }

  /** getCurvedValue undoes getLinearValue on positive values, for any logMax other than logMin. */
  lemma Pow2LinearThenCurved(m: Transcendentals, min: real, max: real, logMax: real, value: real)
    requires Laws(m) && max != min && logMax != Pow2LogMin(m, min) && value > 0.0
    ensures Pow2Curved(m, min, max, logMax, Pow2Linear(m, min, max, logMax, value)) == value
  {
    var t := Pow2Position(Log2(m, value), Pow2LogMin(m, min), logMax);
    UnitPositionOfPlaced(t, min, max);
    Pow2ExponentOfPosition(Log2(m, value), Pow2LogMin(m, min), logMax);
    Exp2OfLog2(m, value);
  }

  // ---------------------------------------------------------------------
  // The accessors
  // ---------------------------------------------------------------------

  /** getCurvedValue of each variant: validate, then map linear to curved. */
  function GetCurvedValue(m: Transcendentals, r: CurvedRange, value: real): (res: Result<real>)
    requires Laws(m) && WellDefined(r)
    ensures res.Ok? <==> r.min <= value <= r.max
    ensures res.Err? ==> res.error == ValidateInput(r.min, r.max, value).error
  {
    match ValidateInput(r.min, r.max, value)
    case Fail(e) => Err(e)
    case Pass =>
      match r
      case LinearCurvedRange(_, _) => Ok(value)
      case LogCurvedRange(min, max, k) => Ok(GetLogCurve(m, value, min, max, min, max, k))
      case InverseLogCurvedRange(min, max, k) => Ok(GetInverseLogCurve(m, value, min, max, min, max, k))
      case QuadBezierCurvedRange(min, max) => Ok(QuadBezierCurved(m, min, max, value))
      case Pow2CurvedRange(min, max) => Ok(Pow2Curved(m, min, max, Pow2LogMax(m, min, max), value))
  }

  /** The linear range validates and hands the value back unchanged, in both directions, even on an empty range. */
  lemma LinearIsIdentity(m: Transcendentals, min: real, max: real, value: real)
    requires Laws(m)
    ensures min <= value <= max ==> GetCurvedValue(m, LinearCurvedRange(min, max), value) == Ok(value)
    ensures min <= value <= max ==> GetLinearValue(m, LinearCurvedRange(min, max), value) == Ok(value)
    ensures !(min <= value <= max) ==> GetCurvedValue(m, LinearCurvedRange(min, max), value).Err?
    ensures !(min <= value <= max) ==> GetLinearValue(m, LinearCurvedRange(min, max), value).Err?
  {
  }

  /** What getLinearValue needs beyond WellDefined: the Pow2 variant divides by logRange. */
  predicate LinearValueDefined(m: Transcendentals, r: CurvedRange)
    requires Laws(m)
  {
    WellDefined(r) && (r.Pow2CurvedRange? ==> Pow2LogMax(m, r.min, r.max) != Pow2LogMin(m, r.min))
  }

  /** getLinearValue of each variant: validate, then map curved back to linear. */
  function GetLinearValue(m: Transcendentals, r: CurvedRange, value: real): (res: Result<real>)
    requires Laws(m) && LinearValueDefined(m, r)
    ensures res.Ok? <==> r.min <= value <= r.max
    ensures res.Err? ==> res.error == ValidateInput(r.min, r.max, value).error
  {
    match ValidateInput(r.min, r.max, value)
    case Fail(e) => Err(e)
    case Pass =>
      match r
      case LinearCurvedRange(_, _) => Ok(value)
      case LogCurvedRange(min, max, k) => Ok(GetInverseLogCurve(m, value, min, max, min, max, k))
      case InverseLogCurvedRange(min, max, k) => Ok(GetLogCurve(m, value, min, max, min, max, k))
      case QuadBezierCurvedRange(min, max) =>
        BezierSolutionReal(m, min, max, value - min);
        QuadBezierLinear(m, min, max, value)
      case Pow2CurvedRange(min, max) => Ok(Pow2Linear(m, min, max, Pow2LogMax(m, min, max), value))
  }

  /** As written, Pow2CurvedRange.getCurvedValue sends min to the floored min and max to max - min. */
  lemma Pow2AccessorEndpoints(m: Transcendentals, min: real, max: real)
    requires Laws(m) && min < max
    ensures GetCurvedValue(m, Pow2CurvedRange(min, max), min) == Ok(Pow2Floor(m, min))
    ensures GetCurvedValue(m, Pow2CurvedRange(min, max), max) == Ok(max - min)
  {
    Pow2CurvedAsWrittenAtMax(m, min, max);
  }

  /**
   * The accessors as written.  getCurvedValue maps [min, max] into itself for
   * every variant but Pow2, and getLinearValue takes back every curved value
   * that passes its validation: for those variants always, for Pow2 only
   * when max - min, where the curve ends, does not fall below min.
   */
  lemma CurvedThenLinear(m: Transcendentals, r: CurvedRange, value: real)
    requires Laws(m) && LinearValueDefined(m, r) && r.min < r.max && r.min <= value <= r.max
    ensures GetCurvedValue(m, r, value).Ok?
    ensures !r.Pow2CurvedRange? ==> r.min <= GetCurvedValue(m, r, value).value <= r.max
    ensures r.min <= GetCurvedValue(m, r, value).value <= r.max ==>
              GetLinearValue(m, r, GetCurvedValue(m, r, value).value) == Ok(value)
  {
    match r
    case LinearCurvedRange(_, _) =>
    case LogCurvedRange(min, max, k) =>
      LogCurveInRange(m, value, min, max, min, max, k);
      LogCurveThenInverse(m, value, min, max, min, max, k);
    case InverseLogCurvedRange(min, max, k) =>
      InverseLogCurveInRange(m, value, min, max, min, max, k);
      InverseThenLogCurve(m, value, min, max, min, max, k);
    case QuadBezierCurvedRange(min, max) =>
      QuadBezierCurvedInRange(m, min, max, value);
      QuadBezierCurvedThenLinear(m, min, max, value);
    case Pow2CurvedRange(min, max) =>
      Pow2CurvedThenLinear(m, min, max, Pow2LogMax(m, min, max), value);
  }

  /**
   * The accessors as written, the other way round.  getLinearValue maps
   * [min, max] into itself for every variant but Pow2, and getCurvedValue
   * takes back every linear value that passes its validation (for Pow2, of a
   * positive input: log2 of anything else is not a real number).
   */
  lemma LinearThenCurved(m: Transcendentals, r: CurvedRange, value: real)
    requires Laws(m) && LinearValueDefined(m, r) && r.min < r.max && r.min <= value <= r.max
    ensures GetLinearValue(m, r, value).Ok?
    ensures !r.Pow2CurvedRange? ==> r.min <= GetLinearValue(m, r, value).value <= r.max
    ensures (r.Pow2CurvedRange? ==> value > 0.0) && r.min <= GetLinearValue(m, r, value).value <= r.max ==>
              GetCurvedValue(m, r, GetLinearValue(m, r, value).value) == Ok(value)
  {
    match r
    case LinearCurvedRange(_, _) =>
    case LogCurvedRange(min, max, k) =>
      InverseLogCurveInRange(m, value, min, max, min, max, k);
      InverseThenLogCurve(m, value, min, max, min, max, k);
    case InverseLogCurvedRange(min, max, k) =>
      LogCurveInRange(m, value, min, max, min, max, k);
      LogCurveThenInverse(m, value, min, max, min, max, k);
    case QuadBezierCurvedRange(min, max) =>
      QuadBezierLinearInRange(m, min, max, value);
      QuadBezierLinearThenCurved(m, min, max, value);
    case Pow2CurvedRange(min, max) =>
      if value > 0.0 {
        Pow2LinearThenCurved(m, min, max, Pow2LogMax(m, min, max), value);
      }
  }

  /** As written, Pow2CurvedRange(60, 100) sends 100 to 40, which its own getLinearValue rejects. */
  lemma Pow2RoundTripAsWrittenFails(m: Transcendentals)
    requires Laws(m)
    ensures GetCurvedValue(m, Pow2CurvedRange(60.0, 100.0), 100.0) == Ok(40.0)
    ensures LinearValueDefined(m, Pow2CurvedRange(60.0, 100.0))
    ensures GetLinearValue(m, Pow2CurvedRange(60.0, 100.0), 40.0) == Err(BelowMin(40.0, 60.0))
  {
    Pow2AccessorEndpoints(m, 60.0, 100.0);
    LnSign(m, 2.0);
    LnStrictlyIncreasing(m, 40.0, 60.0);
    DivStrictlyIncreasing(m.ln(40.0), m.ln(60.0), m.ln(2.0));
  }

  /** As written, Pow2CurvedRange(1, 100).getLinearValue(100) lies above 100, so getCurvedValue rejects it. */
  lemma Pow2LinearAsWrittenExample(m: Transcendentals)
    requires Laws(m)
    ensures LinearValueDefined(m, Pow2CurvedRange(1.0, 100.0))
    ensures GetLinearValue(m, Pow2CurvedRange(1.0, 100.0), 100.0).Ok?
    ensures GetLinearValue(m, Pow2CurvedRange(1.0, 100.0), 100.0).value > 100.0
    ensures GetCurvedValue(m, Pow2CurvedRange(1.0, 100.0), GetLinearValue(m, Pow2CurvedRange(1.0, 100.0), 100.0).value).Err?
  {
    LnOne(m);
    LnSign(m, 2.0);
    LnSign(m, 99.0);
    LnStrictlyIncreasing(m, 99.0, 100.0);
    var l99, l100 := Log2(m, 99.0), Log2(m, 100.0);
    assert Pow2LogMin(m, 1.0) == 0.0 by { assert Pow2Floor(m, 1.0) == 1.0; }
    assert 0.0 < l99 < l100 by {
      DivStrictlyIncreasing(0.0, m.ln(99.0), m.ln(2.0));
      DivStrictlyIncreasing(m.ln(99.0), m.ln(100.0), m.ln(2.0));
    }
    var t := Pow2Position(l100, 0.0, l99);
    assert t > 1.0 by {
      DivSelf(l99);
      DivStrictlyIncreasing(l99, l100, l99);
    }
    PlaceAtBounds(1.0, 100.0);
    PlaceStrictlyIncreasing(1.0, t, 1.0, 100.0);
  }

  // ---------------------------------------------------------------------
  // The accessors with the corrected Pow2 logMax
  // ---------------------------------------------------------------------

  /** getCurvedValue with Pow2's logMax corrected to log2(max); every other variant as written. */
  function GetCurvedValueCorrected(m: Transcendentals, r: CurvedRange, value: real): (res: Result<real>)
    requires Laws(m) && WellDefined(r)
    ensures res.Ok? <==> r.min <= value <= r.max
    ensures res.Err? ==> res.error == ValidateInput(r.min, r.max, value).error
    ensures !r.Pow2CurvedRange? ==> res == GetCurvedValue(m, r, value)
  {
    if !r.Pow2CurvedRange? then GetCurvedValue(m, r, value)
    else
      match ValidateInput(r.min, r.max, value)
      case Fail(e) => Err(e)
      case Pass => Ok(Pow2Curved(m, r.min, r.max, Pow2LogMaxCorrected(m, r.max), value))
  }

  /** What the corrected getLinearValue needs beyond WellDefined. */
  predicate LinearValueDefinedCorrected(m: Transcendentals, r: CurvedRange)
    requires Laws(m)
  {
    WellDefined(r) && (r.Pow2CurvedRange? ==> Pow2LogMaxCorrected(m, r.max) != Pow2LogMin(m, r.min))
  }

  /** getLinearValue with Pow2's logMax corrected to log2(max); every other variant as written. */
  function GetLinearValueCorrected(m: Transcendentals, r: CurvedRange, value: real): (res: Result<real>)
    requires Laws(m) && LinearValueDefinedCorrected(m, r)
    ensures res.Ok? <==> r.min <= value <= r.max
    ensures res.Err? ==> res.error == ValidateInput(r.min, r.max, value).error
    ensures !r.Pow2CurvedRange? ==> res == GetLinearValue(m, r, value)
  {
    if !r.Pow2CurvedRange? then GetLinearValue(m, r, value)
    else
      match ValidateInput(r.min, r.max, value)
      case Fail(e) => Err(e)
      case Pass => Ok(Pow2Linear(m, r.min, r.max, Pow2LogMaxCorrected(m, r.max), value))
  }

  /**
   * The ranges on which the corrected accessors invert each other: increasing
   * bounds and, for Pow2, a maximum above Number.MIN_VALUE.
   */
  predicate Invertible(m: Transcendentals, r: CurvedRange)
    requires Laws(m)
  {
    && WellDefined(r)
    && r.min < r.max
    && (r.Pow2CurvedRange? ==> m.minValue < r.max)
  }

  lemma InvertibleIsDefined(m: Transcendentals, r: CurvedRange)
    requires Laws(m) && Invertible(m, r)
    ensures LinearValueDefined(m, r) || r.Pow2CurvedRange?
    ensures LinearValueDefinedCorrected(m, r)
  {
    if r.Pow2CurvedRange? { Pow2CorrectedLogsOrdered(m, r.min, r.max); }
  }

  /** With the corrected Pow2, getCurvedValue maps [min, max] into itself and getLinearValue takes its result back. */
  lemma CurvedThenLinearCorrected(m: Transcendentals, r: CurvedRange, value: real)
    requires Laws(m) && Invertible(m, r) && r.min <= value <= r.max
    ensures LinearValueDefinedCorrected(m, r)
    ensures GetCurvedValueCorrected(m, r, value).Ok?
    ensures r.min <= GetCurvedValueCorrected(m, r, value).value <= r.max
    ensures GetLinearValueCorrected(m, r, GetCurvedValueCorrected(m, r, value).value) == Ok(value)
  {
    InvertibleIsDefined(m, r);
    if r.Pow2CurvedRange? {
      Pow2CurvedCorrectedInRange(m, r.min, r.max, value);
      Pow2CurvedThenLinear(m, r.min, r.max, Pow2LogMaxCorrected(m, r.max), value);
    } else {
      CurvedThenLinear(m, r, value);
    }
  }

  /**
   * With the corrected Pow2, getLinearValue maps [min, max] into itself and
   * getCurvedValue takes its result back; for Pow2 from Math.max(min,
   * Number.MIN_VALUE) up, since the curve never reaches below that.
   */
  lemma LinearThenCurvedCorrected(m: Transcendentals, r: CurvedRange, value: real)
    requires Laws(m) && Invertible(m, r) && r.min <= value <= r.max
    requires r.Pow2CurvedRange? ==> Pow2Floor(m, r.min) <= value
    ensures LinearValueDefinedCorrected(m, r)
    ensures GetLinearValueCorrected(m, r, value).Ok?
    ensures r.min <= GetLinearValueCorrected(m, r, value).value <= r.max
    ensures GetCurvedValueCorrected(m, r, GetLinearValueCorrected(m, r, value).value) == Ok(value)
  {
    InvertibleIsDefined(m, r);
    if r.Pow2CurvedRange? {
      Pow2LinearCorrectedInRange(m, r.min, r.max, value);
      Pow2LinearThenCurved(m, r.min, r.max, Pow2LogMaxCorrected(m, r.max), value);
    } else {
      LinearThenCurved(m, r, value);
    }
  }

  /** The Bezier inverse maps [min, max] into itself. */
  lemma QuadBezierLinearInRange(m: Transcendentals, min: real, max: real, value: real)
    requires Laws(m) && min < max && min <= value <= max
    ensures QuadBezierLinear(m, min, max, value).Ok?
    ensures min <= QuadBezierLinear(m, min, max, value).value <= max
  {
    var t := QuadBezierLinearRoot(m, min, max, value);
    PlacedRootInRange(min, max, value, t);
  }

  /** min + t * range stays in [min, max] when range * t^2 = value - min for a value in [min, max]. */
  lemma PlacedRootInRange(min: real, max: real, value: real, t: real)
    requires min < max && min <= value <= max && t >= 0.0 && (max - min) * (t * t) == value - min
    ensures min <= min + t * (max - min) <= max
  {
    MulNonNegative(t, max - min);
    if t > 1.0 {
      SquareStrictlyIncreasing(1.0, t);
      MulStrictlyIncreasing(1.0, t * t, max - min);
    }
  }

  /** Pow2CurvedRange(1, 100).getCurvedValue(100) is 99 as written and 100 with the corrected logMax. */
  lemma Pow2AccessorAsWritten(m: Transcendentals)
    requires Laws(m)
    ensures GetCurvedValue(m, Pow2CurvedRange(1.0, 100.0), 100.0) == Ok(99.0)
    ensures GetCurvedValueCorrected(m, Pow2CurvedRange(1.0, 100.0), 100.0) == Ok(100.0)
  {
    Pow2AccessorEndpoints(m, 1.0, 100.0);
    Pow2CurvedCorrectedEndpoints(m, 1.0, 100.0);
  }
}

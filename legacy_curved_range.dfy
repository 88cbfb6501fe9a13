/**
 * The older curve engine of src/util/curved-range.ts: the base class, whose
 * accessors only throw, and its single linear subclass.  The range check is
 * the same as in the current engine and is reused from it.
 */
module LegacyCurvedRanges {
  import Numerics
  import CurvedRanges

  datatype LegacyRange =
    | BaseCurvedRange(min: real, max: real)
    | LinearCurvedRange(min: real, max: real)

  /** getCurvedValue: the base class always throws; the linear range validates and returns its input. */
  function GetCurvedValue(r: LegacyRange, value: real): (res: CurvedRanges.Result<real>)
    ensures r.BaseCurvedRange? ==> res == CurvedRanges.Err(CurvedRanges.CurvedNotOverridden)
    ensures r.LinearCurvedRange? ==>
      (res.Ok? <==> r.min <= value <= r.max) &&
      (res.Ok? ==> res.value == value) &&
      (res.Err? ==> res.error == CurvedRanges.ValidateInput(r.min, r.max, value).error)
  {
    match r
    case BaseCurvedRange(_, _) => CurvedRanges.Err(CurvedRanges.CurvedNotOverridden)
    case LinearCurvedRange(min, max) =>
      match CurvedRanges.ValidateInput(min, max, value)
      case Fail(e) => CurvedRanges.Err(e)
      case Pass => CurvedRanges.Ok(value)
  }

  /** getLinearValue: the base class always throws; the linear range validates and returns its input. */
  function GetLinearValue(r: LegacyRange, value: real): (res: CurvedRanges.Result<real>)
    ensures r.BaseCurvedRange? ==> res == CurvedRanges.Err(CurvedRanges.LinearNotOverridden)
    ensures r.LinearCurvedRange? ==>
      (res.Ok? <==> r.min <= value <= r.max) &&
      (res.Ok? ==> res.value == value) &&
      (res.Err? ==> res.error == CurvedRanges.ValidateInput(r.min, r.max, value).error)
  {
    match r
    case BaseCurvedRange(_, _) => CurvedRanges.Err(CurvedRanges.LinearNotOverridden)
    case LinearCurvedRange(min, max) =>
      match CurvedRanges.ValidateInput(min, max, value)
      case Fail(e) => CurvedRanges.Err(e)
      case Pass => CurvedRanges.Ok(value)
  }

  /** The older linear range behaves exactly as the current one, in both directions. */
  lemma LegacyLinearAgreesWithCurrent(m: Numerics.Transcendentals, min: real, max: real, value: real)
    requires Numerics.Laws(m)
    ensures GetCurvedValue(LinearCurvedRange(min, max), value)
         == CurvedRanges.GetCurvedValue(m, CurvedRanges.LinearCurvedRange(min, max), value)
    ensures GetLinearValue(LinearCurvedRange(min, max), value)
         == CurvedRanges.GetLinearValue(m, CurvedRanges.LinearCurvedRange(min, max), value)
  {
  }

  /** On the older linear range the two accessors are inverse to each other on [min, max]. */
  lemma LegacyLinearRoundTrip(min: real, max: real, value: real)
    requires min <= value <= max
    ensures GetLinearValue(LinearCurvedRange(min, max), GetCurvedValue(LinearCurvedRange(min, max), value).value) == CurvedRanges.Ok(value)
    ensures GetCurvedValue(LinearCurvedRange(min, max), GetLinearValue(LinearCurvedRange(min, max), value).value) == CurvedRanges.Ok(value)
  {
  }
}

/**
 The numeric readings a dashboard receives. A payload is turned into a number by
 JavaScript's `parseFloat`, which never fails: text that is not a number becomes
 NaN and an overflowing literal becomes an infinity. The model keeps those cases
 (rounding of finite values is not modelled) so that comparisons behave as they
 do in JavaScript: every comparison with NaN is false.
 */
module Numbers {

  datatype Number = Finite(x: real) | PosInf | NegInf | NaN

  /** JavaScript's `v >= bound` for a finite bound. */
  predicate AtLeast(v: Number, bound: real)
  {
    match v
    case Finite(x) => x >= bound
    case PosInf => true
    case NegInf => false
    case NaN => false
  }

  /** JavaScript's `v <= bound` for a finite bound. */
  predicate AtMost(v: Number, bound: real)
  {
    match v
    case Finite(x) => x <= bound
    case PosInf => false
    case NegInf => true
    case NaN => false
  }

  /** `v >= lo && v <= hi`: true exactly for the finite readings inside the closed range. */
  function Within(v: Number, lo: real, hi: real): (ok: bool)
    ensures ok <==> v.Finite? && lo <= v.x <= hi
  {
    AtLeast(v, lo) && AtMost(v, hi)
  }
}

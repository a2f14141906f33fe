/** Sample values as the query engine sees a float64: NaN, a signed infinity, or a
    finite value. Finite values are exact reals: rounding, overflow of finite sums and
    the sign of zero are not represented. */
module Floats {

  datatype Float = NaN | Inf(positive: bool) | Num(v: real)

  /** IEEE addition: NaN absorbs, opposite infinities give NaN, an infinity absorbs a
      finite value. */
  function Add(a: Float, b: Float): Float
  {
    match (a, b)
    case (NaN, _) => NaN
    case (_, NaN) => NaN
    case (Inf(p), Inf(q)) => if p == q then a else NaN
    case (Inf(_), Num(_)) => a
    case (Num(_), Inf(_)) => b
    case (Num(x), Num(y)) => Num(x + y)
  }

  function Neg(a: Float): Float
  {
    match a
    case NaN => NaN
    case Inf(p) => Inf(!p)
    case Num(x) => Num(-x)
  }

  function Sub(a: Float, b: Float): Float
  {
    Add(a, Neg(b))
  }

  /** Division by a positive count, as the averaging code divides by series counts. */
  function DivBy(a: Float, c: real): Float
    requires c > 0.0
  {
    match a
    case NaN => NaN
    case Inf(_) => a
    case Num(x) => Num(x / c)
  }

  /** Go's `<` on float64: false whenever NaN is involved. */
  predicate Less(a: Float, b: Float)
  {
    match (a, b)
    case (NaN, _) => false
    case (_, NaN) => false
    case (Inf(p), Inf(q)) => !p && q
    case (Inf(p), Num(_)) => !p
    case (Num(_), Inf(q)) => q
    case (Num(x), Num(y)) => x < y
  }

  /** Go's `math.Max`: +Inf wins even over NaN, otherwise NaN wins. */
  function GoMax(x: Float, y: Float): Float
  {
    if x == Inf(true) || y == Inf(true) then Inf(true)
    else if x.NaN? || y.NaN? then NaN
    else if Less(y, x) then x
    else y
  }

  /** Go's `math.Min`: -Inf wins even over NaN, otherwise NaN wins. */
  function GoMin(x: Float, y: Float): Float
  {
    if x == Inf(false) || y == Inf(false) then Inf(false)
    else if x.NaN? || y.NaN? then NaN
    else if Less(x, y) then x
    else y
  }

  /** `<=` on the values that are not NaN. */
  predicate AtMost(a: Float, b: Float)
  {
    !a.NaN? && !b.NaN? && !Less(b, a)
  }

  lemma LessTransitive(a: Float, b: Float, c: Float)
    requires Less(a, b) && Less(b, c)
    ensures Less(a, c)
  {
  }

  lemma LessTotal(a: Float, b: Float)
    requires !a.NaN? && !b.NaN?
    ensures Less(a, b) || a == b || Less(b, a)
  {
  }
}

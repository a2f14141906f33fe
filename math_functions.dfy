/** The small per-series functions: sgn, unary negation (in place over a series'
    points) and clamp (in place, bounded by two scalar series). */
module MathFunctions {
  import opened Floats
  import opened Series

  /** sgn: -1 for a negative value, 1 for a positive one, and the value itself
      otherwise (zero, and NaN). */
  function Sgn(f: Float): Float
  {
    if Less(f, Num(0.0)) then Num(-1.0)
    else if Less(Num(0.0), f) then Num(1.0)
    else f
  }

  /** The sign of every value: -1, 0 or 1, infinities included; NaN stays NaN. */
  lemma SgnIsSign(f: Float)
    ensures f.NaN? ==> Sgn(f).NaN?
    ensures f.Inf? ==> Sgn(f) == Num(if f.positive then 1.0 else -1.0)
    ensures f.Num? ==> Sgn(f) == Num(if f.v < 0.0 then -1.0 else if f.v > 0.0 then 1.0 else 0.0)
  {
  }

  /** sgn is odd and idempotent. */
  lemma SgnOdd(f: Float)
    ensures Sgn(Neg(f)) == Neg(Sgn(f))
    ensures Sgn(Sgn(f)) == Sgn(f)
  {
  }

  // ----- Unary negation -----

  /** Every float point negated, timestamps kept. */
  function Negated(ps: seq<FPoint>): (r: seq<FPoint>)
    ensures |r| == |ps|
  {
    seq(|ps|, i requires 0 <= i < |ps| => Point(ps[i].t, Neg(ps[i].v)))
  }

  /** Every histogram point multiplied by -1, timestamps kept. */
  function NegatedHistograms(ps: seq<HPoint>, mul: (Histogram, real) -> Histogram): (r: seq<HPoint>)
    ensures |r| == |ps|
  {
    seq(|ps|, i requires 0 <= i < |ps| => Point(ps[i].t, mul(ps[i].v, -1.0)))
  }

  /** Negating twice gives the series back, and negation keeps every timestamp. */
  lemma NegatedInvolution(ps: seq<FPoint>)
    ensures Negated(Negated(ps)) == ps
    ensures forall i :: 0 <= i < |ps| ==> Negated(ps)[i].t == ps[i].t
  {
    forall i | 0 <= i < |ps|
      ensures Negated(Negated(ps))[i] == ps[i]
    {
      assert Neg(Neg(ps[i].v)) == ps[i].v;
    }
  }

  /** UnaryNegationFunction.Func: negates the series' floats and multiplies its
      histograms by -1, in place, and hands back the same series. */
  method UnaryNegation(floats: array<FPoint>, histograms: array<HPoint>, mul: (Histogram, real) -> Histogram)
    returns (outFloats: array<FPoint>, outHistograms: array<HPoint>)
    modifies floats, histograms
    ensures outFloats == floats && outHistograms == histograms
    ensures floats[..] == Negated(old(floats[..]))
    ensures histograms[..] == NegatedHistograms(old(histograms[..]), mul)
  {
    ghost var fs, hs := floats[..], histograms[..];
    for i := 0 to floats.Length
      invariant forall j :: 0 <= j < i ==> floats[j] == Point(fs[j].t, Neg(fs[j].v))
      invariant forall j :: i <= j < floats.Length ==> floats[j] == fs[j]
      invariant histograms[..] == hs
    {
      floats[i] := floats[i].(v := Neg(floats[i].v));
    }
    for i := 0 to histograms.Length
      invariant forall j :: 0 <= j < i ==> histograms[j] == Point(hs[j].t, mul(hs[j].v, -1.0))
      invariant forall j :: i <= j < histograms.Length ==> histograms[j] == hs[j]
      invariant floats[..] == Negated(fs)
    {
      histograms[i] := histograms[i].(v := mul(histograms[i].v, -1.0));
    }
    outFloats, outHistograms := floats, histograms;
  }

  // ----- Clamp -----

  /** One value clamped: math.Max(min, math.Min(max, f)). */
  function ClampValue(lo: Float, hi: Float, f: Float): Float
  {
    GoMax(lo, GoMin(hi, f))
  }

  /** With bounds in order, the clamped value lies between them, and a value already
      between them is kept. */
  lemma ClampWithin(lo: Float, hi: Float, f: Float)
    requires !lo.NaN? && !hi.NaN? && !f.NaN? && AtMost(lo, hi)
    ensures AtMost(lo, ClampValue(lo, hi, f)) && AtMost(ClampValue(lo, hi, f), hi)
    ensures AtMost(lo, f) && AtMost(f, hi) ==> ClampValue(lo, hi, f) == f
  {
  }

  /** With the bounds crossed, the result is the lower bound. */
  lemma ClampCrossed(lo: Float, hi: Float, f: Float)
    requires !lo.NaN? && !hi.NaN? && !f.NaN? && Less(hi, lo)
    ensures ClampValue(lo, hi, f) == lo
  {
  }

  /** Clamping twice with the same bounds is clamping once. */
  lemma ClampIdempotent(lo: Float, hi: Float, f: Float)
    requires !lo.NaN? && !hi.NaN?
    ensures ClampValue(lo, hi, ClampValue(lo, hi, f)) == ClampValue(lo, hi, f)
  {
  }

  /** The points of a series clamped: the point at position `k` of the series is
      clamped by the `k`-th samples of the two bound series, whatever its step. */
  function Clamped(ps: seq<FPoint>, mins: seq<FPoint>, maxs: seq<FPoint>): (r: seq<FPoint>)
    requires |ps| <= |mins| && |ps| <= |maxs|
    ensures |r| == |ps|
  {
    seq(|ps|, k requires 0 <= k < |ps| => Point(ps[k].t, ClampValue(mins[k].v, maxs[k].v, ps[k].v)))
  }

  /** A series with a point at every step from the first: position `k` is step `k`,
      so each point is clamped by the bounds of its own step. */
  lemma ClampedDenseSeries(ps: seq<FPoint>, mins: seq<FPoint>, maxs: seq<FPoint>, start: int, interval: int)
    requires |ps| <= |mins| && |ps| <= |maxs| && interval > 0
    requires forall k :: 0 <= k < |ps| ==> ps[k].t == StepTime(start, interval, k)
    ensures forall k :: 0 <= k < |ps| ==>
      start <= ps[k].t && StepIndex(ps[k].t, start, interval) == k &&
      Clamped(ps, mins, maxs)[k].v == ClampValue(mins[k].v, maxs[k].v, ps[k].v)
  {
    forall k | 0 <= k < |ps|
      ensures start <= ps[k].t && StepIndex(ps[k].t, start, interval) == k
    {
      StepOfGridTime(k, start, interval);
    }
  }

  /** Where the sample pools take slices back. */
  class FPointSlicePool {
    var returned: seq<seq<FPoint>>

    constructor ()
      ensures returned == []
    {
      returned := [];
    }

    method Put(s: seq<FPoint>)
      modifies this
      ensures returned == old(returned) + [s]
    {
      returned := returned + [s];
    }
  }

  /** The clamp function of one query: the samples of its two scalar bounds. */
  class ClampFunction {
    const minValues: seq<FPoint>
    const maxValues: seq<FPoint>

    constructor (minValues: seq<FPoint>, maxValues: seq<FPoint>)
      ensures this.minValues == minValues && this.maxValues == maxValues
    {
      this.minValues, this.maxValues := minValues, maxValues;
    }

    /** Func: clamps every float of the series in place; timestamps and histograms are
      left alone. The bound series have a sample for every point position. */
    method Func(floats: array<FPoint>) returns (out: array<FPoint>)
      requires floats.Length <= |minValues| && floats.Length <= |maxValues|
      modifies floats
      ensures out == floats
      ensures floats[..] == Clamped(old(floats[..]), minValues, maxValues)
    {
      ghost var fs := floats[..];
      for k := 0 to floats.Length
        invariant forall j :: 0 <= j < k ==> floats[j] == Point(fs[j].t, ClampValue(minValues[j].v, maxValues[j].v, fs[j].v))
        invariant forall j :: k <= j < floats.Length ==> floats[j] == fs[j]
      {
        var minVal := minValues[k].v;
        var maxVal := maxValues[k].v;
        floats[k] := floats[k].(v := GoMax(minVal, GoMin(maxVal, floats[k].v)));
      }
      out := floats;
    }

    /** Close: hands both bound sample slices back to the pool. */
    method Close(pool: FPointSlicePool)
      modifies pool
      ensures pool.returned == old(pool.returned) + [minValues, maxValues]
    {
      pool.Put(minValues);
      pool.Put(maxValues);
    }
  }

  /** NewClampFunction: fetches both bounds' samples; the first error ends it. */
  method NewClampFunction(min: Result<seq<FPoint>>, max: Result<seq<FPoint>>) returns (r: Result<ClampFunction>)
    ensures min.Err? ==> r == Err(min.error)
    ensures min.Ok? && max.Err? ==> r == Err(max.error)
    ensures min.Ok? && max.Ok? ==> r.Ok? && r.value.minValues == min.value && r.value.maxValues == max.value
  {
    if min.Err? {
      return Err(min.error);
    }
    if max.Err? {
      return Err(max.error);
    }
    var f := new ClampFunction(min.value, max.value);
    return Ok(f);
  }
}

/** The `max` aggregation's per-group accumulator: a running maximum per step that
    skips NaN samples and counts a histogram as the value 0. */
module Max {
  import opened Floats
  import opened Series
  import GroupFold
  import Aggregation

  /** The contents of the two step arrays; an array not yet acquired is empty. */
  datatype MaxState = MaxState(floatValues: seq<Float>, floatPresent: seq<bool>)

  predicate Shaped(st: MaxState, steps: nat)
  {
    |st.floatValues| == |st.floatPresent| && (|st.floatPresent| == 0 || |st.floatPresent| == steps)
  }

  /** One sample offered at step `idx`: the step takes `v` when it holds nothing yet or
      when `v` is greater than what it holds. */
  function Offer(st: MaxState, idx: nat, v: Float): (r: MaxState)
    requires idx < |st.floatPresent| == |st.floatValues|
    ensures |r.floatPresent| == |r.floatValues| == |st.floatPresent|
  {
    if !st.floatPresent[idx] || Less(st.floatValues[idx], v) then
      MaxState(st.floatValues[idx := v], st.floatPresent[idx := true])
    else st
  }

  /** The float loop of AccumulateSeries: NaN samples are skipped, the others offered
      at their step, in order. */
  function FloatsInto(st: MaxState, pts: seq<FPoint>, start: int, interval: int): (r: MaxState)
    requires |st.floatPresent| == |st.floatValues|
    requires GroupFold.OnSlots(pts, start, interval, |st.floatPresent|)
    ensures |r.floatPresent| == |r.floatValues| == |st.floatPresent|
  {
    if pts == [] then st
    else
      var n := |pts| - 1;
      assert OnGrid(pts[n].t, start, interval, |st.floatPresent|);
      var prev := FloatsInto(st, pts[..n], start, interval);
      if pts[n].v.NaN? then prev else Offer(prev, StepIndex(pts[n].t, start, interval), pts[n].v)
  }

  /** The histogram loop of AccumulateSeries: every histogram offers the value 0 at its
      step. */
  function HistogramsInto(st: MaxState, pts: seq<HPoint>, start: int, interval: int): (r: MaxState)
    requires |st.floatPresent| == |st.floatValues|
    requires GroupFold.OnSlots(pts, start, interval, |st.floatPresent|)
    ensures |r.floatPresent| == |r.floatValues| == |st.floatPresent|
  {
    if pts == [] then st
    else
      var n := |pts| - 1;
      assert OnGrid(pts[n].t, start, interval, |st.floatPresent|);
      var prev := HistogramsInto(st, pts[..n], start, interval);
      Offer(prev, StepIndex(pts[n].t, start, interval), Num(0.0))
  }

  /** The arrays are acquired, zero-filled, on the first series that has floats. The
      histogram loop then indexes `floatPresent` whatever the series held, so this
      acquisition leaves it missing for a histogram-only first series. */
  function AcquiredAsWritten(st: MaxState, s: SeriesData, steps: nat): (r: MaxState)
    requires Shaped(st, steps)
    ensures Shaped(r, steps)
  {
    if |s.floats| > 0 && |st.floatPresent| == 0 then
      MaxState(GroupFold.Filled(steps, Num(0.0)), GroupFold.Filled(steps, false))
    else st
  }

  /** Whether the histogram loop stays inside the arrays: every histogram's step must
      have a `floatPresent` slot. */
  predicate HistogramLoopInBounds(st: MaxState, s: SeriesData, start: int, interval: int)
  {
    forall i :: 0 <= i < |s.histograms| ==> OnGrid(s.histograms[i].t, start, interval, |st.floatPresent|)
  }

  /** A group whose first series holds one histogram and no floats: after the
      acquisition as written, the histogram loop reads a slot that does not exist. */
  lemma HistogramOnlyFirstSeries(h: Histogram, steps: nat, start: int, interval: int)
    requires steps > 0 && interval > 0
    ensures var s := SeriesData([], [Point(start, h)]);
      InRange(s, start, interval, steps) &&
      !HistogramLoopInBounds(AcquiredAsWritten(MaxState([], []), s, steps), s, start, interval)
  {
    var s := SeriesData([], [Point(start, h)]);
    assert AcquiredAsWritten(MaxState([], []), s, steps) == MaxState([], []);
    assert !OnGrid(s.histograms[0].t, start, interval, 0);
  }

  /** The acquisition the histogram loop needs: the arrays are acquired, zero-filled,
      on the first series that has floats or histograms. */
  function Acquired(st: MaxState, s: SeriesData, steps: nat): (r: MaxState)
    requires Shaped(st, steps)
    ensures Shaped(r, steps)
    ensures (|s.floats| > 0 || |s.histograms| > 0) ==> |r.floatPresent| == steps
    ensures |st.floatPresent| == 0 && |r.floatPresent| == steps ==> forall i :: 0 <= i < steps ==> !r.floatPresent[i]
    ensures |st.floatPresent| != 0 ==> r == st
  {
    if (|s.floats| > 0 || |s.histograms| > 0) && |st.floatPresent| == 0 then
      MaxState(GroupFold.Filled(steps, Num(0.0)), GroupFold.Filled(steps, false))
    else st
  }

  /** With the corrected acquisition, both loops of any series on the grid stay inside
      the arrays. */
  lemma AcquiredInBounds(st: MaxState, s: SeriesData, steps: nat, start: int, interval: int)
    requires Shaped(st, steps) && InRange(s, start, interval, steps)
    ensures HistogramLoopInBounds(Acquired(st, s, steps), s, start, interval)
    ensures GroupFold.OnSlots(s.floats, start, interval, |Acquired(st, s, steps).floatPresent|)
  {
  }

  /** AccumulateSeries on the group's state. */
  function Accumulate(st: MaxState, s: SeriesData, steps: nat, start: int, interval: int): (r: MaxState)
    requires Shaped(st, steps) && InRange(s, start, interval, steps)
    ensures Shaped(r, steps)
  {
    var a := Acquired(st, s, steps);
    HistogramsInto(FloatsInto(a, s.floats, start, interval), s.histograms, start, interval)
  }

  // ----- What the accumulator computes -----

  /** Step `i` holds the maximum of the values `vals` offered to it: it is present
      exactly when something was offered, and then holds one of the offered values, no
      smaller than any of them. */
  predicate IsMaxOf(st: MaxState, i: nat, vals: set<Float>)
    requires i < |st.floatPresent| == |st.floatValues|
  {
    (st.floatPresent[i] <==> vals != {}) &&
    (st.floatPresent[i] ==> st.floatValues[i] in vals && forall v :: v in vals ==> !Less(st.floatValues[i], v))
  }

  /** Every step holds the maximum of the values offered to it, none of them NaN. */
  predicate AllMax(st: MaxState, vals: seq<set<Float>>)
  {
    |vals| == |st.floatPresent| == |st.floatValues| &&
    (forall i :: 0 <= i < |vals| ==> IsMaxOf(st, i, vals[i])) &&
    (forall i, w :: 0 <= i < |vals| && w in vals[i] ==> !w.NaN?)
  }

  /** The state stands for the offered values `vals`, one set per step: arrays not yet
      acquired stand for nothing offered anywhere. */
  predicate Represents(st: MaxState, vals: seq<set<Float>>, steps: nat)
  {
    Shaped(st, steps) && |vals| == steps &&
    (|st.floatPresent| == 0 ==> forall i :: 0 <= i < steps ==> vals[i] == {}) &&
    (|st.floatPresent| == steps ==> AllMax(st, vals))
  }

  /** The values a series' points offer at step `i`: its floats at that step that are
      not NaN, and 0 when it has a histogram there. */
  function FloatsAt(pts: seq<FPoint>, i: nat, start: int, interval: int): set<Float>
    requires interval > 0
  {
    set k | 0 <= k < |pts| && start <= pts[k].t && StepIndex(pts[k].t, start, interval) == i && !pts[k].v.NaN? :: pts[k].v
  }

  function ZeroIfHistogramAt(pts: seq<HPoint>, i: nat, start: int, interval: int): set<Float>
    requires interval > 0
  {
    set k | 0 <= k < |pts| && start <= pts[k].t && StepIndex(pts[k].t, start, interval) == i :: Num(0.0)
  }

  function AddFloats(vals: seq<set<Float>>, pts: seq<FPoint>, start: int, interval: int): (r: seq<set<Float>>)
    requires interval > 0
    ensures |r| == |vals|
  {
    seq(|vals|, i requires 0 <= i < |vals| => vals[i] + FloatsAt(pts, i, start, interval))
  }

  function AddHistograms(vals: seq<set<Float>>, pts: seq<HPoint>, start: int, interval: int): (r: seq<set<Float>>)
    requires interval > 0
    ensures |r| == |vals|
  {
    seq(|vals|, i requires 0 <= i < |vals| => vals[i] + ZeroIfHistogramAt(pts, i, start, interval))
  }

  /** Everything a series offers, step by step. */
  function AddSeries(vals: seq<set<Float>>, s: SeriesData, start: int, interval: int): (r: seq<set<Float>>)
    requires interval > 0
    ensures |r| == |vals|
  {
    AddHistograms(AddFloats(vals, s.floats, start, interval), s.histograms, start, interval)
  }

  /** Offering a value that is not NaN keeps every step the maximum of what it has been
      offered. */
  lemma OfferKeepsMax(st: MaxState, idx: nat, v: Float, vals: seq<set<Float>>)
    requires AllMax(st, vals) && idx < |vals| && !v.NaN?
    ensures AllMax(Offer(st, idx, v), vals[idx := vals[idx] + {v}])
  {
    var r := Offer(st, idx, v);
    var vals' := vals[idx := vals[idx] + {v}];
    forall i | 0 <= i < |vals'|
      ensures IsMaxOf(r, i, vals'[i])
    {
      if i == idx && st.floatPresent[idx] {
        if Less(st.floatValues[idx], v) {
          forall w | w in vals'[idx]
            ensures !Less(v, w)
          {
            if w != v && Less(v, w) {
              LessTransitive(st.floatValues[idx], v, w);
            }
          }
        } else {
          LessTotal(st.floatValues[idx], v);
        }
      }
    }
  }

  lemma FloatsAtSnoc(pts: seq<FPoint>, i: nat, start: int, interval: int)
    requires interval > 0 && pts != []
    ensures var n := |pts| - 1; var p := pts[n];
      FloatsAt(pts, i, start, interval) == FloatsAt(pts[..n], i, start, interval) +
        (if start <= p.t && StepIndex(p.t, start, interval) == i && !p.v.NaN? then {p.v} else {})
  {
    var n := |pts| - 1;
    forall x | x in FloatsAt(pts, i, start, interval)
      ensures x in FloatsAt(pts[..n], i, start, interval) || x == pts[n].v
    {
      var k :| 0 <= k < |pts| && start <= pts[k].t && StepIndex(pts[k].t, start, interval) == i && !pts[k].v.NaN? && pts[k].v == x;
      if k < n {
        assert pts[..n][k] == pts[k];
      }
    }
    forall x | x in FloatsAt(pts[..n], i, start, interval)
      ensures x in FloatsAt(pts, i, start, interval)
    {
      var k :| 0 <= k < n && start <= pts[..n][k].t && StepIndex(pts[..n][k].t, start, interval) == i &&
        !pts[..n][k].v.NaN? && pts[..n][k].v == x;
      assert pts[k] == pts[..n][k];
    }
  }

  lemma ZeroIfHistogramAtSnoc(pts: seq<HPoint>, i: nat, start: int, interval: int)
    requires interval > 0 && pts != []
    ensures var n := |pts| - 1; var p := pts[n];
      ZeroIfHistogramAt(pts, i, start, interval) == ZeroIfHistogramAt(pts[..n], i, start, interval) +
        (if start <= p.t && StepIndex(p.t, start, interval) == i then {Num(0.0)} else {})
  {
    var n := |pts| - 1;
    forall k | 0 <= k < n
      ensures pts[..n][k] == pts[k]
    {
    }
  }

  /** The float loop keeps every step the maximum of everything offered so far. */
  lemma {:induction false} FloatsIntoMax(st: MaxState, pts: seq<FPoint>, start: int, interval: int, vals: seq<set<Float>>)
    requires AllMax(st, vals) && interval > 0
    requires GroupFold.OnSlots(pts, start, interval, |st.floatPresent|)
    ensures AllMax(FloatsInto(st, pts, start, interval), AddFloats(vals, pts, start, interval))
  {
    if pts == [] {
      forall i | 0 <= i < |vals|
        ensures AddFloats(vals, pts, start, interval)[i] == vals[i]
      {
        assert FloatsAt(pts, i, start, interval) == {};
      }
    } else {
      var n := |pts| - 1;
      var p := pts[n];
      assert OnGrid(p.t, start, interval, |st.floatPresent|);
      var idx := StepIndex(p.t, start, interval);
      var before := AddFloats(vals, pts[..n], start, interval);
      FloatsIntoMax(st, pts[..n], start, interval, vals);
      forall i | 0 <= i < |vals|
        ensures AddFloats(vals, pts, start, interval)[i] ==
          if i == idx && !p.v.NaN? then before[i] + {p.v} else before[i]
      {
        FloatsAtSnoc(pts, i, start, interval);
      }
      if p.v.NaN? {
        assert AddFloats(vals, pts, start, interval) == before;
      } else {
        OfferKeepsMax(FloatsInto(st, pts[..n], start, interval), idx, p.v, before);
        assert AddFloats(vals, pts, start, interval) == before[idx := before[idx] + {p.v}];
      }
    }
  }

  /** The histogram loop likewise, each histogram offering 0. */
  lemma {:induction false} HistogramsIntoMax(st: MaxState, pts: seq<HPoint>, start: int, interval: int, vals: seq<set<Float>>)
    requires AllMax(st, vals) && interval > 0
    requires GroupFold.OnSlots(pts, start, interval, |st.floatPresent|)
    ensures AllMax(HistogramsInto(st, pts, start, interval), AddHistograms(vals, pts, start, interval))
  {
    if pts == [] {
      forall i | 0 <= i < |vals|
        ensures AddHistograms(vals, pts, start, interval)[i] == vals[i]
      {
        assert ZeroIfHistogramAt(pts, i, start, interval) == {};
      }
    } else {
      var n := |pts| - 1;
      var p := pts[n];
      assert OnGrid(p.t, start, interval, |st.floatPresent|);
      var idx := StepIndex(p.t, start, interval);
      var before := AddHistograms(vals, pts[..n], start, interval);
      HistogramsIntoMax(st, pts[..n], start, interval, vals);
      forall i | 0 <= i < |vals|
        ensures AddHistograms(vals, pts, start, interval)[i] == if i == idx then before[i] + {Num(0.0)} else before[i]
      {
        ZeroIfHistogramAtSnoc(pts, i, start, interval);
      }
      OfferKeepsMax(HistogramsInto(st, pts[..n], start, interval), idx, Num(0.0), before);
      assert AddHistograms(vals, pts, start, interval) == before[idx := before[idx] + {Num(0.0)}];
    }
  }

  /** No series offers anything at any step. */
  lemma NothingOffered(s: SeriesData, steps: nat, start: int, interval: int, vals: seq<set<Float>>)
    requires interval > 0 && |s.floats| == 0 && |s.histograms| == 0
    ensures AddSeries(vals, s, start, interval) == vals
  {
    forall i | 0 <= i < |vals|
      ensures AddSeries(vals, s, start, interval)[i] == vals[i]
    {
      assert FloatsAt(s.floats, i, start, interval) == {};
      assert ZeroIfHistogramAt(s.histograms, i, start, interval) == {};
    }
  }

  /** AccumulateSeries keeps the state the running maximum, per step, of every value
      the group's series have offered: NaN floats are never taken, and a histogram
      counts as 0. */
  lemma AccumulateIsMax(st: MaxState, s: SeriesData, steps: nat, start: int, interval: int, vals: seq<set<Float>>)
    requires Represents(st, vals, steps) && InRange(s, start, interval, steps) && interval > 0
    ensures Represents(Accumulate(st, s, steps, start, interval), AddSeries(vals, s, start, interval), steps)
  {
    var a := Acquired(st, s, steps);
    if |s.floats| == 0 && |s.histograms| == 0 {
      NothingOffered(s, steps, start, interval, vals);
    } else {
      assert |a.floatPresent| == steps;
      assert AllMax(a, vals);
      FloatsIntoMax(a, s.floats, start, interval, vals);
      var mid := FloatsInto(a, s.floats, start, interval);
      HistogramsIntoMax(mid, s.histograms, start, interval, AddFloats(vals, s.floats, start, interval));
    }
  }

  /** A histogram is offered exactly like a float sample of 0 at its timestamp. */
  function AsZeros(pts: seq<HPoint>): (r: seq<FPoint>)
    ensures |r| == |pts| && forall i :: 0 <= i < |pts| ==> r[i] == Point(pts[i].t, Num(0.0))
  {
    seq(|pts|, i requires 0 <= i < |pts| => Point(pts[i].t, Num(0.0)))
  }

  lemma {:induction false} HistogramsAsZeros(st: MaxState, pts: seq<HPoint>, start: int, interval: int)
    requires |st.floatPresent| == |st.floatValues|
    requires GroupFold.OnSlots(pts, start, interval, |st.floatPresent|)
    ensures GroupFold.OnSlots(AsZeros(pts), start, interval, |st.floatPresent|)
    ensures HistogramsInto(st, pts, start, interval) == FloatsInto(st, AsZeros(pts), start, interval)
  {
    if pts != [] {
      var n := |pts| - 1;
      assert AsZeros(pts)[..n] == AsZeros(pts[..n]);
      HistogramsAsZeros(st, pts[..n], start, interval);
    }
  }

  /** Float samples that are all NaN leave the state as it was. */
  lemma {:induction false} NaNSamplesIgnored(st: MaxState, pts: seq<FPoint>, start: int, interval: int)
    requires |st.floatPresent| == |st.floatValues|
    requires GroupFold.OnSlots(pts, start, interval, |st.floatPresent|)
    requires forall i :: 0 <= i < |pts| ==> pts[i].v.NaN?
    ensures FloatsInto(st, pts, start, interval) == st
  {
    if pts != [] {
      NaNSamplesIgnored(st, pts[..|pts| - 1], start, interval);
    }
  }

  /** What ComputeOutputSeries emits is the maximum per step: a point for exactly the
      steps that were offered something, at the step's time, holding an offered value
      no offered value exceeds. */
  lemma OutputIsMax(st: MaxState, vals: seq<set<Float>>, steps: nat, start: int, interval: int)
    requires Represents(st, vals, steps) && |st.floatPresent| == steps
    ensures forall p :: p in Sparse(Zip(st.floatPresent, st.floatValues), start, interval) <==>
      exists i :: 0 <= i < steps && vals[i] != {} && p.t == StepTime(start, interval, i) && p.v == st.floatValues[i]
    ensures forall i :: 0 <= i < steps && vals[i] != {} ==>
      st.floatValues[i] in vals[i] && forall w :: w in vals[i] ==> !Less(st.floatValues[i], w)
  {
    var z := Zip(st.floatPresent, st.floatValues);
    SparseMembers(z, start, interval);
    forall i | 0 <= i < steps
      ensures IsMaxOf(st, i, vals[i])
    {
    }
  }

  // ----- The accumulator object -----

  class MaxAggregationFunction {
    var floatValues: array?<Float>
    var floatPresent: array?<bool>
    /** Everything offered to each step so far. */
    ghost var offered: seq<set<Float>>

    ghost function State(): MaxState
      reads this, floatValues, floatPresent
    {
      MaxState(if floatValues == null then [] else floatValues[..],
               if floatPresent == null then [] else floatPresent[..])
    }

    ghost predicate Valid(steps: nat)
      reads this, floatValues, floatPresent
    {
      (floatValues == null <==> floatPresent == null) &&
      (floatValues != null ==> floatValues.Length == steps && floatPresent.Length == steps) &&
      Represents(State(), offered, steps)
    }

    constructor (steps: nat)
      ensures Valid(steps) && floatValues == null && offered == seq(steps, _ => {})
    {
      floatValues, floatPresent := null, null;
      offered := seq(steps, _ => {});
    }

    /** AccumulateSeries: folds one series of the group in. The arrays are acquired on
      the first series that has floats or histograms (see Findings). */
    method AccumulateSeries(s: SeriesData, steps: nat, start: int, interval: int)
      requires Valid(steps) && InRange(s, start, interval, steps) && interval > 0
      modifies this, floatValues, floatPresent
      ensures Valid(steps)
      ensures State() == Accumulate(old(State()), s, steps, start, interval)
      ensures offered == AddSeries(old(offered), s, start, interval)
    {
      ghost var st := State();
      if (|s.floats| > 0 || |s.histograms| > 0) && floatValues == null {
        floatValues := new Float[steps](_ => Num(0.0));
        floatPresent := new bool[steps](_ => false);
        assert floatValues[..] == GroupFold.Filled(steps, Num(0.0));
        assert floatPresent[..] == GroupFold.Filled(steps, false);
      }
      assert State() == Acquired(st, s, steps);
      if floatValues != null {
        OfferFloats(floatValues, floatPresent, s.floats, start, interval);
        OfferHistograms(floatValues, floatPresent, s.histograms, start, interval);
      } else {
        assert s.floats == [] && s.histograms == [];
      }
      AccumulateIsMax(st, s, steps, start, interval, offered);
      offered := AddSeries(offered, s, start, interval);
    }

    /** ComputeOutputSeries: one point per present step, at its grid time, holding the
      step's maximum; no histograms, no mixed-data flag; both arrays are released. */
    method ComputeOutputSeries(start: int, interval: int, ghost steps: nat) returns (data: SeriesData, mixed: bool)
      requires Valid(steps)
      modifies this
      ensures data.histograms == [] && !mixed
      ensures old(floatPresent) == null ==> data.floats == []
      ensures old(floatPresent) != null ==>
        data.floats == Sparse(Zip(old(floatPresent[..]), old(floatValues[..])), start, interval)
      ensures floatValues == null && floatPresent == null
    {
      var pts: seq<FPoint> := [];
      if floatPresent != null {
        var floatPointCount := Aggregation.CountPresent(floatPresent);
        if floatPointCount > 0 {
          pts := Aggregation.EmitFloats(floatPresent, floatValues, start, interval);
        } else {
          ZipCount(floatPresent[..], floatValues[..]);
          SparseNone(Zip(floatPresent[..], floatValues[..]), start, interval);
        }
      }
      floatValues, floatPresent := null, null;
      data, mixed := SeriesData(pts, []), false;
    }
  }

  /** The float loop of AccumulateSeries. */
  method OfferFloats(values: array<Float>, present: array<bool>, pts: seq<FPoint>, start: int, interval: int)
    requires values.Length == present.Length
    requires GroupFold.OnSlots(pts, start, interval, present.Length)
    modifies values, present
    ensures MaxState(values[..], present[..]) == FloatsInto(old(MaxState(values[..], present[..])), pts, start, interval)
  {
    ghost var st0 := MaxState(values[..], present[..]);
    for k := 0 to |pts|
      invariant GroupFold.OnSlots(pts[..k], start, interval, present.Length)
      invariant MaxState(values[..], present[..]) == FloatsInto(st0, pts[..k], start, interval)
    {
      var p := pts[k];
      assert pts[..k + 1][..k] == pts[..k];
      assert OnGrid(p.t, start, interval, present.Length);
      if !p.v.NaN? {
        var idx := (p.t - start) / interval;
        if !present[idx] || (present[idx] && Less(values[idx], p.v)) {
          values[idx] := p.v;
          present[idx] := true;
        }
      }
    }
    assert pts[..|pts|] == pts;
  }

  /** The histogram loop of AccumulateSeries. */
  method OfferHistograms(values: array<Float>, present: array<bool>, pts: seq<HPoint>, start: int, interval: int)
    requires values.Length == present.Length
    requires GroupFold.OnSlots(pts, start, interval, present.Length)
    modifies values, present
    ensures MaxState(values[..], present[..]) == HistogramsInto(old(MaxState(values[..], present[..])), pts, start, interval)
  {
    ghost var st0 := MaxState(values[..], present[..]);
    for k := 0 to |pts|
      invariant GroupFold.OnSlots(pts[..k], start, interval, present.Length)
      invariant MaxState(values[..], present[..]) == HistogramsInto(st0, pts[..k], start, interval)
    {
      var p := pts[k];
      assert pts[..k + 1][..k] == pts[..k];
      assert OnGrid(p.t, start, interval, present.Length);
      var idx := (p.t - start) / interval;
      if !present[idx] || (present[idx] && Less(values[idx], Num(0.0))) {
        values[idx] := Num(0.0);
        present[idx] := true;
      }
    }
    assert pts[..|pts|] == pts;
  }
}

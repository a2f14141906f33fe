/** The per-step state of one output group of the sum aggregation and the pure steps
    that change it: folding a series in (seriesIntoGroup), removing float/histogram
    conflicts (reconcilePointCount) and reading the group out as points
    (constructSeriesData). The aggregation operator's methods are proved against these
    functions. */
module GroupFold {
  import opened Floats
  import opened Series

  /** The contents of a group's step arrays. An array not yet allocated is the empty
      sequence; once allocated it has one slot per step. */
  datatype GroupState = GroupState(
    floatSums: seq<Float>,
    floatPresent: seq<bool>,
    histogramSums: seq<Option<Histogram>>,
    histogramPointCount: int)

  function EmptyGroup(): GroupState
  {
    GroupState([], [], [], 0)
  }

  /** The float arrays are allocated together, every allocated array has one slot per
      step, and the histogram point count is the number of occupied histogram slots. */
  predicate WellShaped(st: GroupState, steps: nat)
  {
    |st.floatSums| == |st.floatPresent| &&
    (|st.floatSums| == 0 || |st.floatSums| == steps) &&
    (|st.histogramSums| == 0 || |st.histogramSums| == steps) &&
    st.histogramPointCount == CountSome(st.histogramSums)
  }

  /** A freshly acquired pool slice: every slot holds the zero value. */
  function Filled<V>(steps: nat, v: V): (r: seq<V>)
    ensures |r| == steps && forall i :: 0 <= i < steps ==> r[i] == v
  {
    seq(steps, _ => v)
  }

  predicate OnSlots<V>(pts: seq<Point<V>>, start: int, interval: int, slots: nat)
  {
    forall i :: 0 <= i < |pts| ==> OnGrid(pts[i].t, start, interval, slots)
  }

  /** The float loop of seriesIntoGroup on the sums: each point's value is added into
      its step's slot, points taken in order. */
  function SumInto(sums: seq<Float>, pts: seq<FPoint>, start: int, interval: int): (r: seq<Float>)
    requires OnSlots(pts, start, interval, |sums|)
    ensures |r| == |sums|
  {
    if pts == [] then sums
    else
      var n := |pts| - 1;
      assert OnGrid(pts[n].t, start, interval, |sums|);
      var prev := SumInto(sums, pts[..n], start, interval);
      var idx := StepIndex(pts[n].t, start, interval);
      prev[idx := Add(prev[idx], pts[n].v)]
  }

  /** The float loop of seriesIntoGroup on the presence flags. */
  function MarkInto(present: seq<bool>, pts: seq<FPoint>, start: int, interval: int): (r: seq<bool>)
    requires OnSlots(pts, start, interval, |present|)
    ensures |r| == |present|
  {
    if pts == [] then present
    else
      var n := |pts| - 1;
      assert OnGrid(pts[n].t, start, interval, |present|);
      var prev := MarkInto(present, pts[..n], start, interval);
      prev[StepIndex(pts[n].t, start, interval) := true]
  }

  /** Histogram slots with the running count of occupied slots. */
  datatype HistogramAcc = HistogramAcc(slots: seq<Option<Histogram>>, count: int)

  /** The histogram loop of seriesIntoGroup: the first histogram at a step is stored
      (a copy) and counted; later ones at that step are added in and not counted. */
  function HistogramsInto(acc: HistogramAcc, pts: seq<HPoint>, merge: (Histogram, Histogram) -> Histogram,
                          start: int, interval: int): (r: HistogramAcc)
    requires OnSlots(pts, start, interval, |acc.slots|)
    ensures |r.slots| == |acc.slots|
  {
    if pts == [] then acc
    else
      var n := |pts| - 1;
      assert OnGrid(pts[n].t, start, interval, |acc.slots|);
      var prev := HistogramsInto(acc, pts[..n], merge, start, interval);
      var idx := StepIndex(pts[n].t, start, interval);
      if prev.slots[idx].None? then
        HistogramAcc(prev.slots[idx := Some(pts[n].v)], prev.count + 1)
      else
        HistogramAcc(prev.slots[idx := Some(merge(prev.slots[idx].value, pts[n].v))], prev.count)
  }

  /** The allocation step of seriesIntoGroup: the float arrays are acquired on the
      first series with floats and the histogram array on the first series with
      histograms, zero-filled. */
  function Acquired(st: GroupState, s: SeriesData, steps: nat): (r: GroupState)
    requires WellShaped(st, steps)
    ensures WellShaped(r, steps)
    ensures |s.floats| > 0 ==> |r.floatSums| == steps
    ensures |s.histograms| > 0 ==> |r.histogramSums| == steps
  {
    var allocFloats := |s.floats| > 0 && |st.floatSums| == 0;
    var allocHistograms := |s.histograms| > 0 && |st.histogramSums| == 0;
    FilledNoneCount(steps);
    GroupState(
      if allocFloats then Filled(steps, Num(0.0)) else st.floatSums,
      if allocFloats then Filled(steps, false) else st.floatPresent,
      if allocHistograms then Filled(steps, None) else st.histogramSums,
      st.histogramPointCount)
  }

  /** The two point loops of seriesIntoGroup. */
  function FoldPoints(st: GroupState, s: SeriesData, steps: nat, start: int, interval: int,
                      merge: (Histogram, Histogram) -> Histogram): (r: GroupState)
    requires WellShaped(st, steps) && InRange(s, start, interval, steps)
    requires |s.floats| > 0 ==> |st.floatSums| == steps
    requires |s.histograms| > 0 ==> |st.histogramSums| == steps
    ensures WellShaped(r, steps)
  {
    var acc := HistogramsInto(HistogramAcc(st.histogramSums, st.histogramPointCount), s.histograms, merge, start, interval);
    HistogramsIntoCount(HistogramAcc(st.histogramSums, st.histogramPointCount), s.histograms, merge, start, interval);
    GroupState(SumInto(st.floatSums, s.floats, start, interval), MarkInto(st.floatPresent, s.floats, start, interval),
               acc.slots, acc.count)
  }

  /** seriesIntoGroup on the group's state: acquire the arrays it needs, then fold the
      points in. */
  function IntoGroup(st: GroupState, s: SeriesData, steps: nat, start: int, interval: int,
                     merge: (Histogram, Histogram) -> Histogram): (r: GroupState)
    requires WellShaped(st, steps) && InRange(s, start, interval, steps)
    ensures WellShaped(r, steps)
  {
    FoldPoints(Acquired(st, s, steps), s, steps, start, interval, merge)
  }

  lemma FilledNoneCount(steps: nat)
    ensures CountSome(Filled<Option<Histogram>>(steps, None)) == 0
  {
    assert Filled<Option<Histogram>>(steps, None) == NoSlots<Histogram>(steps);
    EmptySlots<Histogram>(steps);
  }

  /** Filling one slot changes the number of occupied slots by one exactly when the
      slot was empty. */
  lemma {:induction false} CountSomeUpdate<V>(slots: seq<Option<V>>, i: nat, x: V)
    requires i < |slots|
    ensures CountSome(slots[i := Some(x)]) == CountSome(slots) + (if slots[i].None? then 1 else 0)
  {
    var n := |slots| - 1;
    if i < n {
      assert slots[i := Some(x)][..n] == slots[..n][i := Some(x)];
      CountSomeUpdate(slots[..n], i, x);
    } else {
      assert slots[i := Some(x)][..n] == slots[..n];
    }
  }

  /** The histogram loop keeps histogramPointCount equal to the number of occupied
      slots. */
  lemma {:induction false} HistogramsIntoCount(acc: HistogramAcc, pts: seq<HPoint>,
                                               merge: (Histogram, Histogram) -> Histogram,
                                               start: int, interval: int)
    requires OnSlots(pts, start, interval, |acc.slots|)
    requires acc.count == CountSome(acc.slots)
    ensures HistogramsInto(acc, pts, merge, start, interval).count
         == CountSome(HistogramsInto(acc, pts, merge, start, interval).slots)
  {
    if pts != [] {
      var n := |pts| - 1;
      assert OnGrid(pts[n].t, start, interval, |acc.slots|);
      var prev := HistogramsInto(acc, pts[..n], merge, start, interval);
      HistogramsIntoCount(acc, pts[..n], merge, start, interval);
      var idx := StepIndex(pts[n].t, start, interval);
      if prev.slots[idx].None? {
        CountSomeUpdate(prev.slots, idx, pts[n].v);
      } else {
        CountSomeUpdate(prev.slots, idx, merge(prev.slots[idx].value, pts[n].v));
      }
    }
  }

  /** The values of the points that fall in step `i`, in order. */
  function ValuesAt<V>(pts: seq<Point<V>>, i: nat, start: int, interval: int): seq<V>
    requires interval > 0
  {
    if pts == [] then []
    else
      var n := |pts| - 1;
      ValuesAt(pts[..n], i, start, interval) +
        (if start <= pts[n].t && StepIndex(pts[n].t, start, interval) == i then [pts[n].v] else [])
  }

  /** Left-to-right floating-point sum. */
  function AddAll(x: Float, vs: seq<Float>): Float
  {
    if vs == [] then x else Add(AddAll(x, vs[..|vs| - 1]), vs[|vs| - 1])
  }

  /** Left-to-right histogram sum, starting from an optional histogram. */
  function MergeAll(merge: (Histogram, Histogram) -> Histogram, o: Option<Histogram>, hs: seq<Histogram>): Option<Histogram>
  {
    if hs == [] then o
    else
      var m := MergeAll(merge, o, hs[..|hs| - 1]);
      Some(if m.None? then hs[|hs| - 1] else merge(m.value, hs[|hs| - 1]))
  }

  /** Step by step, the float loop leaves in slot `i` the old sum plus every value
      that falls in step `i`, added in order. */
  lemma {:induction false} SumIntoAt(sums: seq<Float>, pts: seq<FPoint>, start: int, interval: int, i: nat)
    requires OnSlots(pts, start, interval, |sums|)
    requires i < |sums| && interval > 0
    ensures SumInto(sums, pts, start, interval)[i] == AddAll(sums[i], ValuesAt(pts, i, start, interval))
  {
    if pts != [] {
      var n := |pts| - 1;
      assert OnGrid(pts[n].t, start, interval, |sums|);
      SumIntoAt(sums, pts[..n], start, interval, i);
      var vs := ValuesAt(pts[..n], i, start, interval);
      if StepIndex(pts[n].t, start, interval) == i {
        assert (vs + [pts[n].v])[..|vs|] == vs;
      } else {
        assert vs + [] == vs;
      }
    }
  }

  /** A step is marked present exactly when it was already, or some point falls in
      it. */
  lemma {:induction false} MarkIntoAt(present: seq<bool>, pts: seq<FPoint>, start: int, interval: int, i: nat)
    requires OnSlots(pts, start, interval, |present|)
    requires i < |present| && interval > 0
    ensures MarkInto(present, pts, start, interval)[i] <==> present[i] || |ValuesAt(pts, i, start, interval)| > 0
  {
    if pts != [] {
      var n := |pts| - 1;
      assert OnGrid(pts[n].t, start, interval, |present|);
      MarkIntoAt(present, pts[..n], start, interval, i);
    }
  }

  /** Step by step, the histogram loop leaves in slot `i` the old slot merged with
      every histogram that falls in step `i`, in order; the first one into an empty
      slot is stored as it is. */
  lemma {:induction false} HistogramsIntoAt(acc: HistogramAcc, pts: seq<HPoint>, merge: (Histogram, Histogram) -> Histogram,
                                            start: int, interval: int, i: nat)
    requires OnSlots(pts, start, interval, |acc.slots|)
    requires i < |acc.slots| && interval > 0
    ensures HistogramsInto(acc, pts, merge, start, interval).slots[i]
         == MergeAll(merge, acc.slots[i], ValuesAt(pts, i, start, interval))
  {
    if pts != [] {
      var n := |pts| - 1;
      assert OnGrid(pts[n].t, start, interval, |acc.slots|);
      HistogramsIntoAt(acc, pts[..n], merge, start, interval, i);
      var hs := ValuesAt(pts[..n], i, start, interval);
      if StepIndex(pts[n].t, start, interval) == i {
        assert (hs + [pts[n].v])[..|hs|] == hs;
      } else {
        assert hs + [] == hs;
      }
    }
  }

  /** The number of steps where both a float and a histogram are present. */
  function Conflicts(present: seq<bool>, slots: seq<Option<Histogram>>): nat
    requires |present| == |slots|
  {
    if present == [] then 0
    else
      var n := |present| - 1;
      Conflicts(present[..n], slots[..n]) + (if present[n] && slots[n].Some? then 1 else 0)
  }

  /** reconcilePointCount on the group's state: when both kinds of array are allocated,
      every step holding both a float and a histogram loses both, and the histogram
      count drops once per such step; otherwise nothing changes. */
  function Reconcile(st: GroupState): (r: GroupState)
    requires |st.floatSums| == |st.floatPresent|
    requires |st.floatPresent| == 0 || |st.histogramSums| == 0 || |st.floatPresent| == |st.histogramSums|
    ensures r.floatSums == st.floatSums
    ensures |r.floatPresent| == |st.floatPresent| && |r.histogramSums| == |st.histogramSums|
  {
    if |st.floatPresent| > 0 && |st.histogramSums| > 0 then
      var present, slots := st.floatPresent, st.histogramSums;
      GroupState(
        st.floatSums,
        KeptFloats(present, slots),
        KeptHistograms(present, slots),
        st.histogramPointCount - Conflicts(present, slots))
    else st
  }

  /** The presence flags once conflicting steps are cleared. */
  function KeptFloats(present: seq<bool>, slots: seq<Option<Histogram>>): (r: seq<bool>)
    requires |present| == |slots|
    ensures |r| == |present|
    ensures forall i :: 0 <= i < |r| ==> r[i] == (present[i] && slots[i].None?)
  {
    seq(|present|, i requires 0 <= i < |present| => present[i] && slots[i].None?)
  }

  /** The histogram slots once conflicting steps are cleared. */
  function KeptHistograms(present: seq<bool>, slots: seq<Option<Histogram>>): (r: seq<Option<Histogram>>)
    requires |present| == |slots|
    ensures |r| == |slots|
    ensures forall i :: 0 <= i < |r| ==> r[i] == if present[i] then None else slots[i]
  {
    seq(|slots|, i requires 0 <= i < |slots| => if present[i] then None else slots[i])
  }

  /** After reconciling, no step holds both a float and a histogram; a step keeps its
      float exactly when it had one and no histogram, and keeps its histogram exactly
      when it had one and no float. */
  lemma ReconcileSeparates(st: GroupState, steps: nat)
    requires WellShaped(st, steps)
    ensures var r := Reconcile(st);
      forall i :: 0 <= i < |r.floatPresent| && i < |r.histogramSums| ==> !(r.floatPresent[i] && r.histogramSums[i].Some?)
    ensures var r := Reconcile(st);
      (forall i :: 0 <= i < |r.floatPresent| ==>
        (r.floatPresent[i] <==> st.floatPresent[i] && !(i < |st.histogramSums| && st.histogramSums[i].Some?))) &&
      (forall i :: 0 <= i < |r.histogramSums| ==>
        (r.histogramSums[i].Some? <==> st.histogramSums[i].Some? && !(i < |st.floatPresent| && st.floatPresent[i])))
  {
  }

  /** Clearing the conflicting steps removes exactly the conflicts from the count of
      occupied histogram slots. */
  lemma {:induction false} ConflictsCount(present: seq<bool>, slots: seq<Option<Histogram>>)
    requires |present| == |slots|
    ensures CountSome(slots) - Conflicts(present, slots) == CountSome(KeptHistograms(present, slots))
  {
    if present != [] {
      var n := |present| - 1;
      assert KeptHistograms(present, slots)[..n] == KeptHistograms(present[..n], slots[..n]);
      ConflictsCount(present[..n], slots[..n]);
    }
  }

  /** Reconciling keeps the group well shaped: histogramPointCount still counts the
      occupied histogram slots. */
  lemma ReconcileWellShaped(st: GroupState, steps: nat)
    requires WellShaped(st, steps)
    ensures WellShaped(Reconcile(st), steps)
  {
    if |st.floatPresent| > 0 && |st.histogramSums| > 0 {
      ConflictsCount(st.floatPresent, st.histogramSums);
    }
  }

  /** constructSeriesData on the group's state: one float point per present step and
      one histogram point per occupied histogram slot, at the step's time. */
  function Output(st: GroupState, start: int, interval: int): SeriesData
    requires |st.floatSums| == |st.floatPresent|
  {
    SeriesData(Sparse(Zip(st.floatPresent, st.floatSums), start, interval), Sparse(st.histogramSums, start, interval))
  }

  /** The group's output points are strictly ascending, lie on the grid, and number
      one per present float step and one per occupied histogram slot. */
  lemma OutputShape(st: GroupState, steps: nat, start: int, interval: int)
    requires WellShaped(st, steps) && interval > 0
    ensures var out := Output(st, start, interval);
      StrictlyAscending(out.floats) && StrictlyAscending(out.histograms) &&
      |out.floats| == CountTrue(st.floatPresent) && |out.histograms| == st.histogramPointCount
  {
    var z := Zip(st.floatPresent, st.floatSums);
    SparseAscending(z, start, interval);
    SparseAscending(st.histogramSums, start, interval);
    SparseLength(z, start, interval);
    ZipCount(st.floatPresent, st.floatSums);
    SparseLength(st.histogramSums, start, interval);
  }

  /** The state of group `g` after the series whose groups are `assign` and whose data
      are `datas` have been folded into their groups. */
  function FoldMembers<G(==)>(assign: seq<G>, datas: seq<SeriesData>, g: G, steps: nat, start: int, interval: int,
                              merge: (Histogram, Histogram) -> Histogram): (r: GroupState)
    requires |assign| == |datas|
    requires forall j :: 0 <= j < |datas| ==> InRange(datas[j], start, interval, steps)
    ensures WellShaped(r, steps)
  {
    if datas == [] then EmptyGroup()
    else
      var n := |datas| - 1;
      var prev := FoldMembers(assign[..n], datas[..n], g, steps, start, interval, merge);
      if assign[n] == g then IntoGroup(prev, datas[n], steps, start, interval, merge) else prev
  }

  /** Folding one more series in: only its own group changes, by that series. */
  lemma FoldMembersStep<G>(assign: seq<G>, datas: seq<SeriesData>, a: G, d: SeriesData, g: G, steps: nat,
                           start: int, interval: int, merge: (Histogram, Histogram) -> Histogram)
    requires |assign| == |datas|
    requires forall j :: 0 <= j < |datas| ==> InRange(datas[j], start, interval, steps)
    requires InRange(d, start, interval, steps)
    ensures forall j :: 0 <= j < |datas + [d]| ==> InRange((datas + [d])[j], start, interval, steps)
    ensures FoldMembers(assign + [a], datas + [d], g, steps, start, interval, merge)
         == if a == g then IntoGroup(FoldMembers(assign, datas, g, steps, start, interval, merge), d, steps, start, interval, merge)
            else FoldMembers(assign, datas, g, steps, start, interval, merge)
  {
    assert (assign + [a])[..|datas|] == assign;
    assert (datas + [d])[..|datas|] == datas;
  }

  /** Series of other groups leave a group's state untouched: with a single member, the
      group's state is that member folded into an empty group. */
  lemma {:induction false} FoldSingleMember<G>(assign: seq<G>, datas: seq<SeriesData>, g: G, k: nat, steps: nat,
                                                    start: int, interval: int, merge: (Histogram, Histogram) -> Histogram)
    requires |assign| == |datas|
    requires forall j :: 0 <= j < |datas| ==> InRange(datas[j], start, interval, steps)
    requires k < |assign| && assign[k] == g
    requires forall j :: 0 <= j < |assign| && j != k ==> assign[j] != g
    ensures FoldMembers(assign, datas, g, steps, start, interval, merge)
         == IntoGroup(EmptyGroup(), datas[k], steps, start, interval, merge)
  {
    var n := |datas| - 1;
    if n == k {
      FoldNoMember(assign[..n], datas[..n], g, steps, start, interval, merge);
    } else {
      FoldSingleMember(assign[..n], datas[..n], g, k, steps, start, interval, merge);
    }
  }

  lemma {:induction false} FoldNoMember<G>(assign: seq<G>, datas: seq<SeriesData>, g: G, steps: nat,
                                               start: int, interval: int, merge: (Histogram, Histogram) -> Histogram)
    requires |assign| == |datas|
    requires forall j :: 0 <= j < |datas| ==> InRange(datas[j], start, interval, steps)
    requires forall j :: 0 <= j < |assign| ==> assign[j] != g
    ensures FoldMembers(assign, datas, g, steps, start, interval, merge) == EmptyGroup()
  {
    if datas != [] {
      FoldNoMember(assign[..|datas| - 1], datas[..|datas| - 1], g, steps, start, interval, merge);
    }
  }

  lemma {:induction false} ValuesAtBelow<V>(pts: seq<Point<V>>, i: nat, bound: nat, start: int, interval: int)
    requires interval > 0
    requires forall k :: 0 <= k < |pts| ==> start <= pts[k].t && StepIndex(pts[k].t, start, interval) < bound
    requires bound <= i
    ensures ValuesAt(pts, i, start, interval) == []
  {
    if pts != [] {
      ValuesAtBelow(pts[..|pts| - 1], i, bound, start, interval);
    }
  }

  /** For a strictly ascending series on the grid, each step holds at most one value,
      and the dense slot of that step holds it. */
  lemma {:induction false} DenseAt<V>(pts: seq<Point<V>>, steps: nat, start: int, interval: int, i: nat)
    requires forall k :: 0 <= k < |pts| ==> OnGrid(pts[k].t, start, interval, steps)
    requires forall k :: 0 <= k < |pts| ==> OnGridExact(pts[k].t, start, interval, steps)
    requires StrictlyAscending(pts) && interval > 0 && i < steps
    ensures |ValuesAt(pts, i, start, interval)| <= 1
    ensures Dense(pts, steps, start, interval)[i]
         == if ValuesAt(pts, i, start, interval) == [] then None else Some(ValuesAt(pts, i, start, interval)[0])
  {
    if pts != [] {
      var n := |pts| - 1;
      var p := pts[n];
      assert OnGridExact(p.t, start, interval, steps);
      var idx := StepIndex(p.t, start, interval);
      var init := pts[..n];
      DenseAt(init, steps, start, interval, i);
      if idx == i {
        forall k | 0 <= k < |init|
          ensures start <= init[k].t && StepIndex(init[k].t, start, interval) < idx
        {
          assert init[k] == pts[k];
          assert OnGridExact(pts[k].t, start, interval, steps);
          StepIndexStrictlyMonotone(pts[k].t, p.t, start, interval, steps);
        }
        ValuesAtBelow(init, i, idx, start, interval);
      } else {
        assert ValuesAt(pts, i, start, interval) == ValuesAt(init, i, start, interval) + [];
      }
    }
  }

  /** An occupied dense slot comes from some point in that step. */
  lemma {:induction false} DenseWitness<V>(pts: seq<Point<V>>, steps: nat, start: int, interval: int, i: nat)
    requires forall k :: 0 <= k < |pts| ==> OnGrid(pts[k].t, start, interval, steps)
    requires i < steps && Dense(pts, steps, start, interval)[i].Some?
    ensures exists k :: 0 <= k < |pts| && start <= pts[k].t && StepIndex(pts[k].t, start, interval) == i
  {
    var n := |pts| - 1;
    assert OnGrid(pts[n].t, start, interval, steps);
    if StepIndex(pts[n].t, start, interval) != i {
      DenseWitness(pts[..n], steps, start, interval, i);
      var k :| 0 <= k < n && start <= pts[..n][k].t && StepIndex(pts[..n][k].t, start, interval) == i;
      assert pts[k] == pts[..n][k];
    }
  }

  /** A strictly ascending float series folded into fresh arrays gives, slot by slot,
      the series spread over the grid. */
  lemma FloatSlotsOfSeries(fs: seq<FPoint>, steps: nat, start: int, interval: int)
    requires forall k :: 0 <= k < |fs| ==> OnGrid(fs[k].t, start, interval, steps)
    requires forall k :: 0 <= k < |fs| ==> OnGridExact(fs[k].t, start, interval, steps)
    requires StrictlyAscending(fs) && interval > 0
    ensures Zip(MarkInto(Filled(steps, false), fs, start, interval), SumInto(Filled(steps, Num(0.0)), fs, start, interval))
         == Dense(fs, steps, start, interval)
  {
    var present := MarkInto(Filled(steps, false), fs, start, interval);
    var sums := SumInto(Filled(steps, Num(0.0)), fs, start, interval);
    forall i | 0 <= i < steps
      ensures Zip(present, sums)[i] == Dense(fs, steps, start, interval)[i]
    {
      FloatSlotAt(fs, steps, start, interval, i);
    }
  }

  lemma FloatSlotAt(fs: seq<FPoint>, steps: nat, start: int, interval: int, i: nat)
    requires forall k :: 0 <= k < |fs| ==> OnGrid(fs[k].t, start, interval, steps)
    requires forall k :: 0 <= k < |fs| ==> OnGridExact(fs[k].t, start, interval, steps)
    requires StrictlyAscending(fs) && interval > 0 && i < steps
    ensures var present := MarkInto(Filled(steps, false), fs, start, interval);
      var sums := SumInto(Filled(steps, Num(0.0)), fs, start, interval);
      (if present[i] then Some(sums[i]) else None) == Dense(fs, steps, start, interval)[i]
  {
    MarkIntoAt(Filled(steps, false), fs, start, interval, i);
    SumIntoAt(Filled(steps, Num(0.0)), fs, start, interval, i);
    DenseAt(fs, steps, start, interval, i);
    var vs := ValuesAt(fs, i, start, interval);
    if vs != [] {
      assert vs[..0] == [];
      assert AddAll(Num(0.0), vs) == Add(Num(0.0), vs[0]);
    }
  }

  /** A strictly ascending histogram series folded into a fresh array gives, slot by
      slot, the series spread over the grid. */
  lemma HistogramSlotsOfSeries(hs: seq<HPoint>, steps: nat, start: int, interval: int,
                               merge: (Histogram, Histogram) -> Histogram)
    requires forall k :: 0 <= k < |hs| ==> OnGrid(hs[k].t, start, interval, steps)
    requires forall k :: 0 <= k < |hs| ==> OnGridExact(hs[k].t, start, interval, steps)
    requires StrictlyAscending(hs) && interval > 0
    ensures HistogramsInto(HistogramAcc(Filled(steps, None), 0), hs, merge, start, interval).slots
         == Dense(hs, steps, start, interval)
  {
    var acc := HistogramAcc(Filled(steps, None), 0);
    forall i | 0 <= i < steps
      ensures HistogramsInto(acc, hs, merge, start, interval).slots[i] == Dense(hs, steps, start, interval)[i]
    {
      HistogramsIntoAt(acc, hs, merge, start, interval, i);
      DenseAt(hs, steps, start, interval, i);
      var vs := ValuesAt(hs, i, start, interval);
      if vs != [] {
        assert vs[..0] == [];
      }
    }
  }

  /** A series whose floats and histograms are strictly ascending, on the grid, and
      never share a timestamp. */
  predicate Regular(d: SeriesData, steps: nat, start: int, interval: int)
  {
    interval > 0 &&
    (forall k :: 0 <= k < |d.floats| ==> OnGridExact(d.floats[k].t, start, interval, steps)) &&
    (forall k :: 0 <= k < |d.histograms| ==> OnGridExact(d.histograms[k].t, start, interval, steps)) &&
    StrictlyAscending(d.floats) && StrictlyAscending(d.histograms) &&
    (forall a, b :: 0 <= a < |d.floats| && 0 <= b < |d.histograms| ==> d.floats[a].t != d.histograms[b].t)
  }

  /** The float half of the round trip. */
  lemma FloatsRoundTrip(d: SeriesData, steps: nat, start: int, interval: int,
                        merge: (Histogram, Histogram) -> Histogram)
    requires Regular(d, steps, start, interval)
    ensures InRange(d, start, interval, steps)
    ensures var st := IntoGroup(EmptyGroup(), d, steps, start, interval, merge);
      Sparse(Zip(st.floatPresent, st.floatSums), start, interval) == d.floats &&
      (|d.floats| > 0 ==> Zip(st.floatPresent, st.floatSums) == Dense(d.floats, steps, start, interval))
  {
    assert InRange(d, start, interval, steps);
    var st := IntoGroup(EmptyGroup(), d, steps, start, interval, merge);
    if |d.floats| > 0 {
      FloatSlotsOfSeries(d.floats, steps, start, interval);
      SparseOfDense(d.floats, steps, start, interval);
    } else {
      assert Zip(st.floatPresent, st.floatSums) == [];
    }
  }

  /** The histogram half of the round trip. */
  lemma HistogramsRoundTrip(d: SeriesData, steps: nat, start: int, interval: int,
                            merge: (Histogram, Histogram) -> Histogram)
    requires Regular(d, steps, start, interval)
    ensures InRange(d, start, interval, steps)
    ensures var st := IntoGroup(EmptyGroup(), d, steps, start, interval, merge);
      Sparse(st.histogramSums, start, interval) == d.histograms &&
      (|d.histograms| > 0 ==> st.histogramSums == Dense(d.histograms, steps, start, interval))
  {
    assert InRange(d, start, interval, steps);
    if |d.histograms| > 0 {
      HistogramSlotsOfSeries(d.histograms, steps, start, interval, merge);
      SparseOfDense(d.histograms, steps, start, interval);
    }
  }

  /** A regular series never puts a float and a histogram in the same step. */
  lemma NoConflictInRegular(d: SeriesData, steps: nat, start: int, interval: int,
                            merge: (Histogram, Histogram) -> Histogram)
    requires Regular(d, steps, start, interval)
    ensures InRange(d, start, interval, steps)
    ensures var st := IntoGroup(EmptyGroup(), d, steps, start, interval, merge);
      forall i :: 0 <= i < |st.floatPresent| && i < |st.histogramSums| ==> !(st.floatPresent[i] && st.histogramSums[i].Some?)
  {
    assert InRange(d, start, interval, steps);
    var st := IntoGroup(EmptyGroup(), d, steps, start, interval, merge);
    FloatsRoundTrip(d, steps, start, interval, merge);
    HistogramsRoundTrip(d, steps, start, interval, merge);
    forall i | 0 <= i < |st.floatPresent| && i < |st.histogramSums| && st.floatPresent[i]
      ensures st.histogramSums[i].None?
    {
      assert Zip(st.floatPresent, st.floatSums)[i].Some?;
      StepsDisjoint(d, steps, start, interval, i);
    }
  }

  /** No point of `pts` falls in step `i`, so its dense slot is empty. */
  lemma {:induction false} DenseEmptyAt<V>(pts: seq<Point<V>>, steps: nat, start: int, interval: int, i: nat)
    requires forall k :: 0 <= k < |pts| ==> OnGrid(pts[k].t, start, interval, steps)
    requires i < steps && interval > 0
    requires forall k :: 0 <= k < |pts| ==> start <= pts[k].t && StepIndex(pts[k].t, start, interval) != i
    ensures Dense(pts, steps, start, interval)[i].None?
  {
    if pts != [] {
      DenseEmptyAt(pts[..|pts| - 1], steps, start, interval, i);
    }
  }

  /** In a regular series a step holding a float holds no histogram. */
  lemma StepsDisjoint(d: SeriesData, steps: nat, start: int, interval: int, i: nat)
    requires Regular(d, steps, start, interval)
    requires InRange(d, start, interval, steps)
    requires i < steps && Dense(d.floats, steps, start, interval)[i].Some?
    ensures Dense(d.histograms, steps, start, interval)[i].None?
  {
    DenseWitness(d.floats, steps, start, interval, i);
    var a :| 0 <= a < |d.floats| && start <= d.floats[a].t && StepIndex(d.floats[a].t, start, interval) == i;
    assert OnGridExact(d.floats[a].t, start, interval, steps);
    forall k | 0 <= k < |d.histograms|
      ensures start <= d.histograms[k].t && StepIndex(d.histograms[k].t, start, interval) != i
    {
      assert OnGridExact(d.histograms[k].t, start, interval, steps);
      assert d.floats[a].t != d.histograms[k].t;
    }
    DenseEmptyAt(d.histograms, steps, start, interval, i);
  }

  /** Round trip: a group with a single member that is a regular series outputs exactly
      that series (summing one series changes nothing, and no conflict is removed). */
  lemma SingleSeriesRoundTrip(d: SeriesData, steps: nat, start: int, interval: int,
                              merge: (Histogram, Histogram) -> Histogram)
    requires Regular(d, steps, start, interval)
    ensures InRange(d, start, interval, steps)
    ensures Output(Reconcile(IntoGroup(EmptyGroup(), d, steps, start, interval, merge)), start, interval) == d
  {
    FloatsRoundTrip(d, steps, start, interval, merge);
    HistogramsRoundTrip(d, steps, start, interval, merge);
    NoConflictInRegular(d, steps, start, interval, merge);
    var st := IntoGroup(EmptyGroup(), d, steps, start, interval, merge);
    var r := Reconcile(st);
    assert r.floatPresent == st.floatPresent;
    assert r.histogramSums == st.histogramSums;
  }
}

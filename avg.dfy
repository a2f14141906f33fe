/** The `avg` aggregation's per-group accumulator: per-step sums, presence flags and
    series counts; a switch per step to an incremental mean once the plain sum would
    overflow; running histogram means with a sentinel for steps whose histograms could
    not be combined; and removal of steps that see both a float and a histogram. */
module Avg {
  import opened Floats
  import opened Series
  import GroupFold

  /** A histogram slot: nothing yet, the running mean, or the sentinel for "an invalid
      combination of histograms was seen here". */
  datatype Slot = Empty | Mean(h: Histogram) | Invalid

  /** The floating-point library's compensated addition: for an increment, a sum and
      its compensation, the new sum and the new compensation. */
  type KahanSumInc = (Float, Float, Float) -> (Float, Float)

  /** How conflict removal maintains histogramPointCount: as the code does (always one
      less), or only when a counted histogram is actually removed (see Findings). */
  datatype Removal = AsWritten | Corrected

  /** The contents of the seven step arrays and the histogram point count. An array not
      yet acquired is the empty sequence. */
  datatype AvgState = AvgState(
    floatSums: seq<Float>,
    floatMeans: seq<Float>,
    floatCompensatingMeans: seq<Float>,
    floatPresent: seq<bool>,
    histograms: seq<Slot>,
    histogramPointCount: int,
    incrementalMeans: seq<bool>,
    groupSeriesCounts: seq<nat>)

  function EmptyState(): AvgState
  {
    AvgState([], [], [], [], [], 0, [], [])
  }

  /** The shape every state keeps: the four float arrays are acquired together, every
      acquired array has one slot per step, the counts exist once anything else does,
      the means array exists wherever a step has switched to incremental means, a
      present float has been counted, and no step holds both a float and a
      histogram. */
  predicate Shaped(st: AvgState, steps: nat)
  {
    (|st.groupSeriesCounts| == 0 || |st.groupSeriesCounts| == steps) &&
    |st.floatSums| == |st.floatCompensatingMeans| == |st.floatPresent| == |st.incrementalMeans| &&
    (|st.floatSums| == 0 || |st.floatSums| == steps) &&
    (|st.floatMeans| == 0 || |st.floatMeans| == steps) &&
    (|st.histograms| == 0 || |st.histograms| == steps) &&
    (|st.floatSums| == steps ==> |st.groupSeriesCounts| == steps) &&
    (|st.histograms| == steps ==> |st.groupSeriesCounts| == steps) &&
    (forall i :: 0 <= i < |st.incrementalMeans| && st.incrementalMeans[i] ==> |st.floatMeans| == steps) &&
    (forall i :: 0 <= i < |st.floatPresent| && st.floatPresent[i] ==>
      i < |st.groupSeriesCounts| && st.groupSeriesCounts[i] >= 1) &&
    (forall i :: 0 <= i < |st.floatPresent| && i < |st.histograms| && st.floatPresent[i] ==> st.histograms[i].Empty?)
  }

  /** The number of slots holding a histogram mean (the sentinel is not one). */
  function CountMeans(slots: seq<Slot>): nat
  {
    if slots == [] then 0
    else CountMeans(slots[..|slots| - 1]) + (if slots[|slots| - 1].Mean? then 1 else 0)
  }

  /** histogramPointCount counts the slots holding a histogram mean. */
  predicate Counted(st: AvgState)
  {
    st.histogramPointCount == CountMeans(st.histograms)
  }

  // ----- Conflict removal -----

  /** The removeConflictingPoint closure: the step loses its float and its histogram
      and histogramPointCount goes down; as written by one always, corrected by one
      exactly when the slot held a counted histogram. */
  function RemoveConflict(st: AvgState, idx: nat, removal: Removal): (r: AvgState)
    requires idx < |st.floatPresent| && idx < |st.histograms|
  {
    st.(floatPresent := st.floatPresent[idx := false],
        histograms := st.histograms[idx := Empty],
        histogramPointCount := st.histogramPointCount - (if removal == AsWritten || st.histograms[idx].Mean? then 1 else 0))
  }

  /** The step counts one more sample. */
  function CountIn(st: AvgState, idx: nat): AvgState
    requires idx < |st.groupSeriesCounts|
  {
    st.(groupSeriesCounts := st.groupSeriesCounts[idx := st.groupSeriesCounts[idx] + 1])
  }

  // ----- The float loop -----

  /** Folding a float into an incremental mean (the part of the float loop after the
      switch): an infinite mean is kept when the sample is a finite value or an
      infinity of the same sign; otherwise the mean moves by (f - mean) / count with
      compensated addition. */
  function IncrementalStep(st: AvgState, idx: nat, f: Float, kahan: KahanSumInc): (r: AvgState)
    requires idx < |st.floatMeans| && idx < |st.floatCompensatingMeans| && idx < |st.groupSeriesCounts|
    requires st.groupSeriesCounts[idx] >= 1
  {
    var mean := st.floatMeans[idx];
    if mean.Inf? && ((f.Inf? && f.positive == mean.positive) || f.Num?) then st
    else
      var c := st.groupSeriesCounts[idx] as real;
      var current := Add(mean, st.floatCompensatingMeans[idx]);
      var (m, cm) := kahan(Sub(DivBy(f, c), DivBy(current, c)), mean, st.floatCompensatingMeans[idx]);
      st.(floatMeans := st.floatMeans[idx := m], floatCompensatingMeans := st.floatCompensatingMeans[idx := cm])
  }

  /** A float at a step that already has one (counted already): compensated addition
      into the sum while it stays finite; on the first sum that would be infinite the
      step switches, once, to an incremental mean, acquiring the means array if no step
      had switched yet. */
  function MeanStep(st: AvgState, idx: nat, f: Float, steps: nat, kahan: KahanSumInc): (r: AvgState)
    requires Shaped(st, steps) && idx < steps && |st.floatSums| == steps
    requires st.groupSeriesCounts[idx] >= 2
  {
    if !st.incrementalMeans[idx] then
      var (newV, newC) := kahan(f, st.floatSums[idx], st.floatCompensatingMeans[idx]);
      if !newV.Inf? then
        st.(floatSums := st.floatSums[idx := newV], floatCompensatingMeans := st.floatCompensatingMeans[idx := newC])
      else
        IncrementalStep(Switched(st, idx, steps), idx, f, kahan)
    else
      IncrementalStep(st, idx, f, kahan)
  }

  /** The switch to an incremental mean: the mean so far is the sum over the samples
      before this one, and the compensation is scaled the same way. */
  function Switched(st: AvgState, idx: nat, steps: nat): (r: AvgState)
    requires Shaped(st, steps) && idx < steps && |st.floatSums| == steps
    requires st.groupSeriesCounts[idx] >= 2
    ensures |r.floatMeans| == steps
  {
    var means := if |st.floatMeans| == 0 then GroupFold.Filled(steps, Num(0.0)) else st.floatMeans;
    var d := (st.groupSeriesCounts[idx] - 1) as real;
    st.(incrementalMeans := st.incrementalMeans[idx := true],
        floatMeans := means[idx := DivBy(st.floatSums[idx], d)],
        floatCompensatingMeans := st.floatCompensatingMeans[idx := DivBy(st.floatCompensatingMeans[idx], d)])
  }

  /** One float point of the float loop, at step `idx`: a conflict with a histogram
      (or the sentinel) there removes both; otherwise the step is counted and the
      float becomes the step's sum if it had none, or goes into it. The flag says
      whether a conflict was removed. */
  function FloatStep(st: AvgState, idx: nat, f: Float, steps: nat, kahan: KahanSumInc, removal: Removal): (r: (AvgState, bool))
    requires Shaped(st, steps) && idx < steps && |st.floatSums| == steps
  {
    if |st.histograms| > 0 && !st.histograms[idx].Empty? then
      (RemoveConflict(st, idx, removal), true)
    else
      var st1 := CountIn(st, idx);
      if !st.floatPresent[idx] then
        (st1.(floatSums := st1.floatSums[idx := f], floatPresent := st1.floatPresent[idx := true]), false)
      else
        (MeanStep(st1, idx, f, steps, kahan), false)
  }

  // ----- The histogram loop -----

  /** What one histogram point leaves: the state, whether a conflict was removed, and
      the error that ends the call, if any. */
  datatype Acc = Acc(st: AvgState, mixed: bool, err: Option<HistogramError>)

  /** The step could not combine its histograms: it holds the sentinel from now on and
      histogramPointCount goes down; an error the annotation converter does not
      recognise ends the call. */
  function Poisoned(st: AvgState, idx: nat, e: HistogramError, ops: HistogramOps): (r: Acc)
    requires idx < |st.histograms|
  {
    Acc(st.(histograms := st.histograms[idx := Invalid], histogramPointCount := st.histogramPointCount - 1),
        false, if ops.recognised(e) then None else Some(e))
  }

  /** One histogram point of the histogram loop, at step `idx`: a conflict with a float
      there removes both; otherwise the step is counted, and the histogram becomes the
      step's mean if it had none (a copy, counted), is ignored at a sentinel, or moves
      the mean by (h - mean) / count. */
  function HistogramStep(st: AvgState, idx: nat, h: Histogram, steps: nat, ops: HistogramOps, removal: Removal): (r: Acc)
    requires Shaped(st, steps) && idx < steps && |st.histograms| == steps
  {
    if |st.floatPresent| > 0 && st.floatPresent[idx] then
      Acc(RemoveConflict(st, idx, removal), true, None)
    else
      var count := st.groupSeriesCounts[idx] + 1;
      var st1 := CountIn(st, idx);
      match st.histograms[idx]
      case Empty =>
        Acc(st1.(histograms := st1.histograms[idx := Mean(h)], histogramPointCount := st1.histogramPointCount + 1), false, None)
      case Invalid =>
        Acc(st1, false, None)
      case Mean(cur) => MoveMean(st1, idx, cur, h, count, ops)
  }

  /** The running mean `cur` at step `idx`, now counting `count` samples, moves by
      (h - cur) / count; a failed subtraction or addition leaves the sentinel. */
  function MoveMean(st: AvgState, idx: nat, cur: Histogram, h: Histogram, count: nat, ops: HistogramOps): (r: Acc)
    requires idx < |st.histograms| && count > 0
  {
    var c := count as real;
    match ops.sub(ops.div(h, c), ops.div(cur, c))
    case HistogramFailed(e) => Poisoned(st, idx, e, ops)
    case HistogramOk(toAdd) =>
      match ops.add(cur, toAdd)
      case HistogramFailed(e) => Poisoned(st, idx, e, ops)
      case HistogramOk(sum) => Acc(st.(histograms := st.histograms[idx := Mean(sum)]), false, None)
  }

  // ----- Locality and shape -----

  /** Everything one step holds, with an array not yet acquired read as the zero value
      a fresh pool slice would have. */
  datatype StepView = StepView(sum: Float, mean: Float, comp: Float, present: bool, slot: Slot,
                               incremental: bool, count: nat)

  function At<V>(s: seq<V>, j: nat, zero: V): V
  {
    if j < |s| then s[j] else zero
  }

  function View(st: AvgState, j: nat): StepView
  {
    StepView(At(st.floatSums, j, Num(0.0)), At(st.floatMeans, j, Num(0.0)), At(st.floatCompensatingMeans, j, Num(0.0)),
             At(st.floatPresent, j, false), At(st.histograms, j, Empty), At(st.incrementalMeans, j, false),
             At(st.groupSeriesCounts, j, 0))
  }

  /** `r` differs from `st` only in the float arrays at step `idx`: nothing else
      changes, the means array may be acquired (zero-valued), and a step that has
      switched to incremental means stays switched. */
  predicate FloatsOnlyAt(st: AvgState, r: AvgState, idx: nat, steps: nat)
  {
    r.floatPresent == st.floatPresent && r.histograms == st.histograms &&
    r.histogramPointCount == st.histogramPointCount && r.groupSeriesCounts == st.groupSeriesCounts &&
    |r.floatSums| == |st.floatSums| && |r.floatCompensatingMeans| == |st.floatCompensatingMeans| &&
    |r.incrementalMeans| == |st.incrementalMeans| &&
    (|r.floatMeans| == |st.floatMeans| || (|st.floatMeans| == 0 && |r.floatMeans| == steps)) &&
    (forall j :: 0 <= j < steps && j != idx ==> View(r, j) == View(st, j)) &&
    (View(st, idx).incremental ==> View(r, idx).incremental) &&
    (View(r, idx).incremental ==> |r.floatMeans| == steps)
  }

  lemma IncrementalStepOnlyAt(st: AvgState, idx: nat, f: Float, kahan: KahanSumInc, steps: nat)
    requires idx < |st.floatMeans| == steps && idx < |st.floatCompensatingMeans| && idx < |st.groupSeriesCounts|
    requires st.groupSeriesCounts[idx] >= 1
    ensures FloatsOnlyAt(st, IncrementalStep(st, idx, f, kahan), idx, steps)
  {
  }

  lemma MeanStepOnlyAt(st: AvgState, idx: nat, f: Float, steps: nat, kahan: KahanSumInc)
    requires Shaped(st, steps) && idx < steps && |st.floatSums| == steps
    requires st.groupSeriesCounts[idx] >= 2
    ensures FloatsOnlyAt(st, MeanStep(st, idx, f, steps, kahan), idx, steps)
  {
    if !st.incrementalMeans[idx] {
      var (newV, newC) := kahan(f, st.floatSums[idx], st.floatCompensatingMeans[idx]);
      if newV.Inf? {
        var mid := Switched(st, idx, steps);
        assert FloatsOnlyAt(st, mid, idx, steps);
        IncrementalStepOnlyAt(mid, idx, f, kahan, steps);
      }
    } else {
      IncrementalStepOnlyAt(st, idx, f, kahan, steps);
    }
  }

  lemma FloatsOnlyAtShaped(st: AvgState, r: AvgState, idx: nat, steps: nat)
    requires Shaped(st, steps) && idx < steps && FloatsOnlyAt(st, r, idx, steps)
    ensures Shaped(r, steps)
  {
    forall i | 0 <= i < |r.incrementalMeans| && r.incrementalMeans[i]
      ensures |r.floatMeans| == steps
    {
      if i != idx {
        assert View(r, i) == View(st, i);
      }
    }
  }

  lemma RemoveConflictKeeps(st: AvgState, idx: nat, steps: nat, removal: Removal)
    requires Shaped(st, steps) && idx < steps && |st.floatPresent| == steps && |st.histograms| == steps
    ensures var r := RemoveConflict(st, idx, removal);
      Shaped(r, steps) && |r.floatSums| == |st.floatSums| && |r.histograms| == steps &&
      (forall j :: 0 <= j < steps && j != idx ==> View(r, j) == View(st, j)) &&
      !View(r, idx).present && View(r, idx).slot == Empty && View(r, idx).count == View(st, idx).count
  {
  }

  lemma CountInKeeps(st: AvgState, idx: nat, steps: nat)
    requires Shaped(st, steps) && idx < steps && |st.groupSeriesCounts| == steps
    ensures var r := CountIn(st, idx);
      Shaped(r, steps) && r.groupSeriesCounts[idx] >= 1 &&
      (forall j :: 0 <= j < steps && j != idx ==> View(r, j) == View(st, j)) &&
      View(r, idx) == View(st, idx).(count := View(st, idx).count + 1)
  {
  }

  lemma FirstFloatKeeps(st: AvgState, idx: nat, f: Float, steps: nat)
    requires Shaped(st, steps) && idx < steps && |st.floatSums| == steps
    requires !st.floatPresent[idx] && st.groupSeriesCounts[idx] >= 1
    requires |st.histograms| == 0 || st.histograms[idx].Empty?
    ensures var r := st.(floatSums := st.floatSums[idx := f], floatPresent := st.floatPresent[idx := true]);
      Shaped(r, steps) && |r.histograms| == |st.histograms| &&
      (forall j :: 0 <= j < steps && j != idx ==> View(r, j) == View(st, j)) &&
      View(r, idx).present && View(r, idx).count == View(st, idx).count && View(r, idx).slot == Empty
  {
  }

  /** One float keeps the shape, touches no step but its own, and is counted at its
      step exactly when it does not conflict with a histogram there; either way the
      step is left without a histogram, holding a float exactly when there was no
      conflict. */
  lemma FloatStepKeeps(st: AvgState, idx: nat, f: Float, steps: nat, kahan: KahanSumInc, removal: Removal)
    requires Shaped(st, steps) && idx < steps && |st.floatSums| == steps
    ensures var (r, mixed) := FloatStep(st, idx, f, steps, kahan, removal);
      Shaped(r, steps) && |r.floatSums| == steps && |r.histograms| == |st.histograms| &&
      (forall j :: 0 <= j < steps && j != idx ==> View(r, j) == View(st, j)) &&
      (mixed <==> View(st, idx).slot != Empty) &&
      View(r, idx).count == View(st, idx).count + (if mixed then 0 else 1) &&
      View(r, idx).present == !mixed && View(r, idx).slot == Empty
  {
    if |st.histograms| > 0 && !st.histograms[idx].Empty? {
      RemoveConflictKeeps(st, idx, steps, removal);
    } else {
      var st1 := CountIn(st, idx);
      CountInKeeps(st, idx, steps);
      if !st.floatPresent[idx] {
        FirstFloatKeeps(st1, idx, f, steps);
      } else {
        MeanStepOnlyAt(st1, idx, f, steps, kahan);
        FloatsOnlyAtShaped(st1, MeanStep(st1, idx, f, steps, kahan), idx, steps);
      }
    }
  }

  lemma SlotSetKeeps(st: AvgState, idx: nat, x: Slot, delta: int, steps: nat)
    requires Shaped(st, steps) && idx < steps && |st.histograms| == steps
    requires |st.floatPresent| == 0 || !st.floatPresent[idx]
    ensures var r := st.(histograms := st.histograms[idx := x], histogramPointCount := st.histogramPointCount + delta);
      Shaped(r, steps) && (forall j :: 0 <= j < steps && j != idx ==> View(r, j) == View(st, j)) &&
      View(r, idx) == View(st, idx).(slot := x)
  {
  }

  /** Moving a mean keeps the shape and touches only the step's slot, which holds a
      mean or the sentinel afterwards. */
  lemma MoveMeanKeeps(st: AvgState, idx: nat, cur: Histogram, h: Histogram, count: nat, steps: nat, ops: HistogramOps)
    requires Shaped(st, steps) && idx < steps && |st.histograms| == steps && count > 0
    requires |st.floatPresent| == 0 || !st.floatPresent[idx]
    ensures var a := MoveMean(st, idx, cur, h, count, ops);
      Shaped(a.st, steps) && (forall j :: 0 <= j < steps && j != idx ==> View(a.st, j) == View(st, j)) &&
      View(a.st, idx) == View(st, idx).(slot := a.st.histograms[idx]) && !a.mixed &&
      (a.st.histograms[idx].Invalid? || a.st.histograms[idx].Mean?) &&
      a.st.histogramPointCount == st.histogramPointCount - (if a.st.histograms[idx].Invalid? then 1 else 0)
    ensures var d := ops.sub(ops.div(h, count as real), ops.div(cur, count as real));
      var a := MoveMean(st, idx, cur, h, count, ops);
      d.HistogramFailed? ==>
        a.st.histograms[idx] == Invalid && (a.err.Some? <==> !ops.recognised(d.err))
    ensures var d := ops.sub(ops.div(h, count as real), ops.div(cur, count as real));
      var a := MoveMean(st, idx, cur, h, count, ops);
      d.HistogramOk? && ops.add(cur, d.h).HistogramFailed? ==>
        a.st.histograms[idx] == Invalid && (a.err.Some? <==> !ops.recognised(ops.add(cur, d.h).err))
    ensures var d := ops.sub(ops.div(h, count as real), ops.div(cur, count as real));
      var a := MoveMean(st, idx, cur, h, count, ops);
      d.HistogramOk? && ops.add(cur, d.h).HistogramOk? ==>
        a.st.histograms[idx] == Mean(ops.add(cur, d.h).h) && a.err.None?
  {
    var c := count as real;
    match ops.sub(ops.div(h, c), ops.div(cur, c))
    case HistogramFailed(e) =>
      SlotSetKeeps(st, idx, Invalid, -1, steps);
    case HistogramOk(toAdd) =>
      match ops.add(cur, toAdd)
      case HistogramFailed(e) =>
        SlotSetKeeps(st, idx, Invalid, -1, steps);
      case HistogramOk(sum) =>
        SlotSetKeeps(st, idx, Mean(sum), 0, steps);
  }

  /** Every step other than `idx` reads the same in `r` as in `st`. */
  predicate SameElsewhere(st: AvgState, r: AvgState, idx: nat, steps: nat)
  {
    forall j :: 0 <= j < steps && j != idx ==> View(r, j) == View(st, j)
  }

  /** What one histogram leaves: the shape kept, no other step touched, the step
      counted exactly when there was no conflict (a float there), the step without a
      float, and after a conflict without a histogram and without an error. */
  predicate HistogramOutcome(st: AvgState, a: Acc, idx: nat, steps: nat)
    requires idx < steps
  {
    Shaped(a.st, steps) && |a.st.floatSums| == |st.floatSums| && |a.st.histograms| == steps &&
    SameElsewhere(st, a.st, idx, steps) &&
    (a.mixed <==> View(st, idx).present) &&
    View(a.st, idx).count == View(st, idx).count + (if a.mixed then 0 else 1) &&
    !View(a.st, idx).present &&
    (a.mixed ==> View(a.st, idx).slot == Empty && a.err.None?)
  }

  lemma HistogramConflictKeeps(st: AvgState, idx: nat, h: Histogram, steps: nat, ops: HistogramOps, removal: Removal)
    requires Shaped(st, steps) && idx < steps && |st.histograms| == steps
    requires |st.floatPresent| > 0 && st.floatPresent[idx]
    ensures HistogramOutcome(st, HistogramStep(st, idx, h, steps, ops, removal), idx, steps)
  {
    RemoveConflictKeeps(st, idx, steps, removal);
  }

  lemma HistogramFirstKeeps(st: AvgState, idx: nat, h: Histogram, steps: nat, ops: HistogramOps, removal: Removal)
    requires Shaped(st, steps) && idx < steps && |st.histograms| == steps
    requires |st.floatPresent| == 0 || !st.floatPresent[idx]
    requires st.histograms[idx].Empty?
    ensures HistogramOutcome(st, HistogramStep(st, idx, h, steps, ops, removal), idx, steps)
  {
    CountInKeeps(st, idx, steps);
    SlotSetKeeps(CountIn(st, idx), idx, Mean(h), 1, steps);
  }

  lemma HistogramSentinelKeeps(st: AvgState, idx: nat, h: Histogram, steps: nat, ops: HistogramOps, removal: Removal)
    requires Shaped(st, steps) && idx < steps && |st.histograms| == steps
    requires |st.floatPresent| == 0 || !st.floatPresent[idx]
    requires st.histograms[idx].Invalid?
    ensures HistogramOutcome(st, HistogramStep(st, idx, h, steps, ops, removal), idx, steps)
  {
    CountInKeeps(st, idx, steps);
  }

  lemma HistogramMoveKeeps(st: AvgState, idx: nat, h: Histogram, steps: nat, ops: HistogramOps, removal: Removal)
    requires Shaped(st, steps) && idx < steps && |st.histograms| == steps
    requires |st.floatPresent| == 0 || !st.floatPresent[idx]
    requires st.histograms[idx].Mean?
    ensures HistogramOutcome(st, HistogramStep(st, idx, h, steps, ops, removal), idx, steps)
  {
    CountInKeeps(st, idx, steps);
    MoveMeanKeeps(CountIn(st, idx), idx, st.histograms[idx].h, h, st.groupSeriesCounts[idx] + 1, steps, ops);
  }

  lemma HistogramStepKeeps(st: AvgState, idx: nat, h: Histogram, steps: nat, ops: HistogramOps, removal: Removal)
    requires Shaped(st, steps) && idx < steps && |st.histograms| == steps
    ensures HistogramOutcome(st, HistogramStep(st, idx, h, steps, ops, removal), idx, steps)
  {
    if |st.floatPresent| > 0 && st.floatPresent[idx] {
      HistogramConflictKeeps(st, idx, h, steps, ops, removal);
    } else if st.histograms[idx].Empty? {
      HistogramFirstKeeps(st, idx, h, steps, ops, removal);
    } else if st.histograms[idx].Invalid? {
      HistogramSentinelKeeps(st, idx, h, steps, ops, removal);
    } else {
      HistogramMoveKeeps(st, idx, h, steps, ops, removal);
    }
  }

  // ----- histogramPointCount -----

  lemma {:induction false} CountMeansUpdate(slots: seq<Slot>, i: nat, x: Slot)
    requires i < |slots|
    ensures CountMeans(slots[i := x]) == CountMeans(slots) - (if slots[i].Mean? then 1 else 0) + (if x.Mean? then 1 else 0)
    decreases |slots|
  {
    var n := |slots| - 1;
    if i < n {
      assert slots[i := x][..n] == slots[..n][i := x];
      CountMeansUpdate(slots[..n], i, x);
    } else {
      assert slots[i := x][..n] == slots[..n];
    }
  }

  /** With the corrected removal, a float keeps histogramPointCount equal to the number
      of steps holding a histogram mean. */
  lemma FloatStepCounted(st: AvgState, idx: nat, f: Float, steps: nat, kahan: KahanSumInc)
    requires Shaped(st, steps) && idx < steps && |st.floatSums| == steps && Counted(st)
    ensures Counted(FloatStep(st, idx, f, steps, kahan, Corrected).0)
  {
    if |st.histograms| > 0 && !st.histograms[idx].Empty? {
      CountMeansUpdate(st.histograms, idx, Empty);
    } else if st.floatPresent[idx] {
      MeanStepOnlyAt(CountIn(st, idx), idx, f, steps, kahan);
    }
  }

  /** Replacing one slot and moving the count by the change in means keeps it
      counted. */
  lemma SlotCounted(st: AvgState, r: AvgState, idx: nat)
    requires idx < |st.histograms| && |r.histograms| == |st.histograms| && Counted(st)
    requires r.histograms == st.histograms[idx := r.histograms[idx]]
    requires r.histogramPointCount == st.histogramPointCount - (if st.histograms[idx].Mean? then 1 else 0) +
                                      (if r.histograms[idx].Mean? then 1 else 0)
    ensures Counted(r)
  {
    CountMeansUpdate(st.histograms, idx, r.histograms[idx]);
  }

  /** With the corrected removal, a histogram keeps histogramPointCount equal to the
      number of steps holding a histogram mean. */
  lemma HistogramStepCounted(st: AvgState, idx: nat, h: Histogram, steps: nat, ops: HistogramOps)
    requires Shaped(st, steps) && idx < steps && |st.histograms| == steps && Counted(st)
    ensures Counted(HistogramStep(st, idx, h, steps, ops, Corrected).st)
  {
    var a := HistogramStep(st, idx, h, steps, ops, Corrected);
    if |st.floatPresent| > 0 && st.floatPresent[idx] {
      SlotCounted(st, a.st, idx);
    } else if st.histograms[idx].Empty? {
      SlotCounted(st, a.st, idx);
    } else if st.histograms[idx].Mean? {
      var st1 := CountIn(st, idx);
      MoveMeanKeeps(st1, idx, st.histograms[idx].h, h, st.groupSeriesCounts[idx] + 1, steps, ops);
      SlotCounted(st, a.st, idx);
    }
  }


  /** A step switches to incremental means only when it already holds a float and the
      compensated sum with the new sample would be infinite, and never switches back. */
  lemma IncrementalOnlyOnOverflow(st: AvgState, idx: nat, f: Float, steps: nat, kahan: KahanSumInc, removal: Removal)
    requires Shaped(st, steps) && idx < steps && |st.floatSums| == steps
    ensures var r := FloatStep(st, idx, f, steps, kahan, removal).0;
      |r.incrementalMeans| == steps &&
      (st.incrementalMeans[idx] ==> r.incrementalMeans[idx]) &&
      (!st.incrementalMeans[idx] && r.incrementalMeans[idx] ==>
         st.floatPresent[idx] && kahan(f, st.floatSums[idx], st.floatCompensatingMeans[idx]).0.Inf?)
  {
    if !(|st.histograms| > 0 && !st.histograms[idx].Empty?) && st.floatPresent[idx] {
      CountInKeeps(st, idx, steps);
      MeanStepOnlyAt(CountIn(st, idx), idx, f, steps, kahan);
    }
  }

  // ----- One series -----

  /** The float loop over a series' points, in order; the flag says whether any point
      conflicted. */
  function FloatsInto(st: AvgState, pts: seq<FPoint>, steps: nat, start: int, interval: int,
                      kahan: KahanSumInc, removal: Removal): (r: (AvgState, bool))
    requires Shaped(st, steps) && |st.floatSums| == steps && GroupFold.OnSlots(pts, start, interval, steps)
    ensures Shaped(r.0, steps) && |r.0.floatSums| == steps && |r.0.histograms| == |st.histograms|
    decreases |pts|
  {
    if pts == [] then (st, false)
    else
      var n := |pts| - 1;
      assert OnGrid(pts[n].t, start, interval, steps);
      var prev := FloatsInto(st, pts[..n], steps, start, interval, kahan, removal);
      var idx := StepIndex(pts[n].t, start, interval);
      FloatStepKeeps(prev.0, idx, pts[n].v, steps, kahan, removal);
      var next := FloatStep(prev.0, idx, pts[n].v, steps, kahan, removal);
      (next.0, prev.1 || next.1)
  }

  /** The histogram loop over a series' points, in order, up to the first error that
      ends the call. */
  function HistogramsInto(st: AvgState, pts: seq<HPoint>, steps: nat, start: int, interval: int,
                          ops: HistogramOps, removal: Removal): (r: Acc)
    requires Shaped(st, steps) && |st.histograms| == steps && GroupFold.OnSlots(pts, start, interval, steps)
    ensures Shaped(r.st, steps) && |r.st.histograms| == steps && |r.st.floatSums| == |st.floatSums|
    decreases |pts|
  {
    if pts == [] then Acc(st, false, None)
    else
      var n := |pts| - 1;
      assert OnGrid(pts[n].t, start, interval, steps);
      var prev := HistogramsInto(st, pts[..n], steps, start, interval, ops, removal);
      if prev.err.Some? then prev
      else
        var idx := StepIndex(pts[n].t, start, interval);
        HistogramStepKeeps(prev.st, idx, pts[n].v, steps, ops, removal);
        var next := HistogramStep(prev.st, idx, pts[n].v, steps, ops, removal);
        Acc(next.st, prev.mixed || next.mixed, next.err)
  }

  /** The counts, acquired zero-valued on the first series. */
  function AcquireCounts(st: AvgState, steps: nat): (r: AvgState)
    requires Shaped(st, steps)
    ensures Shaped(r, steps) && |r.groupSeriesCounts| == steps
    ensures forall j :: 0 <= j < steps ==> View(r, j) == View(st, j)
    ensures r.histograms == st.histograms && r.histogramPointCount == st.histogramPointCount
    ensures |r.floatSums| == |st.floatSums|
  {
    st.(groupSeriesCounts := if |st.groupSeriesCounts| == 0 then GroupFold.Filled(steps, 0) else st.groupSeriesCounts)
  }

  /** The four float arrays, acquired zero-valued on the first series with floats. */
  function AcquireFloats(st: AvgState, s: SeriesData, steps: nat): (r: AvgState)
    requires Shaped(st, steps) && |st.groupSeriesCounts| == steps
    ensures Shaped(r, steps) && |r.groupSeriesCounts| == steps
    ensures |s.floats| > 0 ==> |r.floatSums| == steps
    ensures forall j :: 0 <= j < steps ==> View(r, j) == View(st, j)
    ensures r.histograms == st.histograms && r.histogramPointCount == st.histogramPointCount
  {
    if |s.floats| > 0 && |st.floatSums| == 0 then
      st.(floatSums := GroupFold.Filled(steps, Num(0.0)), floatCompensatingMeans := GroupFold.Filled(steps, Num(0.0)),
          floatPresent := GroupFold.Filled(steps, false), incrementalMeans := GroupFold.Filled(steps, false))
    else st
  }

  /** The histogram slots, acquired empty on the first series with histograms. */
  function AcquireHistograms(st: AvgState, s: SeriesData, steps: nat): (r: AvgState)
    requires Shaped(st, steps) && |st.groupSeriesCounts| == steps
    ensures Shaped(r, steps) && |r.groupSeriesCounts| == steps
    ensures |s.histograms| > 0 ==> |r.histograms| == steps
    ensures |r.floatSums| == |st.floatSums|
    ensures forall j :: 0 <= j < steps ==> View(r, j) == View(st, j)
    ensures CountMeans(r.histograms) == CountMeans(st.histograms) && r.histogramPointCount == st.histogramPointCount
  {
    FilledEmpty(steps);
    if |s.histograms| > 0 && |st.histograms| == 0 then st.(histograms := GroupFold.Filled(steps, Empty)) else st
  }

  /** The arrays a series needs: the counts always, the four float arrays on the first
      series with floats, the histogram slots on the first series with histograms; each
      acquired zero-valued, so that no step reads differently. */
  function Acquire(st: AvgState, s: SeriesData, steps: nat): (r: AvgState)
    requires Shaped(st, steps)
    ensures Shaped(r, steps) && |r.groupSeriesCounts| == steps
    ensures |s.floats| > 0 ==> |r.floatSums| == steps
    ensures |s.histograms| > 0 ==> |r.histograms| == steps
    ensures forall j :: 0 <= j < steps ==> View(r, j) == View(st, j)
    ensures CountMeans(r.histograms) == CountMeans(st.histograms) && r.histogramPointCount == st.histogramPointCount
  {
    AcquireHistograms(AcquireFloats(AcquireCounts(st, steps), s, steps), s, steps)
  }

  lemma {:induction false} FilledEmpty(steps: nat)
    ensures CountMeans(GroupFold.Filled(steps, Empty)) == 0
  {
    if steps > 0 {
      assert GroupFold.Filled(steps, Empty)[..steps - 1] == GroupFold.Filled(steps - 1, Empty);
      FilledEmpty(steps - 1);
    }
  }

  /** The two loops of AccumulateSeries, over arrays already acquired: the float points,
      then the histogram points. The result is whether a conflict was removed, or the
      error that ended the call. */
  function AccumulatePoints(a: AvgState, s: SeriesData, steps: nat, start: int, interval: int,
                            kahan: KahanSumInc, ops: HistogramOps, removal: Removal): (r: (AvgState, Result<bool>))
    requires Shaped(a, steps) && InRange(s, start, interval, steps)
    requires |s.floats| > 0 ==> |a.floatSums| == steps
    requires |s.histograms| > 0 ==> |a.histograms| == steps
    ensures Shaped(r.0, steps)
  {
    var fl := if |s.floats| > 0 then FloatsInto(a, s.floats, steps, start, interval, kahan, removal) else (a, false);
    var hs := if |s.histograms| > 0 then HistogramsInto(fl.0, s.histograms, steps, start, interval, ops, removal)
              else Acc(fl.0, false, None);
    if hs.err.Some? then (hs.st, Err(HistogramFailure(hs.err.value)))
    else (hs.st, Ok(fl.1 || hs.mixed))
  }

  /** AccumulateSeries on the model: acquire, then the two loops. */
  function Accumulate(st: AvgState, s: SeriesData, steps: nat, start: int, interval: int,
                      kahan: KahanSumInc, ops: HistogramOps, removal: Removal): (r: (AvgState, Result<bool>))
    requires Shaped(st, steps) && InRange(s, start, interval, steps)
    ensures Shaped(r.0, steps)
  {
    AccumulatePoints(Acquire(st, s, steps), s, steps, start, interval, kahan, ops, removal)
  }

  /** A fold that has failed ignores the next point. */
  lemma HistogramsIntoKeepsError(st: AvgState, pts: seq<HPoint>, steps: nat, start: int, interval: int,
                                 ops: HistogramOps, removal: Removal)
    requires Shaped(st, steps) && |st.histograms| == steps && GroupFold.OnSlots(pts, start, interval, steps) && pts != []
    requires HistogramsInto(st, pts[..|pts| - 1], steps, start, interval, ops, removal).err.Some?
    ensures HistogramsInto(st, pts, steps, start, interval, ops, removal) ==
      HistogramsInto(st, pts[..|pts| - 1], steps, start, interval, ops, removal)
  {
  }

  /** One more point, while the fold has not failed: its step applied to the fold so far. */
  lemma HistogramsIntoNext(st: AvgState, pts: seq<HPoint>, k: nat, steps: nat, start: int, interval: int,
                           ops: HistogramOps, removal: Removal)
    requires Shaped(st, steps) && |st.histograms| == steps && GroupFold.OnSlots(pts, start, interval, steps) && k < |pts|
    requires HistogramsInto(st, pts[..k], steps, start, interval, ops, removal).err.None?
    ensures OnGrid(pts[k].t, start, interval, steps)
    ensures var prev := HistogramsInto(st, pts[..k], steps, start, interval, ops, removal);
            var next := HistogramStep(prev.st, StepIndex(pts[k].t, start, interval), pts[k].v, steps, ops, removal);
            HistogramsInto(st, pts[..k + 1], steps, start, interval, ops, removal) == Acc(next.st, prev.mixed || next.mixed, next.err)
  {
    assert OnGrid(pts[k].t, start, interval, steps);
    assert pts[..k + 1][..k] == pts[..k];
  }

  /** The histogram loop ends at the first error: the points after it change
      nothing. */
  lemma {:induction false} HistogramsIntoStops(st: AvgState, pts: seq<HPoint>, m: nat, steps: nat, start: int, interval: int,
                                                ops: HistogramOps, removal: Removal)
    requires Shaped(st, steps) && |st.histograms| == steps && GroupFold.OnSlots(pts, start, interval, steps)
    requires m <= |pts| && HistogramsInto(st, pts[..m], steps, start, interval, ops, removal).err.Some?
    ensures HistogramsInto(st, pts, steps, start, interval, ops, removal) == HistogramsInto(st, pts[..m], steps, start, interval, ops, removal)
    decreases |pts|
  {
    if m < |pts| {
      var init := pts[..|pts| - 1];
      assert init[..m] == pts[..m];
      assert GroupFold.OnSlots(init, start, interval, steps);
      HistogramsIntoStops(st, init, m, steps, start, interval, ops, removal);
      HistogramsIntoKeepsError(st, pts, steps, start, interval, ops, removal);
    } else {
      assert pts[..m] == pts;
    }
  }

  lemma {:induction false} FloatsIntoCounted(st: AvgState, pts: seq<FPoint>, steps: nat, start: int, interval: int, kahan: KahanSumInc)
    requires Shaped(st, steps) && |st.floatSums| == steps && GroupFold.OnSlots(pts, start, interval, steps)
    requires Counted(st)
    ensures Counted(FloatsInto(st, pts, steps, start, interval, kahan, Corrected).0)
    decreases |pts|
  {
    if pts != [] {
      var n := |pts| - 1;
      assert OnGrid(pts[n].t, start, interval, steps);
      FloatsIntoCounted(st, pts[..n], steps, start, interval, kahan);
      var prev := FloatsInto(st, pts[..n], steps, start, interval, kahan, Corrected);
      FloatStepCounted(prev.0, StepIndex(pts[n].t, start, interval), pts[n].v, steps, kahan);
    }
  }

  lemma {:induction false} HistogramsIntoCounted(st: AvgState, pts: seq<HPoint>, steps: nat, start: int, interval: int, ops: HistogramOps)
    requires Shaped(st, steps) && |st.histograms| == steps && GroupFold.OnSlots(pts, start, interval, steps)
    requires Counted(st)
    ensures Counted(HistogramsInto(st, pts, steps, start, interval, ops, Corrected).st)
    decreases |pts|
  {
    if pts != [] {
      var n := |pts| - 1;
      assert OnGrid(pts[n].t, start, interval, steps);
      HistogramsIntoCounted(st, pts[..n], steps, start, interval, ops);
      var prev := HistogramsInto(st, pts[..n], steps, start, interval, ops, Corrected);
      if prev.err.None? {
        HistogramStepCounted(prev.st, StepIndex(pts[n].t, start, interval), pts[n].v, steps, ops);
      }
    }
  }

  /** With the corrected removal, a whole series keeps histogramPointCount equal to the
      number of steps holding a histogram mean, whether or not the call fails. */
  lemma AccumulateCounted(st: AvgState, s: SeriesData, steps: nat, start: int, interval: int,
                          kahan: KahanSumInc, ops: HistogramOps)
    requires Shaped(st, steps) && InRange(s, start, interval, steps) && Counted(st)
    ensures Counted(Accumulate(st, s, steps, start, interval, kahan, ops, Corrected).0)
  {
    var a := Acquire(st, s, steps);
    if |s.floats| > 0 {
      FloatsIntoCounted(a, s.floats, steps, start, interval, kahan);
    }
    var fl := if |s.floats| > 0 then FloatsInto(a, s.floats, steps, start, interval, kahan, Corrected) else (a, false);
    if |s.histograms| > 0 {
      HistogramsIntoCounted(fl.0, s.histograms, steps, start, interval, ops);
    }
  }

  // ----- Output -----

  /** A present step's average: the incremental mean plus its compensation, or the
      compensated sum over the step's count. */
  function FloatValue(st: AvgState, steps: nat, i: nat): Float
    requires Shaped(st, steps) && i < |st.floatPresent| && st.floatPresent[i]
  {
    if st.incrementalMeans[i] then Add(st.floatMeans[i], st.floatCompensatingMeans[i])
    else DivBy(Add(st.floatSums[i], st.floatCompensatingMeans[i]), st.groupSeriesCounts[i] as real)
  }

  function FloatSlots(st: AvgState, steps: nat): (r: seq<Option<Float>>)
    requires Shaped(st, steps)
    ensures |r| == |st.floatPresent|
  {
    seq(|st.floatPresent|, i requires 0 <= i < |st.floatPresent| =>
      if st.floatPresent[i] then Some(FloatValue(st, steps, i)) else None)
  }

  /** The steps holding a histogram mean, each compacted; empty and sentinel steps hold
      nothing. */
  function HistogramSlots(slots: seq<Slot>, compact: Histogram -> Histogram): (r: seq<Option<Histogram>>)
    ensures |r| == |slots|
    ensures forall i :: 0 <= i < |slots| ==> (r[i].Some? <==> slots[i].Mean?)
  {
    seq(|slots|, i requires 0 <= i < |slots| => if slots[i].Mean? then Some(compact(slots[i].h)) else None)
  }

  /** ComputeOutputSeries on the model: a float point per present step, and, when
      histogramPointCount is positive, a histogram point per step holding a mean. */
  function Output(st: AvgState, steps: nat, start: int, interval: int, compact: Histogram -> Histogram): SeriesData
    requires Shaped(st, steps)
  {
    SeriesData(Sparse(FloatSlots(st, steps), start, interval),
               if st.histogramPointCount > 0 then Sparse(HistogramSlots(st.histograms, compact), start, interval) else [])
  }
  /** As many float points are emitted as steps are flagged present. */
  lemma FloatSlotsCount(st: AvgState, steps: nat)
    requires Shaped(st, steps)
    ensures CountSome(FloatSlots(st, steps)) == CountTrue(st.floatPresent)
  {
    var values := seq(|st.floatPresent|, i requires 0 <= i < |st.floatPresent| =>
      if st.floatPresent[i] then FloatValue(st, steps, i) else Num(0.0));
    assert FloatSlots(st, steps) == Zip(st.floatPresent, values);
    ZipCount(st.floatPresent, values);
  }


  lemma {:induction false} HistogramSlotsCount(slots: seq<Slot>, compact: Histogram -> Histogram)
    ensures CountSome(HistogramSlots(slots, compact)) == CountMeans(slots)
  {
    if slots != [] {
      var n := |slots| - 1;
      assert HistogramSlots(slots, compact)[..n] == HistogramSlots(slots[..n], compact);
      HistogramSlotsCount(slots[..n], compact);
    }
  }

  /** While histogramPointCount counts the means, every step holding a mean is emitted,
      at its grid time, and nothing else is. */
  lemma OutputHasEveryMean(st: AvgState, steps: nat, start: int, interval: int, compact: Histogram -> Histogram)
    requires Shaped(st, steps) && Counted(st)
    ensures Output(st, steps, start, interval, compact).histograms == Sparse(HistogramSlots(st.histograms, compact), start, interval)
    ensures forall p :: p in Output(st, steps, start, interval, compact).histograms <==>
      exists i :: 0 <= i < |st.histograms| && st.histograms[i].Mean? &&
        p == Point(StepTime(start, interval, i), compact(st.histograms[i].h))
  {
    HistogramSlotsCount(st.histograms, compact);
    if st.histogramPointCount <= 0 {
      SparseNone(HistogramSlots(st.histograms, compact), start, interval);
    }
    SparseMembers(HistogramSlots(st.histograms, compact), start, interval);
  }

  lemma StepTimeInjective(i: int, k: int, start: int, interval: int)
    requires interval > 0
    ensures StepTime(start, interval, i) == StepTime(start, interval, k) ==> i == k
  {
    if i < k {
      MulNonNegative(k - i - 1, interval);
      assert StepTime(start, interval, k) - StepTime(start, interval, i) == (k - i - 1) * interval + interval;
    } else if k < i {
      MulNonNegative(i - k - 1, interval);
      assert StepTime(start, interval, i) - StepTime(start, interval, k) == (i - k - 1) * interval + interval;
    }
  }

  /** The output never holds a float and a histogram at the same time. */
  lemma OutputSeparated(st: AvgState, steps: nat, start: int, interval: int, compact: Histogram -> Histogram)
    requires Shaped(st, steps) && interval > 0
    ensures forall p, q :: (p in Output(st, steps, start, interval, compact).floats &&
      q in Output(st, steps, start, interval, compact).histograms) ==> p.t != q.t
  {
    var out := Output(st, steps, start, interval, compact);
    var fs := FloatSlots(st, steps);
    var hs := HistogramSlots(st.histograms, compact);
    SparseMembers(fs, start, interval);
    SparseMembers(hs, start, interval);
    forall p, q | p in out.floats && q in out.histograms
      ensures p.t != q.t
    {
      var i :| 0 <= i < |fs| && fs[i] == Some(p.v) && p.t == StepTime(start, interval, i);
      var k :| 0 <= k < |hs| && hs[k] == Some(q.v) && q.t == StepTime(start, interval, k);
      StepTimeInjective(i, k, start, interval);
      assert st.floatPresent[i] && st.histograms[k].Mean?;
    }
  }

  // ----- The histogramPointCount finding -----

  /** A group over two steps (start 0, interval 1): the first series has a float at
      step 0, the second histograms at steps 0 and 1. */
  function TwoSeries(f: Float, h: Histogram, kahan: KahanSumInc, ops: HistogramOps, removal: Removal): (r: AvgState)
    ensures Shaped(r, 2)
  {
    var first := Accumulate(EmptyState(), SeriesData([Point(0, f)], []), 2, 0, 1, kahan, ops, removal).0;
    Accumulate(first, SeriesData([], [Point(0, h), Point(1, h)]), 2, 0, 1, kahan, ops, removal).0
  }

  function FirstState(f: Float): AvgState
  {
    AvgState([f, Num(0.0)], [], [Num(0.0), Num(0.0)], [true, false], [], 0, [false, false], [1, 0])
  }

  function ConflictState(f: Float, removal: Removal): AvgState
  {
    AvgState([f, Num(0.0)], [], [Num(0.0), Num(0.0)], [false, false], [Empty, Empty],
             if removal == AsWritten then -1 else 0, [false, false], [1, 0])
  }

  function FinalState(f: Float, h: Histogram, removal: Removal): AvgState
  {
    AvgState([f, Num(0.0)], [], [Num(0.0), Num(0.0)], [false, false], [Empty, Mean(h)],
             if removal == AsWritten then 0 else 1, [false, false], [1, 1])
  }

  function ZeroState(): AvgState
  {
    AvgState([Num(0.0), Num(0.0)], [], [Num(0.0), Num(0.0)], [false, false], [], 0, [false, false], [0, 0])
  }

  lemma FirstSeriesSteps(f: Float, kahan: KahanSumInc, removal: Removal)
    ensures Shaped(ZeroState(), 2) && Acquire(EmptyState(), SeriesData([Point(0, f)], []), 2) == ZeroState()
    ensures FloatStep(ZeroState(), 0, f, 2, kahan, removal) == (FirstState(f), false)
  {
    assert GroupFold.Filled(2, Num(0.0)) == [Num(0.0), Num(0.0)];
    assert GroupFold.Filled(2, false) == [false, false];
    assert GroupFold.Filled(2, 0) == [0, 0];
    assert [Num(0.0), Num(0.0)][0 := f] == [f, Num(0.0)];
    assert [false, false][0 := true] == [true, false];
    assert [0, 0][0 := 0 + 1] == [1, 0];
  }

  lemma FirstSeriesState(f: Float, kahan: KahanSumInc, ops: HistogramOps, removal: Removal)
    ensures Accumulate(EmptyState(), SeriesData([Point(0, f)], []), 2, 0, 1, kahan, ops, removal).0 == FirstState(f)
  {
    FirstSeriesSteps(f, kahan, removal);
    assert [Point(0, f)][..0] == [];
    assert FloatsInto(ZeroState(), [Point(0, f)], 2, 0, 1, kahan, removal) == (FirstState(f), false);
  }

  lemma AcquireSecond(f: Float, h: Histogram)
    ensures Acquire(FirstState(f), SeriesData([], [Point(0, h), Point(1, h)]), 2) == FirstState(f).(histograms := [Empty, Empty])
  {
    assert GroupFold.Filled(2, Empty) == [Empty, Empty];
  }

  lemma ConflictStep(f: Float, h: Histogram, ops: HistogramOps, removal: Removal)
    ensures Shaped(ConflictState(f, removal), 2)
    ensures HistogramStep(FirstState(f).(histograms := [Empty, Empty]), 0, h, 2, ops, removal) ==
      Acc(ConflictState(f, removal), true, None)
  {
  }

  lemma SecondHistogramStep(f: Float, h: Histogram, ops: HistogramOps, removal: Removal)
    requires Shaped(ConflictState(f, removal), 2)
    ensures HistogramStep(ConflictState(f, removal), 1, h, 2, ops, removal) == Acc(FinalState(f, h, removal), false, None)
  {
  }

  lemma SecondSeriesState(f: Float, h: Histogram, kahan: KahanSumInc, ops: HistogramOps, removal: Removal)
    ensures Accumulate(FirstState(f), SeriesData([], [Point(0, h), Point(1, h)]), 2, 0, 1, kahan, ops, removal).0 ==
      FinalState(f, h, removal)
  {
    AcquireSecond(f, h);
    ConflictStep(f, h, ops, removal);
    SecondHistogramStep(f, h, ops, removal);
    var pts := [Point(0, h), Point(1, h)];
    var b := FirstState(f).(histograms := [Empty, Empty]);
    assert pts[..1] == [Point(0, h)] && pts[..1][..0] == [];
    assert HistogramsInto(b, pts[..1], 2, 0, 1, ops, removal) == Acc(ConflictState(f, removal), true, None);
    assert HistogramsInto(b, pts, 2, 0, 1, ops, removal) == Acc(FinalState(f, h, removal), true, None);
  }

  lemma TwoSeriesState(f: Float, h: Histogram, kahan: KahanSumInc, ops: HistogramOps, removal: Removal)
    ensures TwoSeries(f, h, kahan, ops, removal) == FinalState(f, h, removal)
  {
    FirstSeriesState(f, kahan, ops, removal);
    SecondSeriesState(f, h, kahan, ops, removal);
  }

  /** As written: the conflict at step 0 took histogramPointCount below zero, so after
      the histogram at step 1 it is 0, and that histogram is not emitted although the
      step holds it. */
  lemma AsWrittenDropsHistogram(f: Float, h: Histogram, kahan: KahanSumInc, ops: HistogramOps)
    ensures var st := TwoSeries(f, h, kahan, ops, AsWritten);
      st.histograms[1] == Mean(h) && !Counted(st) && Output(st, 2, 0, 1, ops.compact).histograms == []
  {
    TwoSeriesState(f, h, kahan, ops, AsWritten);
    assert CountMeans([Empty, Mean(h)]) == 1 by {
      assert [Empty, Mean(h)][..1] == [Empty];
    }
  }

  lemma HistogramSlotsOfFinal(f: Float, h: Histogram, compact: Histogram -> Histogram)
    ensures Sparse(HistogramSlots([Empty, Mean(h)], compact), 0, 1) == [Point(1, compact(h))]
  {
    var hs := HistogramSlots([Empty, Mean(h)], compact);
    assert hs == [None, Some(compact(h))];
    assert hs[..1] == [None] && hs[..1][..0] == [];
    assert Sparse(hs[..1], 0, 1) == [];
    assert StepTime(0, 1, 1) == 1;
  }

  /** Corrected: the same group keeps its count and emits the histogram at step 1. */
  lemma CorrectedKeepsHistogram(f: Float, h: Histogram, kahan: KahanSumInc, ops: HistogramOps)
    ensures var st := TwoSeries(f, h, kahan, ops, Corrected);
      Counted(st) && Output(st, 2, 0, 1, ops.compact).histograms == [Point(1, ops.compact(h))]
  {
    TwoSeriesState(f, h, kahan, ops, Corrected);
    var st := TwoSeries(f, h, kahan, ops, Corrected);
    assert CountMeans([Empty, Mean(h)]) == 1 by {
      assert [Empty, Mean(h)][..1] == [Empty];
    }
    HistogramSlotsOfFinal(f, h, ops.compact);
  }

  // ----- The average, in exact arithmetic -----

  /** Compensated addition where no rounding happens: the increment goes straight into
      the sum and the compensation is left as it is. */
  function ExactKahan(): KahanSumInc
  {
    (x: Float, sum: Float, c: Float) => (Add(sum, x), c)
  }

  predicate AllFinite(vs: seq<Float>)
  {
    forall k :: 0 <= k < |vs| ==> vs[k].Num?
  }

  /** The arithmetic mean of some finite samples. */
  function MeanOf(vs: seq<Float>): Float
    requires vs != []
  {
    DivBy(GroupFold.AddAll(Num(0.0), vs), |vs| as real)
  }

  /** A float-only group whose state holds, for every step, the samples `vals[i]` seen
      there: present exactly when there are some, counted once each, summed, and never
      switched to incremental means. */
  predicate Averages(st: AvgState, vals: seq<seq<Float>>, steps: nat)
  {
    |vals| == steps && |st.histograms| == 0 && st.histogramPointCount == 0 &&
    forall i :: 0 <= i < steps ==>
      AllFinite(vals[i]) &&
      View(st, i).present == (vals[i] != []) && View(st, i).count == |vals[i]| &&
      !View(st, i).incremental && View(st, i).comp == Num(0.0) &&
      (vals[i] != [] ==> View(st, i).sum == GroupFold.AddAll(Num(0.0), vals[i]))
  }

  /** The samples of a series' points added to each step's. */
  function AddValues(vals: seq<seq<Float>>, pts: seq<FPoint>, start: int, interval: int): (r: seq<seq<Float>>)
    requires interval > 0
    ensures |r| == |vals|
  {
    seq(|vals|, i requires 0 <= i < |vals| => vals[i] + GroupFold.ValuesAt(pts, i, start, interval))
  }

  lemma {:induction false} AddAllFinite(vs: seq<Float>)
    requires AllFinite(vs)
    ensures GroupFold.AddAll(Num(0.0), vs).Num?
  {
    if vs != [] {
      AddAllFinite(vs[..|vs| - 1]);
    }
  }

  lemma AddAllSnoc(vs: seq<Float>, f: Float)
    ensures GroupFold.AddAll(Num(0.0), vs + [f]) == Add(GroupFold.AddAll(Num(0.0), vs), f)
  {
    assert (vs + [f])[..|vs|] == vs;
  }

  /** With exact addition, one finite float keeps the state the sum and count of the
      samples at each step, the new one added at its own. */
  lemma FloatStepAverages(st: AvgState, idx: nat, f: Float, steps: nat, vals: seq<seq<Float>>, removal: Removal)
    requires Shaped(st, steps) && idx < steps && |st.floatSums| == steps
    requires Averages(st, vals, steps) && f.Num?
    ensures var r := FloatStep(st, idx, f, steps, ExactKahan(), removal);
      Averages(r.0, vals[idx := vals[idx] + [f]], steps) && !r.1
  {
    var r := FloatStep(st, idx, f, steps, ExactKahan(), removal);
    var vals' := vals[idx := vals[idx] + [f]];
    FloatStepKeeps(st, idx, f, steps, ExactKahan(), removal);
    AddAllSnoc(vals[idx], f);
    if st.floatPresent[idx] {
      AddAllFinite(vals[idx]);
      var st1 := CountIn(st, idx);
      assert ExactKahan()(f, st1.floatSums[idx], st1.floatCompensatingMeans[idx]) ==
        (Add(st.floatSums[idx], f), Num(0.0));
      assert r.0 == st1.(floatSums := st1.floatSums[idx := Add(st.floatSums[idx], f)]);
    } else {
      assert vals[idx] == [];
      assert r.0 == CountIn(st, idx).(floatSums := st.floatSums[idx := f], floatPresent := st.floatPresent[idx := true]);
    }
    assert View(r.0, idx).sum == GroupFold.AddAll(Num(0.0), vals'[idx]);
    forall i | 0 <= i < steps
      ensures AllFinite(vals'[i]) && View(r.0, i).present == (vals'[i] != []) && View(r.0, i).count == |vals'[i]| &&
        !View(r.0, i).incremental && View(r.0, i).comp == Num(0.0) &&
        (vals'[i] != [] ==> View(r.0, i).sum == GroupFold.AddAll(Num(0.0), vals'[i]))
    {
      if i != idx {
        assert View(r.0, i) == View(st, i);
      }
    }
  }

  lemma AddNoValues(vals: seq<seq<Float>>, start: int, interval: int)
    requires interval > 0
    ensures AddValues(vals, [], start, interval) == vals
  {
    forall i | 0 <= i < |vals|
      ensures AddValues(vals, [], start, interval)[i] == vals[i]
    {
      assert vals[i] + [] == vals[i];
    }
  }

  lemma AddValuesSnoc(vals: seq<seq<Float>>, pts: seq<FPoint>, start: int, interval: int)
    requires interval > 0 && pts != [] && start <= pts[|pts| - 1].t
    requires StepIndex(pts[|pts| - 1].t, start, interval) < |vals|
    ensures var n := |pts| - 1; var idx := StepIndex(pts[n].t, start, interval);
      AddValues(vals, pts, start, interval) ==
        AddValues(vals, pts[..n], start, interval)[idx := AddValues(vals, pts[..n], start, interval)[idx] + [pts[n].v]]
  {
    var n := |pts| - 1;
    var idx := StepIndex(pts[n].t, start, interval);
    var before := AddValues(vals, pts[..n], start, interval);
    forall i | 0 <= i < |vals|
      ensures AddValues(vals, pts, start, interval)[i] == before[idx := before[idx] + [pts[n].v]][i]
    {
      var vs := GroupFold.ValuesAt(pts[..n], i, start, interval);
      if i == idx {
        assert vals[i] + (vs + [pts[n].v]) == (vals[i] + vs) + [pts[n].v];
      } else {
        assert vs + [] == vs;
      }
    }
  }

  lemma {:induction false} FloatsIntoAverages(st: AvgState, pts: seq<FPoint>, steps: nat, start: int, interval: int,
                                               vals: seq<seq<Float>>, removal: Removal)
    requires Shaped(st, steps) && |st.floatSums| == steps && GroupFold.OnSlots(pts, start, interval, steps)
    requires Averages(st, vals, steps) && interval > 0
    requires forall k :: 0 <= k < |pts| ==> pts[k].v.Num?
    ensures var r := FloatsInto(st, pts, steps, start, interval, ExactKahan(), removal);
      Averages(r.0, AddValues(vals, pts, start, interval), steps) && !r.1
    decreases |pts|
  {
    if pts == [] {
      AddNoValues(vals, start, interval);
    } else {
      var n := |pts| - 1;
      assert OnGrid(pts[n].t, start, interval, steps);
      FloatsIntoAverages(st, pts[..n], steps, start, interval, vals, removal);
      var prev := FloatsInto(st, pts[..n], steps, start, interval, ExactKahan(), removal);
      var idx := StepIndex(pts[n].t, start, interval);
      FloatStepAverages(prev.0, idx, pts[n].v, steps, AddValues(vals, pts[..n], start, interval), removal);
      AddValuesSnoc(vals, pts, start, interval);
    }
  }

  /** With exact addition, a series of finite floats, accumulated into a float-only
      group, adds its samples to their steps' sums and counts and reports no
      conflict. */
  lemma AccumulateAverages(st: AvgState, s: SeriesData, steps: nat, start: int, interval: int,
                           vals: seq<seq<Float>>, ops: HistogramOps, removal: Removal)
    requires Shaped(st, steps) && InRange(s, start, interval, steps) && interval > 0
    requires Averages(st, vals, steps)
    requires |s.histograms| == 0 && forall k :: 0 <= k < |s.floats| ==> s.floats[k].v.Num?
    ensures var r := Accumulate(st, s, steps, start, interval, ExactKahan(), ops, removal);
      Averages(r.0, AddValues(vals, s.floats, start, interval), steps) && r.1 == Ok(false)
  {
    var a := Acquire(st, s, steps);
    assert Averages(a, vals, steps);
    if |s.floats| > 0 {
      FloatsIntoAverages(a, s.floats, steps, start, interval, vals, removal);
    } else {
      AddNoValues(vals, start, interval);
    }
  }

  /** The group before any series: no samples anywhere. */
  lemma EmptyAverages(steps: nat)
    ensures Shaped(EmptyState(), steps) && Averages(EmptyState(), seq(steps, _ => []), steps)
  {
  }

  /** Each step's mean, where it has samples. */
  function MeanSlots(vals: seq<seq<Float>>): (r: seq<Option<Float>>)
    ensures |r| == |vals|
  {
    seq(|vals|, i requires 0 <= i < |vals| => if vals[i] != [] then Some(MeanOf(vals[i])) else None)
  }

  /** With exact addition, a float-only group emits, at every step with samples, their
      arithmetic mean, and no histograms. */
  lemma OutputIsMean(st: AvgState, vals: seq<seq<Float>>, steps: nat, start: int, interval: int,
                     compact: Histogram -> Histogram)
    requires Shaped(st, steps) && Averages(st, vals, steps)
    ensures Output(st, steps, start, interval, compact) == SeriesData(Sparse(MeanSlots(vals), start, interval), [])
  {
    if |st.floatPresent| == steps {
      forall i | 0 <= i < steps
        ensures FloatSlots(st, steps)[i] == MeanSlots(vals)[i]
      {
        if vals[i] != [] {
          AddAllFinite(vals[i]);
        }
      }
      assert FloatSlots(st, steps) == MeanSlots(vals);
    } else {
      assert MeanSlots(vals) == NoSlots(steps);
      EmptySlots<Float>(steps);
      SparseNone(MeanSlots(vals), start, interval);
    }
  }

  // ----- Edge cases of the histogram loop -----

  /** Once a step holds the sentinel, a later histogram there is counted and otherwise
      ignored. */
  lemma SentinelIgnoresHistograms(st: AvgState, idx: nat, h: Histogram, steps: nat, ops: HistogramOps, removal: Removal)
    requires Shaped(st, steps) && idx < steps && |st.histograms| == steps && st.histograms[idx] == Invalid
    ensures HistogramStep(st, idx, h, steps, ops, removal) == Acc(CountIn(st, idx), false, None)
  {
  }

  /** A mean that cannot be combined with the new histogram becomes the sentinel, and
      the call fails exactly when the error is not one the annotation converter
      recognises. */
  lemma FailedCombinationPoisons(st: AvgState, idx: nat, h: Histogram, steps: nat, ops: HistogramOps, removal: Removal)
    requires Shaped(st, steps) && idx < steps && |st.histograms| == steps && st.histograms[idx].Mean?
    requires var c := (st.groupSeriesCounts[idx] + 1) as real;
      ops.sub(ops.div(h, c), ops.div(st.histograms[idx].h, c)).HistogramFailed?
    ensures var a := HistogramStep(st, idx, h, steps, ops, removal);
      var e := ops.sub(ops.div(h, (st.groupSeriesCounts[idx] + 1) as real),
                       ops.div(st.histograms[idx].h, (st.groupSeriesCounts[idx] + 1) as real)).err;
      a.st.histograms[idx] == Invalid && !a.mixed && (a.err.Some? <==> !ops.recognised(e)) &&
      a.st.histogramPointCount == st.histogramPointCount - 1
  {
  }

  /** The same when the subtraction succeeds but adding the difference to the mean
      fails: the step becomes the sentinel, and the call fails exactly when the error
      is not one the annotation converter recognises. */
  lemma FailedAdditionPoisons(st: AvgState, idx: nat, h: Histogram, steps: nat, ops: HistogramOps, removal: Removal)
    requires Shaped(st, steps) && idx < steps && |st.histograms| == steps && st.histograms[idx].Mean?
    requires var c := (st.groupSeriesCounts[idx] + 1) as real;
      var d := ops.sub(ops.div(h, c), ops.div(st.histograms[idx].h, c));
      d.HistogramOk? && ops.add(st.histograms[idx].h, d.h).HistogramFailed?
    ensures var a := HistogramStep(st, idx, h, steps, ops, removal);
      var c := (st.groupSeriesCounts[idx] + 1) as real;
      var d := ops.sub(ops.div(h, c), ops.div(st.histograms[idx].h, c));
      var e := ops.add(st.histograms[idx].h, d.h).err;
      a.st.histograms[idx] == Invalid && !a.mixed && (a.err.Some? <==> !ops.recognised(e)) &&
      a.st.histogramPointCount == st.histogramPointCount - 1
  {
  }

  function Contents<T>(a: array?<T>): seq<T>
    reads a
  {
    if a == null then [] else a[..]
  }

  /** One group of the avg aggregation. */
  class AvgAggregationGroup {
    var floatSums: array?<Float>
    var floatMeans: array?<Float>
    var floatCompensatingMeans: array?<Float>
    var floatPresent: array?<bool>
    var histograms: array?<Slot>
    var histogramPointCount: int
    var incrementalMeans: array?<bool>
    var groupSeriesCounts: array?<nat>

    ghost function State(): AvgState
      reads this, floatSums, floatMeans, floatCompensatingMeans, floatPresent, histograms, incrementalMeans, groupSeriesCounts
    {
      AvgState(Contents(floatSums), Contents(floatMeans), Contents(floatCompensatingMeans), Contents(floatPresent),
               Contents(histograms), histogramPointCount, Contents(incrementalMeans), Contents(groupSeriesCounts))
    }

    /** The arrays: the four float arrays acquired together, every acquired array one
      slot per step, the counts acquired before anything else, and no two float arrays
      the same. */
    ghost predicate Arrays(steps: nat)
      reads this
    {
      (floatSums == null <==> floatCompensatingMeans == null) &&
      (floatSums == null <==> floatPresent == null) &&
      (floatSums == null <==> incrementalMeans == null) &&
      (floatSums != null ==>
        groupSeriesCounts != null && floatSums.Length == steps && floatCompensatingMeans.Length == steps &&
        floatPresent.Length == steps && incrementalMeans.Length == steps &&
        floatSums != floatCompensatingMeans && floatPresent != incrementalMeans) &&
      (floatMeans != null ==>
        floatSums != null && floatMeans.Length == steps && floatMeans != floatSums && floatMeans != floatCompensatingMeans) &&
      (histograms != null ==> groupSeriesCounts != null && histograms.Length == steps) &&
      (groupSeriesCounts != null ==> groupSeriesCounts.Length == steps)
    }

    ghost predicate Valid(steps: nat)
      reads this, floatSums, floatMeans, floatCompensatingMeans, floatPresent, histograms, incrementalMeans, groupSeriesCounts
    {
      Arrays(steps) && Shaped(State(), steps) && Counted(State())
    }

    constructor ()
      ensures State() == EmptyState() && floatSums == null && floatMeans == null && histograms == null
      ensures groupSeriesCounts == null
    {
      floatSums, floatMeans, floatCompensatingMeans, floatPresent := null, null, null, null;
      histograms, histogramPointCount, incrementalMeans, groupSeriesCounts := null, 0, null, null;
    }

    /** removeConflictingPoint, with the corrected count: the step loses its float and
      its histogram. */
    method RemoveConflictingPoint(idx: nat, ghost steps: nat)
      requires Arrays(steps) && idx < steps && floatPresent != null && histograms != null
      modifies this`histogramPointCount, floatPresent, histograms
      ensures State() == RemoveConflict(old(State()), idx, Corrected)
    {
      if histograms[idx].Mean? {
        histogramPointCount := histogramPointCount - 1;
      }
      floatPresent[idx] := false;
      histograms[idx] := Empty;
    }
  
    /** The float loop once a step has switched to incremental means. */
    method AddToIncrementalMean(idx: nat, f: Float, kahan: KahanSumInc, ghost steps: nat)
      requires Arrays(steps) && floatMeans != null && idx < steps
      requires groupSeriesCounts[idx] >= 1
      modifies floatMeans, floatCompensatingMeans
      ensures State() == IncrementalStep(old(State()), idx, f, kahan)
    {
      var mean := floatMeans[idx];
      if mean.Inf? {
        if f.Inf? && f.positive == mean.positive {
          return;
        }
        if f.Num? {
          return;
        }
      }
      var c := groupSeriesCounts[idx] as real;
      var currentMean := Add(mean, floatCompensatingMeans[idx]);
      var (m, cm) := kahan(Sub(DivBy(f, c), DivBy(currentMean, c)), mean, floatCompensatingMeans[idx]);
      floatMeans[idx], floatCompensatingMeans[idx] := m, cm;
    }

    /** The float loop at a step that already holds a float: the compensated sum, or,
      once it would overflow, the incremental mean. */
    method AddToMean(idx: nat, f: Float, steps: nat, kahan: KahanSumInc)
      requires Arrays(steps) && Shaped(State(), steps) && idx < steps && floatSums != null
      requires groupSeriesCounts[idx] >= 2
      modifies this`floatMeans, floatSums, floatMeans, floatCompensatingMeans, incrementalMeans
      ensures Arrays(steps)
      ensures old(floatMeans) != null ==> floatMeans == old(floatMeans)
      ensures old(floatMeans) == null ==> floatMeans == null || fresh(floatMeans)
      ensures State() == MeanStep(old(State()), idx, f, steps, kahan)
    {
      if !incrementalMeans[idx] {
        var (newV, newC) := kahan(f, floatSums[idx], floatCompensatingMeans[idx]);
        if !newV.Inf? {
          floatSums[idx], floatCompensatingMeans[idx] := newV, newC;
          return;
        }
        SwitchToIncremental(idx, steps);
      }
      AddToIncrementalMean(idx, f, kahan, steps);
    }

    method AcquireMeans(steps: nat)
      requires Arrays(steps) && floatSums != null && floatMeans == null
      modifies this`floatMeans
      ensures Arrays(steps) && floatMeans != null && fresh(floatMeans)
      ensures State() == old(State()).(floatMeans := GroupFold.Filled(steps, Num(0.0)))
    {
      floatMeans := new Float[steps](_ => Num(0.0));
      assert floatMeans[..] == GroupFold.Filled(steps, Num(0.0));
    }

    /** The switch to an incremental mean, acquiring the means array on the first. */
    method SwitchToIncremental(idx: nat, steps: nat)
      requires Arrays(steps) && Shaped(State(), steps) && idx < steps && floatSums != null
      requires groupSeriesCounts[idx] >= 2
      modifies this`floatMeans, floatMeans, floatCompensatingMeans, incrementalMeans
      ensures Arrays(steps) && floatMeans != null
      ensures old(floatMeans) != null ==> floatMeans == old(floatMeans)
      ensures old(floatMeans) == null ==> fresh(floatMeans)
      ensures State() == Switched(old(State()), idx, steps)
    {
      ghost var st := State();
      if floatMeans == null {
        AcquireMeans(steps);
      }
      ghost var st1 := State();
      var d := (groupSeriesCounts[idx] - 1) as real;
      assert Switched(st, idx, steps) ==
        st1.(incrementalMeans := st1.incrementalMeans[idx := true],
             floatMeans := st1.floatMeans[idx := DivBy(st1.floatSums[idx], d)],
             floatCompensatingMeans := st1.floatCompensatingMeans[idx := DivBy(st1.floatCompensatingMeans[idx], d)]);
      incrementalMeans[idx] := true;
      floatMeans[idx] := DivBy(floatSums[idx], d);
      floatCompensatingMeans[idx] := DivBy(floatCompensatingMeans[idx], d);
    }

    /** One point of the float loop. */
    method AddFloat(idx: nat, f: Float, steps: nat, kahan: KahanSumInc) returns (conflict: bool)
      requires Arrays(steps) && Shaped(State(), steps) && idx < steps && floatSums != null
      modifies this`floatMeans, this`histogramPointCount, floatSums, floatMeans, floatCompensatingMeans,
               floatPresent, histograms, incrementalMeans, groupSeriesCounts
      ensures Arrays(steps)
      ensures old(floatMeans) != null ==> floatMeans == old(floatMeans)
      ensures old(floatMeans) == null ==> floatMeans == null || fresh(floatMeans)
      ensures (State(), conflict) == FloatStep(old(State()), idx, f, steps, kahan, Corrected)
    {
      if histograms != null && !histograms[idx].Empty? {
        RemoveConflictingPoint(idx, steps);
        return true;
      }
      AddCountedFloat(idx, f, steps, kahan);
      conflict := false;
    }

    /** A float that does not conflict: counted, then the step's first value or added
      into its mean. */
    method AddCountedFloat(idx: nat, f: Float, steps: nat, kahan: KahanSumInc)
      requires Arrays(steps) && Shaped(State(), steps) && idx < steps && floatSums != null
      requires histograms == null || histograms[idx].Empty?
      modifies this`floatMeans, floatSums, floatMeans, floatCompensatingMeans, floatPresent, incrementalMeans, groupSeriesCounts
      ensures Arrays(steps)
      ensures old(floatMeans) != null ==> floatMeans == old(floatMeans)
      ensures old(floatMeans) == null ==> floatMeans == null || fresh(floatMeans)
      ensures (State(), false) == FloatStep(old(State()), idx, f, steps, kahan, Corrected)
    {
      ghost var st := State();
      groupSeriesCounts[idx] := groupSeriesCounts[idx] + 1;
      assert State() == CountIn(st, idx);
      CountInKeeps(st, idx, steps);
      if !floatPresent[idx] {
        floatSums[idx] := f;
        floatPresent[idx] := true;
        return;
      }
      AddToMean(idx, f, steps, kahan);
    }
  
    /** One point of the histogram loop: the conflict flag, and the error that ends the
      call, if any. */
    method AddHistogram(idx: nat, h: Histogram, steps: nat, ops: HistogramOps) returns (conflict: bool, err: Option<HistogramError>)
      requires Arrays(steps) && Shaped(State(), steps) && idx < steps && histograms != null
      modifies this`histogramPointCount, floatPresent, histograms, groupSeriesCounts
      ensures Acc(State(), conflict, err) == HistogramStep(old(State()), idx, h, steps, ops, Corrected)
    {
      if floatPresent != null && floatPresent[idx] {
        RemoveConflictingPoint(idx, steps);
        return true, None;
      }
      conflict := false;
      err := AddCountedHistogram(idx, h, steps, ops);
    }

    /** A histogram that does not conflict: counted, then the step's first histogram
      (a copy), ignored at the sentinel, or moved into the mean. */
    method AddCountedHistogram(idx: nat, h: Histogram, steps: nat, ops: HistogramOps) returns (err: Option<HistogramError>)
      requires Arrays(steps) && Shaped(State(), steps) && idx < steps && histograms != null
      requires floatPresent == null || !floatPresent[idx]
      modifies this`histogramPointCount, histograms, groupSeriesCounts
      ensures Acc(State(), false, err) == HistogramStep(old(State()), idx, h, steps, ops, Corrected)
    {
      ghost var st := State();
      groupSeriesCounts[idx] := groupSeriesCounts[idx] + 1;
      assert State() == CountIn(st, idx);
      match histograms[idx]
      case Empty =>
        histograms[idx] := Mean(h);
        histogramPointCount := histogramPointCount + 1;
        err := None;
      case Invalid =>
        err := None;
      case Mean(cur) =>
        err := MoveMeanAt(idx, cur, h, groupSeriesCounts[idx], ops);
    }

    /** The mean `cur` moves by (h - cur) / count; a failed combination leaves the
      sentinel. */
    method MoveMeanAt(idx: nat, cur: Histogram, h: Histogram, count: nat, ops: HistogramOps) returns (err: Option<HistogramError>)
      requires histograms != null && idx < histograms.Length && count > 0
      modifies this`histogramPointCount, histograms
      ensures Acc(State(), false, err) == MoveMean(old(State()), idx, cur, h, count, ops)
    {
      var left := ops.div(h, count as real);
      var right := ops.div(cur, count as real);
      match ops.sub(left, right)
      case HistogramFailed(e) =>
        err := Poison(idx, e, ops);
      case HistogramOk(toAdd) =>
        match ops.add(cur, toAdd)
        case HistogramFailed(e) =>
          err := Poison(idx, e, ops);
        case HistogramOk(sum) =>
          histograms[idx] := Mean(sum);
          err := None;
    }

    /** The step gets the sentinel; an error the annotation converter does not recognise
      is handed back. */
    method Poison(idx: nat, e: HistogramError, ops: HistogramOps) returns (err: Option<HistogramError>)
      requires histograms != null && idx < histograms.Length
      modifies this`histogramPointCount, histograms
      ensures Acc(State(), false, err) == Poisoned(old(State()), idx, e, ops)
    {
      histograms[idx] := Invalid;
      histogramPointCount := histogramPointCount - 1;
      if ops.recognised(e) {
        err := None;
      } else {
        err := Some(e);
      }
    }
  
    method AcquireCountArray(steps: nat)
      requires Arrays(steps) && Shaped(State(), steps)
      modifies this`groupSeriesCounts
      ensures Arrays(steps) && groupSeriesCounts != null && State() == AcquireCounts(old(State()), steps)
      ensures groupSeriesCounts == old(groupSeriesCounts) || fresh(groupSeriesCounts)
    {
      if groupSeriesCounts == null {
        groupSeriesCounts := new nat[steps](_ => 0);
        assert groupSeriesCounts[..] == GroupFold.Filled(steps, 0);
      }
    }

    method AcquireFloatArrays(s: SeriesData, steps: nat)
      requires Arrays(steps) && Shaped(State(), steps) && groupSeriesCounts != null
      modifies this`floatSums, this`floatCompensatingMeans, this`floatPresent, this`incrementalMeans
      ensures Arrays(steps) && State() == AcquireFloats(old(State()), s, steps)
      ensures |s.floats| > 0 ==> floatSums != null
      ensures floatSums == old(floatSums) || fresh(floatSums)
      ensures floatCompensatingMeans == old(floatCompensatingMeans) || fresh(floatCompensatingMeans)
      ensures floatPresent == old(floatPresent) || fresh(floatPresent)
      ensures incrementalMeans == old(incrementalMeans) || fresh(incrementalMeans)
    {
      if |s.floats| > 0 && floatSums == null {
        floatSums := new Float[steps](_ => Num(0.0));
        floatCompensatingMeans := new Float[steps](_ => Num(0.0));
        floatPresent := new bool[steps](_ => false);
        incrementalMeans := new bool[steps](_ => false);
        assert floatSums[..] == GroupFold.Filled(steps, Num(0.0)) == floatCompensatingMeans[..];
        assert floatPresent[..] == GroupFold.Filled(steps, false) == incrementalMeans[..];
      }
    }

    method AcquireHistogramArray(s: SeriesData, steps: nat)
      requires Arrays(steps) && Shaped(State(), steps) && groupSeriesCounts != null
      modifies this`histograms
      ensures Arrays(steps) && State() == AcquireHistograms(old(State()), s, steps)
      ensures |s.histograms| > 0 ==> histograms != null
      ensures histograms == old(histograms) || fresh(histograms)
    {
      if |s.histograms| > 0 && histograms == null {
        histograms := new Slot[steps](_ => Empty);
        assert histograms[..] == GroupFold.Filled(steps, Empty);
      }
    }

    /** The float loop of AccumulateSeries. */
    method AccumulateFloats(pts: seq<FPoint>, steps: nat, start: int, interval: int, kahan: KahanSumInc)
      returns (haveMixedFloatsAndHistograms: bool)
      requires Arrays(steps) && Shaped(State(), steps) && GroupFold.OnSlots(pts, start, interval, steps)
      requires pts != [] ==> floatSums != null
      modifies this`floatMeans, this`histogramPointCount, floatSums, floatMeans, floatCompensatingMeans,
               floatPresent, histograms, incrementalMeans, groupSeriesCounts
      ensures Arrays(steps) && Shaped(State(), steps)
      ensures old(floatMeans) != null ==> floatMeans == old(floatMeans)
      ensures old(floatMeans) == null ==> floatMeans == null || fresh(floatMeans)
      ensures pts == [] ==> State() == old(State()) && !haveMixedFloatsAndHistograms
      ensures pts != [] ==>
        (State(), haveMixedFloatsAndHistograms) == FloatsInto(old(State()), pts, steps, start, interval, kahan, Corrected)
    {
      ghost var a := State();
      haveMixedFloatsAndHistograms := false;
      for k := 0 to |pts|
        invariant Arrays(steps)
        invariant old(floatMeans) != null ==> floatMeans == old(floatMeans)
        invariant old(floatMeans) == null ==> floatMeans == null || fresh(floatMeans)
        invariant k == 0 ==> State() == a && !haveMixedFloatsAndHistograms
        invariant pts != [] ==>
          (State(), haveMixedFloatsAndHistograms) == FloatsInto(a, pts[..k], steps, start, interval, kahan, Corrected)
      {
        var p := pts[k];
        assert pts[..k + 1][..k] == pts[..k];
        assert OnGrid(p.t, start, interval, steps);
        var idx := (p.t - start) / interval;
        var conflict := AddFloat(idx, p.v, steps, kahan);
        haveMixedFloatsAndHistograms := haveMixedFloatsAndHistograms || conflict;
      }
      assert pts[..|pts|] == pts;
    }

    /** The histogram loop of AccumulateSeries, up to the first error. */
    method AccumulateHistograms(pts: seq<HPoint>, steps: nat, start: int, interval: int, ops: HistogramOps)
      returns (haveMixedFloatsAndHistograms: bool, err: Option<HistogramError>)
      requires Arrays(steps) && Shaped(State(), steps) && GroupFold.OnSlots(pts, start, interval, steps)
      requires pts != [] ==> histograms != null
      modifies this`histogramPointCount, floatPresent, histograms, groupSeriesCounts
      ensures Arrays(steps) && Shaped(State(), steps)
      ensures pts == [] ==> State() == old(State()) && !haveMixedFloatsAndHistograms && err.None?
      ensures pts != [] ==>
        Acc(State(), haveMixedFloatsAndHistograms, err) == HistogramsInto(old(State()), pts, steps, start, interval, ops, Corrected)
    {
      ghost var a := State();
      haveMixedFloatsAndHistograms := false;
      for k := 0 to |pts|
        invariant Arrays(steps) && Shaped(State(), steps)
        invariant k == 0 ==> State() == a && !haveMixedFloatsAndHistograms
        invariant pts != [] ==>
          Acc(State(), haveMixedFloatsAndHistograms, None) == HistogramsInto(a, pts[..k], steps, start, interval, ops, Corrected)
      {
        var p := pts[k];
        assert OnGrid(p.t, start, interval, steps);
        var idx := (p.t - start) / interval;
        var conflict;
        conflict, err := AddHistogram(idx, p.v, steps, ops);
        HistogramsIntoNext(a, pts, k, steps, start, interval, ops, Corrected);
        assert Acc(State(), haveMixedFloatsAndHistograms || conflict, err) ==
          HistogramsInto(a, pts[..k + 1], steps, start, interval, ops, Corrected);
        haveMixedFloatsAndHistograms := haveMixedFloatsAndHistograms || conflict;
        if err.Some? {
          HistogramsIntoStops(a, pts, k + 1, steps, start, interval, ops, Corrected);
          return;
        }
      }
      assert pts[..|pts|] == pts;
      err := None;
    }

    /** The arrays a series needs, each taken zero-valued from its pool. */
    method AcquireArrays(s: SeriesData, steps: nat)
      requires Arrays(steps) && Shaped(State(), steps)
      modifies this`groupSeriesCounts, this`floatSums, this`floatCompensatingMeans, this`floatPresent,
               this`incrementalMeans, this`histograms
      ensures Arrays(steps) && groupSeriesCounts != null && State() == Acquire(old(State()), s, steps)
      ensures |s.floats| > 0 ==> floatSums != null
      ensures |s.histograms| > 0 ==> histograms != null
      ensures floatMeans == old(floatMeans)
      ensures groupSeriesCounts == old(groupSeriesCounts) || fresh(groupSeriesCounts)
      ensures floatSums == old(floatSums) || fresh(floatSums)
      ensures floatCompensatingMeans == old(floatCompensatingMeans) || fresh(floatCompensatingMeans)
      ensures floatPresent == old(floatPresent) || fresh(floatPresent)
      ensures incrementalMeans == old(incrementalMeans) || fresh(incrementalMeans)
      ensures histograms == old(histograms) || fresh(histograms)
    {
      AcquireCountArray(steps);
      AcquireFloatArrays(s, steps);
      AcquireHistogramArray(s, steps);
    }

    /** The two loops of AccumulateSeries; the error of a histogram ends it. */
    method AccumulateAcquired(s: SeriesData, steps: nat, start: int, interval: int, kahan: KahanSumInc, ops: HistogramOps)
      returns (r: Result<bool>)
      requires Arrays(steps) && Shaped(State(), steps) && InRange(s, start, interval, steps)
      requires |s.floats| > 0 ==> floatSums != null
      requires |s.histograms| > 0 ==> histograms != null
      modifies this`floatMeans, this`histogramPointCount, floatSums, floatMeans, floatCompensatingMeans,
               floatPresent, histograms, incrementalMeans, groupSeriesCounts
      ensures Arrays(steps)
      ensures old(floatMeans) != null ==> floatMeans == old(floatMeans)
      ensures old(floatMeans) == null ==> floatMeans == null || fresh(floatMeans)
      ensures (State(), r) == AccumulatePoints(old(State()), s, steps, start, interval, kahan, ops, Corrected)
    {
      var haveMixedFloatsAndHistograms := AccumulateFloats(s.floats, steps, start, interval, kahan);
      var mixed, err := AccumulateHistograms(s.histograms, steps, start, interval, ops);
      if err.Some? {
        return Err(HistogramFailure(err.value));
      }
      r := Ok(haveMixedFloatsAndHistograms || mixed);
    }

    /** AccumulateSeries: folds one series of the group in, float points first, then
        histogram points; the result says whether a step was removed for holding both,
        or is the error that ended the call. */
    method AccumulateSeries(s: SeriesData, steps: nat, start: int, interval: int, kahan: KahanSumInc, ops: HistogramOps)
      returns (r: Result<bool>)
      requires Valid(steps) && InRange(s, start, interval, steps)
      modifies this, floatSums, floatMeans, floatCompensatingMeans, floatPresent, histograms, incrementalMeans, groupSeriesCounts
      ensures Valid(steps)
      ensures (State(), r) == Accumulate(old(State()), s, steps, start, interval, kahan, ops, Corrected)
    {
      AccumulateCounted(State(), s, steps, start, interval, kahan, ops);
      AcquireArrays(s, steps);
      r := AccumulateAcquired(s, steps, start, interval, kahan, ops);
    }

    /** The count loop of ComputeOutputSeries: the steps holding a float. */
    method CountFloatPoints() returns (floatPointCount: nat)
      ensures floatPointCount == CountTrue(Contents(floatPresent))
    {
      floatPointCount := 0;
      if floatPresent != null {
        for i := 0 to floatPresent.Length
          invariant floatPointCount == CountTrue(floatPresent[..i])
        {
          if floatPresent[i] {
            floatPointCount := floatPointCount + 1;
          }
          assert floatPresent[..i + 1][..i] == floatPresent[..i];
        }
        assert floatPresent[..floatPresent.Length] == floatPresent[..];
      }
    }

    /** The float emission loop of ComputeOutputSeries. */
    method EmitFloatPoints(start: int, interval: int, ghost steps: nat) returns (floatPoints: seq<FPoint>)
      requires Arrays(steps) && Shaped(State(), steps) && floatPresent != null
      ensures floatPoints == Sparse(FloatSlots(State(), steps), start, interval)
    {
      ghost var st := State();
      ghost var slots := FloatSlots(st, steps);
      floatPoints := [];
      for i := 0 to floatPresent.Length
        invariant floatPoints == Sparse(slots[..i], start, interval)
      {
        if floatPresent[i] {
          var t := start + i * interval;
          var f;
          if incrementalMeans[i] {
            f := Add(floatMeans[i], floatCompensatingMeans[i]);
          } else {
            f := DivBy(Add(floatSums[i], floatCompensatingMeans[i]), groupSeriesCounts[i] as real);
          }
          assert slots[i] == Some(f);
          floatPoints := floatPoints + [Point(t, f)];
        }
        assert slots[..i + 1][..i] == slots[..i];
      }
      assert slots[..floatPresent.Length] == slots;
    }

    /** The histogram emission loop of ComputeOutputSeries. */
    method EmitHistogramPoints(start: int, interval: int, compact: Histogram -> Histogram)
      returns (histogramPoints: seq<HPoint>)
      requires histograms != null
      ensures histogramPoints == Sparse(HistogramSlots(histograms[..], compact), start, interval)
    {
      ghost var hslots := HistogramSlots(histograms[..], compact);
      histogramPoints := [];
      for i := 0 to histograms.Length
        invariant histogramPoints == Sparse(hslots[..i], start, interval)
      {
        if histograms[i].Mean? {
          var t := start + i * interval;
          histogramPoints := histogramPoints + [Point(t, compact(histograms[i].h))];
        }
        assert hslots[..i + 1][..i] == hslots[..i];
      }
      assert hslots[..histograms.Length] == hslots;
    }

    /** The two emission loops of ComputeOutputSeries: a float point for every step with
        one, its value the mean by whichever of the two methods the step used; then, when
        any step holds a histogram mean, that mean compacted at every such step. */
    method CollectOutput(start: int, interval: int, ghost steps: nat, compact: Histogram -> Histogram)
      returns (data: SeriesData)
      requires Valid(steps)
      ensures data == Output(State(), steps, start, interval, compact)
    {
      var floatPointCount := CountFloatPoints();
      FloatSlotsCount(State(), steps);
      var floatPoints: seq<FPoint> := [];
      if floatPointCount > 0 {
        floatPoints := EmitFloatPoints(start, interval, steps);
      } else {
        SparseNone(FloatSlots(State(), steps), start, interval);
      }
      var histogramPoints: seq<HPoint> := [];
      if histogramPointCount > 0 {
        histogramPoints := EmitHistogramPoints(start, interval, compact);
      }
      data := SeriesData(floatPoints, histogramPoints);
    }

    /** ComputeOutputSeries: the group's output series, after which all seven step
        arrays are handed back (dropped here). */
    method ComputeOutputSeries(start: int, interval: int, ghost steps: nat, compact: Histogram -> Histogram)
      returns (data: SeriesData)
      requires Valid(steps)
      modifies this
      ensures data == Output(old(State()), steps, start, interval, compact)
      ensures floatSums == null && floatMeans == null && floatCompensatingMeans == null && floatPresent == null
      ensures histograms == null && incrementalMeans == null && groupSeriesCounts == null
      ensures histogramPointCount == old(histogramPointCount)
    {
      data := CollectOutput(start, interval, steps, compact);
      floatSums, floatMeans, floatCompensatingMeans, floatPresent := null, null, null, null;
      histograms, incrementalMeans, groupSeriesCounts := null, null, null;
    }
  }
}

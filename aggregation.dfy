/** The sum aggregation operator: a metadata pass that assigns every inner series to an
    output group and orders the groups by their last member, and a streaming pass that
    pulls inner series only until the next group is complete. */
module Aggregation {
  import opened Floats
  import opened Series
  import opened Grouping
  import opened GroupFold

  /** The inner operator, as a fixed script: the metadata it reports and the results
      its successive NextSeries calls return (end of stream once the script is used
      up). */
  class ScriptedOperator {
    const metadata: Result<seq<Labels>>
    const script: seq<NextResult>
    var pos: nat

    constructor (metadata: Result<seq<Labels>>, script: seq<NextResult>)
      ensures this.metadata == metadata && this.script == script && pos == 0
    {
      this.metadata, this.script := metadata, script;
      pos := 0;
    }

    function At(k: nat): NextResult
    {
      if k < |script| then script[k] else EndOfStream
    }

    method SeriesMetadata() returns (r: Result<seq<Labels>>)
      ensures r == metadata
    {
      r := metadata;
    }

    method NextSeries() returns (r: NextResult)
      modifies this
      ensures r == At(old(pos)) && pos == old(pos) + 1
    {
      r := At(pos);
      pos := pos + 1;
    }

    /** The data of the first `k` results, all of them series. */
    ghost function Delivered(k: nat): (ds: seq<SeriesData>)
      requires forall j :: 0 <= j < k ==> At(j).Series?
      ensures |ds| == k && forall j :: 0 <= j < k ==> ds[j] == At(j).data
    {
      seq(k, j requires 0 <= j < k => At(j).data)
    }

    /** One more delivered series extends the delivered data by its data. */
    lemma DeliveredStep(k: nat)
      requires forall j :: 0 <= j <= k ==> At(j).Series?
      ensures Delivered(k + 1) == Delivered(k) + [At(k).data]
    {
      assert forall j :: 0 <= j <= k ==> Delivered(k + 1)[j] == (Delivered(k) + [At(k).data])[j];
    }
  }

  /** The error NextSeries reports when the inner operator stops early: end of stream
      is wrapped as "exhausted series before all groups were completed", any other
      error is passed on unchanged. */
  function PullError(r: NextResult): Error
    requires !r.Series?
  {
    if r.EndOfStream? then ExhaustedSeries else r.err
  }

  /** One output group: how many of its members are still to come, the position of
      its last member, and its per-step sums (arrays acquired on first use). */
  class Group {
    var remainingSeriesCount: nat
    var lastSeriesIndex: int
    var floatSums: array?<Float>
    var floatPresent: array?<bool>
    var histogramSums: array?<Option<Histogram>>
    var histogramPointCount: int

    constructor ()
      ensures remainingSeriesCount == 0 && lastSeriesIndex == 0
      ensures floatSums == null && floatPresent == null && histogramSums == null && histogramPointCount == 0
    {
      remainingSeriesCount, lastSeriesIndex := 0, 0;
      floatSums, floatPresent, histogramSums := null, null, null;
      histogramPointCount := 0;
    }

    ghost function Arrays(): set<object>
      reads this`floatSums, this`floatPresent, this`histogramSums
    {
      var a: set<object> := if floatSums == null then {} else {floatSums};
      var b: set<object> := if floatPresent == null then {} else {floatPresent};
      var c: set<object> := if histogramSums == null then {} else {histogramSums};
      a + b + c
    }

    /** The contents of the step arrays. */
    ghost function State(): GroupState
      reads this`floatSums, this`floatPresent, this`histogramSums, this`histogramPointCount
      reads floatSums, floatPresent, histogramSums
    {
      GroupState(
        if floatSums == null then [] else floatSums[..],
        if floatPresent == null then [] else floatPresent[..],
        if histogramSums == null then [] else histogramSums[..],
        histogramPointCount)
    }

    ghost predicate Valid(steps: nat)
      reads this`floatSums, this`floatPresent, this`histogramSums, this`histogramPointCount
      reads floatSums, floatPresent, histogramSums
    {
      (floatSums == null <==> floatPresent == null) &&
      (floatSums != null ==> floatSums.Length == steps && floatPresent.Length == steps) &&
      (histogramSums != null ==> histogramSums.Length == steps) &&
      WellShaped(State(), steps)
    }

    /** The group's side of seriesIntoGroup: acquire the arrays the series needs, fold
      its points in, and count the series off. */
    method AddSeries(s: SeriesData, steps: nat, start: int, interval: int, merge: (Histogram, Histogram) -> Histogram)
      requires Valid(steps) && InRange(s, start, interval, steps) && remainingSeriesCount > 0
      modifies this`floatSums, this`floatPresent, this`histogramSums, this`histogramPointCount, this`remainingSeriesCount
      modifies floatSums, floatPresent, histogramSums
      ensures Valid(steps)
      ensures State() == IntoGroup(old(State()), s, steps, start, interval, merge)
      ensures remainingSeriesCount == old(remainingSeriesCount) - 1
      ensures Grown()
    {
      ghost var st0 := State();
      remainingSeriesCount := remainingSeriesCount - 1;
      assert State() == st0;
      Acquire(s, steps);
      FoldIn(s, steps, start, interval, merge);
      assert State() == IntoGroup(st0, s, steps, start, interval, merge);
    }

    /** Each array is the one it was, or a new one where there was none. */
    twostate predicate Grown()
      reads this
    {
      (floatSums == old(floatSums) || (old(floatSums) == null && floatSums != null && fresh(floatSums))) &&
      (floatPresent == old(floatPresent) || (old(floatPresent) == null && floatPresent != null && fresh(floatPresent))) &&
      (histogramSums == old(histogramSums) || (old(histogramSums) == null && histogramSums != null && fresh(histogramSums)))
    }

    twostate lemma GrownArrays()
      requires Grown()
      ensures old(Arrays()) <= Arrays() && fresh(Arrays() - old(Arrays()))
    {
    }

    /** The allocation step of seriesIntoGroup (pool acquisitions, zero-filled). */
    method Acquire(s: SeriesData, steps: nat)
      requires Valid(steps)
      modifies this`floatSums, this`floatPresent, this`histogramSums
      ensures Valid(steps)
      ensures State() == Acquired(old(State()), s, steps)
      ensures |s.floats| > 0 ==> floatSums != null && floatPresent != null
      ensures |s.histograms| > 0 ==> histogramSums != null
      ensures Grown()
    {
      ghost var st := State();
      if |s.floats| > 0 && floatSums == null {
        floatSums := new Float[steps](_ => Num(0.0));
        floatPresent := new bool[steps](_ => false);
        assert floatSums[..] == Filled(steps, Num(0.0));
        assert floatPresent[..] == Filled(steps, false);
      }
      if |s.histograms| > 0 && histogramSums == null {
        histogramSums := new Option<Histogram>[steps](_ => None);
        assert histogramSums[..] == Filled(steps, None);
      }
      assert State() == Acquired(st, s, steps);
    }

    /** The point loops of seriesIntoGroup, once the arrays the series needs exist. */
    method FoldIn(s: SeriesData, steps: nat, start: int, interval: int, merge: (Histogram, Histogram) -> Histogram)
      requires Valid(steps) && InRange(s, start, interval, steps)
      requires |s.floats| > 0 ==> floatSums != null
      requires |s.histograms| > 0 ==> histogramSums != null
      modifies this`histogramPointCount, floatSums, floatPresent, histogramSums
      ensures floatSums == old(floatSums) && floatPresent == old(floatPresent) && histogramSums == old(histogramSums)
      ensures Valid(steps)
      ensures State() == FoldPoints(old(State()), s, steps, start, interval, merge)
    {
      ghost var st := State();
      if |s.floats| > 0 {
        AddFloatPoints(s.floats, start, interval);
      }
      if |s.histograms| > 0 {
        AddHistogramPoints(s.histograms, start, interval, merge);
      }
      assert State() == FoldPoints(st, s, steps, start, interval, merge);
    }

    /** The float loop of seriesIntoGroup. */
    method AddFloatPoints(pts: seq<FPoint>, start: int, interval: int)
      requires floatSums != null && floatPresent != null && floatSums.Length == floatPresent.Length
      requires OnSlots(pts, start, interval, floatSums.Length)
      modifies floatSums, floatPresent
      ensures floatSums[..] == SumInto(old(floatSums[..]), pts, start, interval)
      ensures floatPresent[..] == MarkInto(old(floatPresent[..]), pts, start, interval)
    {
      for k := 0 to |pts|
        invariant OnSlots(pts[..k], start, interval, floatSums.Length)
        invariant floatSums[..] == SumInto(old(floatSums[..]), pts[..k], start, interval)
        invariant floatPresent[..] == MarkInto(old(floatPresent[..]), pts[..k], start, interval)
      {
        var p := pts[k];
        assert OnGrid(p.t, start, interval, floatSums.Length);
        var idx := (p.t - start) / interval;
        floatSums[idx] := Add(floatSums[idx], p.v);
        floatPresent[idx] := true;
        assert pts[..k + 1][..k] == pts[..k];
      }
      assert pts[..|pts|] == pts;
    }

    /** The histogram loop of seriesIntoGroup. */
    method AddHistogramPoints(pts: seq<HPoint>, start: int, interval: int, merge: (Histogram, Histogram) -> Histogram)
      requires histogramSums != null
      requires OnSlots(pts, start, interval, histogramSums.Length)
      modifies this`histogramPointCount, histogramSums
      ensures HistogramAcc(histogramSums[..], histogramPointCount)
           == HistogramsInto(HistogramAcc(old(histogramSums[..]), old(histogramPointCount)), pts, merge, start, interval)
    {
      ghost var acc0 := HistogramAcc(histogramSums[..], histogramPointCount);
      for k := 0 to |pts|
        invariant OnSlots(pts[..k], start, interval, histogramSums.Length)
        invariant HistogramAcc(histogramSums[..], histogramPointCount) == HistogramsInto(acc0, pts[..k], merge, start, interval)
      {
        var p := pts[k];
        assert OnGrid(p.t, start, interval, histogramSums.Length);
        var idx := (p.t - start) / interval;
        if histogramSums[idx].None? {
          histogramSums[idx] := Some(p.v);
          histogramPointCount := histogramPointCount + 1;
        } else {
          histogramSums[idx] := Some(merge(histogramSums[idx].value, p.v));
        }
        assert pts[..k + 1][..k] == pts[..k];
      }
      assert pts[..|pts|] == pts;
    }
  }

  /** The conflict-clearing loop of reconcilePointCount, run when both kinds of array
      are allocated: returns the histogram count after clearing and the number of float
      points left. */
  method ClearConflicts(present: array<bool>, slots: array<Option<Histogram>>, count: int)
    returns (newCount: int, floatPointCount: nat)
    requires present.Length == slots.Length
    modifies present, slots
    ensures present[..] == KeptFloats(old(present[..]), old(slots[..]))
    ensures slots[..] == KeptHistograms(old(present[..]), old(slots[..]))
    ensures newCount == count - Conflicts(old(present[..]), old(slots[..]))
    ensures floatPointCount == CountTrue(present[..])
  {
    ghost var p0, s0 := present[..], slots[..];
    ghost var keptF, keptH := KeptFloats(p0, s0), KeptHistograms(p0, s0);
    var n := present.Length;
    newCount, floatPointCount := count, 0;
    for idx := 0 to n
      invariant forall i :: 0 <= i < idx ==> present[i] == keptF[i] && slots[i] == keptH[i]
      invariant forall i :: idx <= i < n ==> present[i] == p0[i] && slots[i] == s0[i]
      invariant newCount == count - Conflicts(p0[..idx], s0[..idx])
      invariant floatPointCount == CountTrue(keptF[..idx])
    {
      if present[idx] {
        if slots[idx].Some? {
          present[idx] := false;
          slots[idx] := None;
          newCount := newCount - 1;
        } else {
          floatPointCount := floatPointCount + 1;
        }
      }
      assert keptF[..idx + 1][..idx] == keptF[..idx];
      assert p0[..idx + 1][..idx] == p0[..idx];
      assert s0[..idx + 1][..idx] == s0[..idx];
    }
    assert present[..] == keptF;
    assert slots[..] == keptH;
    assert p0[..n] == p0 && s0[..n] == s0 && keptF[..n] == keptF;
  }

  /** The counting loop of reconcilePointCount, run otherwise. */
  method CountPresent(present: array<bool>) returns (floatPointCount: nat)
    ensures floatPointCount == CountTrue(present[..])
  {
    floatPointCount := 0;
    for idx := 0 to present.Length
      invariant floatPointCount == CountTrue(present[..idx])
    {
      if present[idx] {
        floatPointCount := floatPointCount + 1;
      }
      assert present[..idx + 1][..idx] == present[..idx];
    }
    assert present[..] == present[..present.Length];
  }

  /** reconcilePointCount: clears every step holding both a float and a histogram and
      returns the number of float points left. */
  method ReconcilePointCount(g: Group, ghost steps: nat) returns (floatPointCount: nat)
    requires g.Valid(steps)
    modifies g`histogramPointCount, g.floatPresent, g.histogramSums
    ensures g.Valid(steps)
    ensures g.floatSums == old(g.floatSums) && g.floatPresent == old(g.floatPresent) && g.histogramSums == old(g.histogramSums)
    ensures g.State() == Reconcile(old(g.State()))
    ensures floatPointCount == CountTrue(g.State().floatPresent)
  {
    ghost var st := g.State();
    if g.floatPresent != null && g.floatPresent.Length > 0 && g.histogramSums != null && g.histogramSums.Length > 0 {
      var newCount;
      newCount, floatPointCount := ClearConflicts(g.floatPresent, g.histogramSums, g.histogramPointCount);
      g.histogramPointCount := newCount;
      ReconcileWellShaped(st, steps);
    } else if g.floatPresent != null {
      floatPointCount := CountPresent(g.floatPresent);
    } else {
      floatPointCount := 0;
    }
  }

  /** The float emission loop of constructSeriesData. */
  method EmitFloats(present: array<bool>, sums: array<Float>, start: int, interval: int) returns (pts: seq<FPoint>)
    requires present.Length == sums.Length
    ensures pts == Sparse(Zip(present[..], sums[..]), start, interval)
  {
    ghost var z := Zip(present[..], sums[..]);
    pts := [];
    for i := 0 to present.Length
      invariant pts == Sparse(z[..i], start, interval)
    {
      if present[i] {
        var t := start + i * interval;
        pts := pts + [Point(t, sums[i])];
      }
      assert z[..i + 1][..i] == z[..i];
    }
    assert z[..present.Length] == z;
  }

  /** The histogram emission loop of constructSeriesData. */
  method EmitHistograms(slots: array<Option<Histogram>>, start: int, interval: int) returns (pts: seq<HPoint>)
    ensures pts == Sparse(slots[..], start, interval)
  {
    pts := [];
    for i := 0 to slots.Length
      invariant pts == Sparse(slots[..i], start, interval)
    {
      if slots[i].Some? {
        var t := start + i * interval;
        pts := pts + [Point(t, slots[i].value)];
      }
      assert slots[..i + 1][..i] == slots[..i];
    }
    assert slots[..slots.Length] == slots[..];
  }

  /** constructSeriesData: reconciles the group, then emits one float point per present
      step and one histogram point per occupied histogram slot, at `start + i*interval`,
      in step order. */
  method ConstructSeriesData(g: Group, start: int, interval: int, ghost steps: nat) returns (data: SeriesData)
    requires g.Valid(steps)
    modifies g`histogramPointCount, g.floatPresent, g.histogramSums
    ensures g.Valid(steps)
    ensures g.floatSums == old(g.floatSums) && g.floatPresent == old(g.floatPresent) && g.histogramSums == old(g.histogramSums)
    ensures g.State() == Reconcile(old(g.State()))
    ensures data == Output(g.State(), start, interval)
  {
    var floatPointCount := ReconcilePointCount(g, steps);
    ghost var st := g.State();
    var floatPoints: seq<FPoint> := [];
    if floatPointCount > 0 {
      floatPoints := EmitFloats(g.floatPresent, g.floatSums, start, interval);
    } else {
      ZipCount(st.floatPresent, st.floatSums);
      SparseNone(Zip(st.floatPresent, st.floatSums), start, interval);
    }
    var histogramPoints: seq<HPoint> := [];
    if g.histogramPointCount > 0 {
      histogramPoints := EmitHistograms(g.histogramSums, start, interval);
    } else {
      SparseNone(st.histogramSums, start, interval);
    }
    data := SeriesData(floatPoints, histogramPoints);
  }

  /** The aggregation operator (sum): the inner operator, the query's step grid, the
      grouping labels, and the two work lists the metadata pass builds. `assignment` is
      the group of every inner series in input order and `pulled` the number of inner
      series already folded in. */
  class Aggregation {
    const inner: ScriptedOperator
    const start: int
    const interval: int
    const steps: nat
    const grouping: seq<string>
    const hash: Labels -> nat
    const merge: (Histogram, Histogram) -> Histogram

    var remainingInnerSeriesToGroup: seq<Group>
    var remainingGroups: seq<Group>

    ghost var assignment: seq<Group>
    ghost var pulled: nat
    ghost var Repr: set<object>

    /** Every series the inner operator delivers lies on the query's step grid. */
    ghost predicate InnerOnGrid()
    {
      forall j :: 0 <= j < |inner.script| && inner.script[j].Series? ==> InRange(inner.script[j].data, start, interval, steps)
    }

    ghost predicate Core()
      reads this`pulled, this`assignment, this`remainingInnerSeriesToGroup
    {
      interval > 0 && InnerOnGrid() && pulled <= |assignment| &&
      (forall j :: 0 <= j < pulled ==> inner.At(j).Series?) &&
      remainingInnerSeriesToGroup == assignment[pulled..]
    }

    /** The data of the inner series folded in so far. */
    ghost function Pulled(): (ds: seq<SeriesData>)
      reads this`pulled, this`assignment, this`remainingInnerSeriesToGroup
      requires Core()
      ensures |ds| == pulled
      ensures forall j :: 0 <= j < pulled ==> ds[j] == inner.At(j).data && InRange(ds[j], start, interval, steps)
    {
      inner.Delivered(pulled)
    }

    /** A group not yet emitted: its counter is the number of its members still to be
      pulled, its last index is the position of its last member, and its arrays hold
      the fold of its members pulled so far. */
    ghost predicate Tracked(g: Group)
      reads this`pulled, this`assignment, this`remainingInnerSeriesToGroup, g, g.floatSums, g.floatPresent, g.histogramSums
      requires Core()
    {
      g.Valid(steps) && g in assignment &&
      g.remainingSeriesCount == multiset(assignment[pulled..])[g] &&
      g.lastSeriesIndex == LastIndexOf(assignment, g)
    }

    /** The arrays of `g` hold the fold of its members pulled so far. */
    ghost predicate Folded(g: Group)
      reads this`pulled, this`assignment, this`remainingInnerSeriesToGroup, g, g.floatSums, g.floatPresent, g.histogramSums
      requires Core()
    {
      g.State() == FoldMembers(assignment[..pulled], Pulled(), g, steps, start, interval, merge)
    }

    /** The groups still to be emitted, `active`: each is tracked, they are in strictly
      ascending order of last member, their arrays are separate, and every series still
      to be pulled belongs to one of them. The inner operator is not part of it. */
    ghost predicate Groups(active: seq<Group>)
      reads this`Repr, this`pulled, this`assignment, this`remainingInnerSeriesToGroup, Repr - {this, inner}
    {
      this in Repr && Core() && AllTracked(active) && Ordered(active) && Separate(active) && Covered(active)
    }

    ghost predicate AllTracked(active: seq<Group>)
      reads this`Repr, this`pulled, this`assignment, this`remainingInnerSeriesToGroup, Repr - {this, inner}
      requires Core()
    {
      (forall g :: g in active ==> g in Repr && g.Arrays() <= Repr && g.Valid(steps)) &&
      (forall g {:trigger Tracked(g)} :: g in active ==> Tracked(g)) &&
      (forall g {:trigger Folded(g)} :: g in active ==> Folded(g))
    }

    /** The groups still to be emitted are in strictly ascending order of last member. */
    ghost predicate Ordered(active: seq<Group>)
      reads active
    {
      forall i, j :: 0 <= i < j < |active| ==> active[i].lastSeriesIndex < active[j].lastSeriesIndex
    }

    /** No two groups share an array. */
    ghost predicate Separate(active: seq<Group>)
      reads active
    {
      forall i, j :: 0 <= i < j < |active| ==> active[i].Arrays() !! active[j].Arrays()
    }

    /** Every series still to be pulled belongs to one of the groups. */
    ghost predicate Covered(active: seq<Group>)
      reads this`pulled, this`assignment
    {
      forall j :: pulled <= j < |assignment| ==> assignment[j] in active
    }

    /** The invariant between calls: the groups are in order and the inner operator has
      delivered exactly the series pulled so far. */
    ghost predicate Inv(active: seq<Group>)
      reads this`Repr, this`pulled, this`assignment, this`remainingInnerSeriesToGroup, Repr - {this}
    {
      this in Repr && inner in Repr && Groups(active) && pulled == inner.pos
    }

    ghost predicate Valid()
      reads this, Repr
    {
      Inv(remainingGroups) &&
      forall g :: g in remainingGroups ==> g.remainingSeriesCount > 0
    }

    constructor (inner: ScriptedOperator, start: int, interval: int, steps: nat, grouping: seq<string>,
                 hash: Labels -> nat, merge: (Histogram, Histogram) -> Histogram)
      requires interval > 0 && inner.pos == 0
      requires forall j :: 0 <= j < |inner.script| && inner.script[j].Series? ==>
        InRange(inner.script[j].data, start, interval, steps)
      ensures Valid() && Repr == {this, inner}
      ensures this.inner == inner && this.start == start && this.interval == interval && this.steps == steps
      ensures this.grouping == grouping && this.hash == hash && this.merge == merge
      ensures remainingGroups == [] && remainingInnerSeriesToGroup == [] && assignment == [] && pulled == 0
    {
      this.inner, this.start, this.interval, this.steps := inner, start, interval, steps;
      this.grouping, this.hash, this.merge := grouping, hash, merge;
      remainingInnerSeriesToGroup, remainingGroups := [], [];
      assignment, pulled := [], 0;
      Repr := {this, inner};
    }

    /** SeriesMetadata: fetches the inner series' metadata (an error is passed on, no
      series give no groups), assigns every series to the group of its grouping key,
      and returns the groups' labels ordered by the position of each group's last
      member. */
    method SeriesMetadata() returns (r: Result<seq<Labels>>)
      requires Valid() && assignment == [] && remainingGroups == []
      modifies this`remainingInnerSeriesToGroup, this`remainingGroups, this`assignment, this`Repr
      ensures Valid() && pulled == 0 && fresh(Repr - old(Repr))
      ensures inner.metadata.Err? ==> r == inner.metadata && assignment == [] && remainingGroups == []
      ensures inner.metadata == Ok([]) ==> r == Ok([]) && assignment == [] && remainingGroups == []
      ensures inner.metadata.Ok? ==>
        Grouped(inner.metadata.value, assignment, remainingGroups) &&
        r == Ok(GroupLabelsInOrder(inner.metadata.value, Keys(hash, inner.metadata.value, grouping), grouping))
    {
      var md := inner.SeriesMetadata();
      if md.Err? {
        return md;
      }
      var series := md.value;
      if |series| == 0 {
        LastPositionsFacts(Keys(hash, series, grouping));
        return Ok([]);
      }
      var labels := GroupSeries(series);
      r := Ok(labels);
    }

    /** The work of SeriesMetadata on a non-empty list of series: assign the series to
      groups, order the groups, and install them as the work lists. */
    method GroupSeries(series: seq<Labels>) returns (labels: seq<Labels>)
      requires Valid() && assignment == [] && remainingGroups == []
      modifies this`remainingInnerSeriesToGroup, this`remainingGroups, this`assignment, this`Repr
      ensures Valid() && pulled == 0 && fresh(Repr - old(Repr))
      ensures Grouped(series, assignment, remainingGroups)
      ensures labels == GroupLabelsInOrder(series, Keys(hash, series, grouping), grouping)
    {
      var owner, groupsInOrder;
      owner, groupsInOrder, labels := BuildGroups(series);
      InstallGroups(owner, groupsInOrder);
    }

    /** The new groups of the metadata pass: one per grouping key, listed by series
      and in output order. */
    method BuildGroups(series: seq<Labels>) returns (owner: seq<Group>, groupsInOrder: seq<Group>, labels: seq<Labels>)
      ensures forall g :: g in owner ==> fresh(g) && NewGroup(g, owner)
      ensures Grouped(series, owner, groupsInOrder)
      ensures labels == GroupLabelsInOrder(series, Keys(hash, series, grouping), grouping)
      ensures forall k :: 0 <= k < |groupsInOrder| ==> groupsInOrder[k] in owner
      ensures forall j :: 0 <= j < |owner| ==> owner[j] in groupsInOrder
      ensures forall i, j :: 0 <= i < j < |groupsInOrder| ==> groupsInOrder[i].lastSeriesIndex < groupsInOrder[j].lastSeriesIndex
    {
      var groups;
      groups, owner := AssignGroups(series);
      groupsInOrder, labels := OrderGroups(series, groups, owner);
    }

    /** The groups of the metadata pass, ordered by the position of their last member,
      with the labels of each. */
    method OrderGroups(series: seq<Labels>, groups: map<nat, GroupWithLabels<Group>>, owner: seq<Group>)
      returns (groupsInOrder: seq<Group>, labels: seq<Labels>)
      requires GroupsSoFar(series, Keys(hash, series, grouping), groups, owner)
      requires forall x :: x in groups ==>
        groups[x].group in owner && groups[x].group.lastSeriesIndex == LastIndexOf(owner, groups[x].group)
      ensures Grouped(series, owner, groupsInOrder)
      ensures labels == GroupLabelsInOrder(series, Keys(hash, series, grouping), grouping)
      ensures forall k :: 0 <= k < |groupsInOrder| ==> groupsInOrder[k] in owner
      ensures forall j :: 0 <= j < |owner| ==> owner[j] in groupsInOrder
      ensures forall i, j :: 0 <= i < j < |groupsInOrder| ==> groupsInOrder[i].lastSeriesIndex < groupsInOrder[j].lastSeriesIndex
    {
      var entries; ghost var ks;
      entries, ks := CollectGroups(groups, owner);
      var sorted := SortEntries(entries);
      groupsInOrder := seq(|sorted|, k requires 0 <= k < |sorted| => sorted[k].group);
      ghost var keys := Keys(hash, series, grouping);
      labels := seq(|sorted|, k requires 0 <= k < |sorted| => sorted[k].labels);
      ListedInOrder(series, keys, grouping, owner, groups, ks, entries, sorted, groupsInOrder, labels);
      GroupedInOrder(series, owner, groupsInOrder);
    }

    /** After the metadata pass over `series`: `owner` has one group per series, the
      same group exactly where the grouping keys agree; `groupsInOrder` lists the groups
      of the keys' last series, in the order of those positions, each recording that
      position as its last member and counting all its members. */
    ghost predicate Grouped(series: seq<Labels>, owner: seq<Group>, groupsInOrder: seq<Group>)
      reads groupsInOrder
    {
      var keys := Keys(hash, series, grouping);
      |owner| == |series| &&
      (forall i, j :: 0 <= i < |series| && 0 <= j < |series| ==> (owner[i] == owner[j] <==> keys[i] == keys[j])) &&
      |groupsInOrder| == |LastPositions(keys)| &&
      forall k :: 0 <= k < |groupsInOrder| ==>
        LastPositions(keys)[k] < |series| && groupsInOrder[k] == owner[LastPositions(keys)[k]] &&
        groupsInOrder[k].lastSeriesIndex == LastPositions(keys)[k] &&
        groupsInOrder[k].remainingSeriesCount == multiset(owner)[groupsInOrder[k]]
    }

    /** The groups listed in order of their last member satisfy Grouped, given what
      the loop of SeriesMetadata recorded in each group. */
    lemma GroupedInOrder(series: seq<Labels>, owner: seq<Group>, groupsInOrder: seq<Group>)
      requires |owner| == |series|
      requires forall i, j :: 0 <= i < |series| && 0 <= j < |series| ==>
        (owner[i] == owner[j] <==> Keys(hash, series, grouping)[i] == Keys(hash, series, grouping)[j])
      requires forall g :: g in owner ==> NewGroup(g, owner)
      requires |groupsInOrder| == |LastPositions(Keys(hash, series, grouping))|
      requires forall k :: 0 <= k < |groupsInOrder| ==>
        var p := LastPositions(Keys(hash, series, grouping))[k];
        p < |owner| && groupsInOrder[k] == owner[p] && groupsInOrder[k] in owner && LastIndexOf(owner, groupsInOrder[k]) == p
      requires StrictlyIncreasing(LastPositions(Keys(hash, series, grouping)))
      ensures Grouped(series, owner, groupsInOrder)
      ensures forall i, j :: 0 <= i < j < |groupsInOrder| ==> groupsInOrder[i].lastSeriesIndex < groupsInOrder[j].lastSeriesIndex
    {
      forall k | 0 <= k < |groupsInOrder|
        ensures NewGroup(groupsInOrder[k], owner)
      {
      }
    }

    /** The end of SeriesMetadata: the work lists take the series' groups and the groups
      in output order, and the new groups join the footprint. */
    method InstallGroups(owner: seq<Group>, groupsInOrder: seq<Group>)
      requires Valid() && assignment == [] && remainingGroups == []
      requires forall g :: g in owner ==> NewGroup(g, owner)
      requires forall k :: 0 <= k < |groupsInOrder| ==> groupsInOrder[k] in owner
      requires forall j :: 0 <= j < |owner| ==> owner[j] in groupsInOrder
      requires forall i, j :: 0 <= i < j < |groupsInOrder| ==> groupsInOrder[i].lastSeriesIndex < groupsInOrder[j].lastSeriesIndex
      modifies this`remainingInnerSeriesToGroup, this`remainingGroups, this`assignment, this`Repr
      ensures Valid() && pulled == 0
      ensures assignment == owner && remainingGroups == groupsInOrder && Repr == old(Repr) + set g | g in owner
    {
      remainingInnerSeriesToGroup, assignment, remainingGroups := owner, owner, groupsInOrder;
      Repr := Repr + set g | g in owner;
      NewGroupsValid();
    }

    /** The groups the metadata pass has just created satisfy the invariant: nothing
      pulled yet, no arrays yet, each counting all its members and knowing its last. */
    lemma NewGroupsValid()
      requires this in Repr && inner in Repr && inner.pos == 0 && pulled == 0
      requires interval > 0 && InnerOnGrid() && remainingInnerSeriesToGroup == assignment
      requires forall g :: g in assignment ==> g in Repr && NewGroup(g, assignment)
      requires forall k :: 0 <= k < |remainingGroups| ==> remainingGroups[k] in assignment
      requires forall i, j :: 0 <= i < j < |remainingGroups| ==>
        remainingGroups[i].lastSeriesIndex < remainingGroups[j].lastSeriesIndex
      requires forall j :: 0 <= j < |assignment| ==> assignment[j] in remainingGroups
      ensures Valid()
    {
      assert assignment[pulled..] == assignment;
      forall g | g in remainingGroups
        ensures g.Arrays() == {} && g.Valid(steps) && Tracked(g) && Folded(g) && g.remainingSeriesCount > 0
      {
        assert g in assignment && NewGroup(g, assignment);
        assert g.State() == EmptyGroup();
      }
    }

    /** The loop of SeriesMetadata over the inner series: looks the series' key up,
      creates the group with the series' group labels on the key's first series, counts
      the series in and records it as the group's last member so far. */
    method AssignGroups(series: seq<Labels>) returns (groups: map<nat, GroupWithLabels<Group>>, owner: seq<Group>)
      ensures GroupsSoFar(series, Keys(hash, series, grouping), groups, owner)
      ensures forall x :: x in groups ==>
        groups[x].group in owner && groups[x].group.lastSeriesIndex == LastIndexOf(owner, groups[x].group)
      ensures forall g :: g in owner ==> fresh(g)
    {
      ghost var keys := Keys(hash, series, grouping);
      groups, owner := map[], [];
      for i := 0 to |series|
        invariant GroupsSoFar(series[..i], keys[..i], groups, owner)
        invariant forall g :: g in owner ==> fresh(g)
      {
        var key := GroupingKey(hash, series[i], grouping);
        groups, owner := JoinGroup(series[..i], keys[..i], groups, owner, series[i], key, i);
        assert series[..i + 1] == series[..i] + [series[i]] && keys[..i + 1] == keys[..i] + [key];
      }
      assert series[..|series|] == series && keys[..|series|] == keys;
      forall x | x in groups
        ensures groups[x].group in owner && NewGroup(groups[x].group, owner)
      {
        assert groups[x].group == owner[FirstIndexOf(keys, x)];
      }
    }

    /** The groups of the first series, as the loop of SeriesMetadata leaves them. */
    ghost predicate GroupsSoFar(series: seq<Labels>, keys: seq<nat>, groups: map<nat, GroupWithLabels<Group>>, owner: seq<Group>)
      reads set g | g in owner
    {
      Assigned(series, keys, grouping, owner, groups) &&
      forall g :: g in owner ==> NewGroup(g, owner)
    }

    /** One turn of the loop of SeriesMetadata: the series at position `index`, with
      grouping key `key`, joins the group of its key, created on the key's first series
      with the series' group labels; the group counts it and records it as its last
      member so far. */
    method JoinGroup(ghost series: seq<Labels>, ghost keys: seq<nat>, groups: map<nat, GroupWithLabels<Group>>,
                     owner: seq<Group>, s: Labels, key: nat, index: int)
      returns (groups': map<nat, GroupWithLabels<Group>>, owner': seq<Group>)
      requires GroupsSoFar(series, keys, groups, owner) && index == |owner|
      modifies set g | g in owner
      ensures GroupsSoFar(series + [s], keys + [key], groups', owner')
      ensures forall g :: g in owner' ==> g in owner || fresh(g)
    {
      var g: Group;
      if key in groups {
        g := groups[key].group;
      } else {
        g := new Group();
      }
      AssignStep(series, keys, grouping, owner, groups, s, key, g);
      if key in groups {
        groups' := groups;
      } else {
        groups' := groups[key := GroupWithLabels(LabelsForGroup(s, grouping), g)];
      }
      g.remainingSeriesCount := g.remainingSeriesCount + 1;
      g.lastSeriesIndex := index;
      owner' := owner + [g];
      forall h | h in owner'
        ensures NewGroup(h, owner')
      {
        LastIndexOfAppend(owner, g, h);
      }
    }

    /** A group of the metadata pass: no arrays yet, counting its members among `owner`
      and knowing the position of its last. */
    ghost predicate NewGroup(g: Group, owner: seq<Group>)
      reads g
      requires g in owner
    {
      g.floatSums == null && g.floatPresent == null && g.histogramSums == null && g.histogramPointCount == 0 &&
      g.remainingSeriesCount == multiset(owner)[g] && g.lastSeriesIndex == LastIndexOf(owner, g)
    }

    /** The loop of SeriesMetadata over the group map: one entry per key (labels, group
      and the group's last member), in whatever order the map yields them. */
    method CollectGroups(groups: map<nat, GroupWithLabels<Group>>, ghost owner: seq<Group>)
      returns (entries: seq<Entry<Group>>, ghost ks: seq<nat>)
      requires forall x :: x in groups ==>
        groups[x].group in owner && groups[x].group.lastSeriesIndex == LastIndexOf(owner, groups[x].group)
      ensures Distinct(ks) && |ks| == |entries| && (forall x :: x in groups ==> x in ks)
      ensures forall m :: 0 <= m < |ks| ==> Collected(owner, groups, ks[m], entries[m])
    {
      entries, ks := [], [];
      var todo := groups.Keys;
      while todo != {}
        invariant todo <= groups.Keys
        invariant Distinct(ks) && |ks| == |entries|
        invariant forall x :: x in groups ==> (x in ks <==> x !in todo)
        invariant forall m :: 0 <= m < |ks| ==> Collected(owner, groups, ks[m], entries[m])
        decreases todo
      {
        var x :| x in todo;
        var gl := groups[x];
        entries := entries + [Entry(gl.labels, gl.group, gl.group.lastSeriesIndex)];
        ks := ks + [x];
        todo := todo - {x};
      }
    }

    /** seriesIntoGroup: acquires the group's float arrays on its first series with
      floats and its histogram array on its first series with histograms, folds the
      series in, and counts the series off. */
    method SeriesIntoGroup(s: SeriesData, g: Group, ghost others: seq<Group>)
      requires g.Valid(steps) && InRange(s, start, interval, steps) && g.remainingSeriesCount > 0
      requires forall k :: k in others && k != g ==> k.Arrays() !! g.Arrays()
      modifies g, g.floatSums, g.floatPresent, g.histogramSums
      ensures forall k :: k in others && k != g ==>
          k.floatSums == old(k.floatSums) && k.floatPresent == old(k.floatPresent) &&
          k.histogramSums == old(k.histogramSums) && k.State() == old(k.State()) &&
          k.remainingSeriesCount == old(k.remainingSeriesCount) && k.lastSeriesIndex == old(k.lastSeriesIndex)
      ensures g.Valid(steps)
      ensures g.State() == IntoGroup(old(g.State()), s, steps, start, interval, merge)
      ensures g.remainingSeriesCount == old(g.remainingSeriesCount) - 1
      ensures g.lastSeriesIndex == old(g.lastSeriesIndex)
      ensures g.Grown()
    {
      g.AddSeries(s, steps, start, interval, merge);
      OthersUntouched(g, others);
    }

    /** A step that touched only `g` and its arrays left every other group as it was. */
    twostate lemma OthersUntouched(new g: Group, new others: seq<Group>)
      requires old(allocated(g)) && old(allocated(others))
      requires forall k :: k in others && k != g ==> old(k.Arrays() !! g.Arrays())
      requires forall o: object :: old(allocated(o)) && o != this && o != g && o !in old(g.Arrays()) ==> unchanged(o)
      ensures forall k :: k in others && k != g ==>
          k.floatSums == old(k.floatSums) && k.floatPresent == old(k.floatPresent) &&
          k.histogramSums == old(k.histogramSums) && k.State() == old(k.State()) &&
          k.remainingSeriesCount == old(k.remainingSeriesCount) && k.lastSeriesIndex == old(k.lastSeriesIndex)
    {
      forall k | k in others && k != g
        ensures k.floatSums == old(k.floatSums) && k.floatPresent == old(k.floatPresent) &&
          k.histogramSums == old(k.histogramSums) && k.State() == old(k.State()) &&
          k.remainingSeriesCount == old(k.remainingSeriesCount) && k.lastSeriesIndex == old(k.lastSeriesIndex)
      {
        assert k !in old(g.Arrays());
        assert unchanged(k);
        assert unchanged(old(k.Arrays()));
      }
    }

    /** NextSeries: end of stream once every group has been returned; otherwise takes
      the group whose last member comes first, pulls inner series until that group is
      complete, and returns its sums as a series. Every earlier group has been returned
      by then, and the series pulled are exactly those up to the group's last member. */
    method NextSeries() returns (r: NextResult)
      requires Valid()
      modifies Repr
      ensures fresh(Repr - old(Repr))
      ensures !r.Failed? ==> Valid()
      ensures old(remainingGroups) == [] ==> r == EndOfStream && remainingGroups == [] && pulled == old(pulled)
      ensures old(remainingGroups) != [] ==>
        !r.EndOfStream? && remainingGroups == old(remainingGroups)[1..] && assignment == old(assignment)
      ensures r.Series? ==>
        pulled == old(remainingGroups)[0].lastSeriesIndex + 1 && Core() &&
        r.data == Output(Reconcile(FoldMembers(assignment[..pulled], Pulled(), old(remainingGroups)[0],
                                               steps, start, interval, merge)), start, interval)
      ensures r.Failed? ==> inner.pos == pulled + 1 && !inner.At(pulled).Series? && r.err == PullError(inner.At(pulled))
    {
      if remainingGroups == [] {
        return EndOfStream;
      }
      var g := remainingGroups[0];
      var err := AccumulateUntilGroupComplete(g, remainingGroups);
      if err.Some? {
        remainingGroups := remainingGroups[1..];
        return Failed(err.value);
      }
      r := CompleteGroup(g);
    }

    /** Taking the head group off the list of groups to return changes nothing the
      invariant reads. */
    twostate lemma PopKeepsInv(new active: seq<Group>)
      requires old(allocated(active)) && old(Inv(active))
      requires Repr == old(Repr) && pulled == old(pulled) && assignment == old(assignment)
      requires remainingInnerSeriesToGroup == old(remainingInnerSeriesToGroup)
      requires forall o :: o in Repr && o != this ==> unchanged(o)
      ensures Inv(active)
    {
    }

    /** The end of NextSeries once the head group `g` is complete: its output series,
      after which the groups still to come satisfy the invariant on their own. */
    method CompleteGroup(g: Group) returns (r: NextResult)
      requires Inv(remainingGroups) && |remainingGroups| > 0 && g == remainingGroups[0]
      requires pulled == g.lastSeriesIndex + 1
      modifies this`remainingGroups, g, g.floatPresent, g.histogramSums
      ensures Repr == old(Repr) && remainingGroups == old(remainingGroups)[1..] && assignment == old(assignment)
      ensures r.Series? && Valid() && pulled == g.lastSeriesIndex + 1
      ensures r.data == Output(Reconcile(FoldMembers(assignment[..pulled], Pulled(), g, steps, start, interval, merge)), start, interval)
    {
      ghost var active := remainingGroups;
      remainingGroups := remainingGroups[1..];
      PopKeepsInv(active);
      assert active == [g] + remainingGroups;
      HeadFacts(g, remainingGroups);
      TailFacts(g, remainingGroups);
      label BeforeEmit:
      var data := Emit(g, remainingGroups);
      EmitKeepsGroups@BeforeEmit(g, remainingGroups);
      r := Series(data);
    }

    /** What returning the head group relies on: its arrays hold the fold of its
      members, and no other group is the same group or shares an array with it. */
    lemma HeadFacts(g: Group, rest: seq<Group>)
      requires Groups([g] + rest)
      ensures g.Valid(steps)
      ensures g.State() == FoldMembers(assignment[..pulled], Pulled(), g, steps, start, interval, merge)
      ensures forall k :: k in rest ==> k != g && k.Arrays() !! g.Arrays()
    {
      var active := [g] + rest;
      assert g in active && Folded(g);
      forall k | k in rest
        ensures k != g && k.Arrays() !! g.Arrays()
      {
        var x :| 0 <= x < |rest| && rest[x] == k;
        assert active[x + 1] == k && active[0] == g;
      }
    }

    /** Once the head group is complete, the groups after it satisfy the invariant on
      their own, and each of them still expects at least one member: its last member
      comes after the head group's, which is the last series pulled. */
    lemma TailFacts(g: Group, rest: seq<Group>)
      requires Groups([g] + rest) && pulled == g.lastSeriesIndex + 1
      ensures Groups(rest)
      ensures forall k :: k in rest ==> k.remainingSeriesCount > 0
    {
      TailTracked(g, rest);
      TailShape(g, rest);
      TailCovered(g, rest);
    }

    lemma TailTracked(g: Group, rest: seq<Group>)
      requires Groups([g] + rest) && pulled == g.lastSeriesIndex + 1
      ensures AllTracked(rest)
      ensures forall k :: k in rest ==> k.remainingSeriesCount > 0
    {
      var active := [g] + rest;
      var A := assignment;
      forall k | k in rest
        ensures k in Repr && k.Arrays() <= Repr && Tracked(k) && Folded(k) && k.remainingSeriesCount > 0
      {
        assert k in active && Tracked(k) && Folded(k);
        var x :| 0 <= x < |rest| && rest[x] == k;
        assert active[x + 1] == k && active[0] == g;
        assert A[k.lastSeriesIndex] == k && pulled <= k.lastSeriesIndex;
        assert A[pulled..][k.lastSeriesIndex - pulled] == k;
      }
    }

    lemma TailShape(g: Group, rest: seq<Group>)
      requires Ordered([g] + rest) && Separate([g] + rest)
      ensures Ordered(rest) && Separate(rest)
    {
      var active := [g] + rest;
      forall i, j | 0 <= i < j < |rest|
        ensures rest[i].lastSeriesIndex < rest[j].lastSeriesIndex && rest[i].Arrays() !! rest[j].Arrays()
      {
        assert active[i + 1] == rest[i] && active[j + 1] == rest[j];
      }
    }

    lemma TailCovered(g: Group, rest: seq<Group>)
      requires Groups([g] + rest) && pulled == g.lastSeriesIndex + 1
      ensures Covered(rest)
    {
      var active := [g] + rest;
      var A := assignment;
      assert g in active && Tracked(g);
      forall j | pulled <= j < |A|
        ensures A[j] in rest
      {
        assert A[j] in active && A[j] != g;
      }
    }

    /** The tail of NextSeries: builds the output series from the completed group, then
      hands its arrays back (dropped here) and clears its histogram point count. */
    method Emit(g: Group, ghost others: seq<Group>) returns (data: SeriesData)
      requires g.Valid(steps)
      requires forall k :: k in others && k != g ==> k.Arrays() !! g.Arrays()
      modifies g, g.floatPresent, g.histogramSums
      ensures data == Output(Reconcile(old(g.State())), start, interval)
      ensures g.floatSums == null && g.floatPresent == null && g.histogramSums == null && g.histogramPointCount == 0
      ensures g.remainingSeriesCount == old(g.remainingSeriesCount) && g.lastSeriesIndex == old(g.lastSeriesIndex)
      ensures forall k :: k in others && k != g ==>
          k.floatSums == old(k.floatSums) && k.floatPresent == old(k.floatPresent) &&
          k.histogramSums == old(k.histogramSums) && k.State() == old(k.State()) &&
          k.remainingSeriesCount == old(k.remainingSeriesCount) && k.lastSeriesIndex == old(k.lastSeriesIndex)
    {
      data := ConstructSeriesData(g, start, interval, steps);
      g.floatSums, g.floatPresent, g.histogramSums := null, null, null;
      g.histogramPointCount := 0;
      OthersUntouched(g, others);
    }

    /** Returning the head group touches only that group and its arrays, so the
      invariant of the groups after it still holds. */
    twostate lemma EmitKeepsGroups(new g: Group, new rest: seq<Group>)
      requires old(allocated(g)) && old(allocated(rest)) && unchanged(this)
      requires old(Groups(rest)) && forall k :: k in rest ==> k != g
      requires forall k :: k in rest && k != g ==>
          k.floatSums == old(k.floatSums) && k.floatPresent == old(k.floatPresent) &&
          k.histogramSums == old(k.histogramSums) && k.State() == old(k.State()) &&
          k.remainingSeriesCount == old(k.remainingSeriesCount) && k.lastSeriesIndex == old(k.lastSeriesIndex)
      ensures Groups(rest)
    {
      assert Core() && Pulled() == old(Pulled());
      forall k | k in rest
        ensures k in Repr && k.Arrays() <= Repr && Tracked(k) && Folded(k)
      {
        assert old(k.Arrays()) == k.Arrays();
        assert old(Tracked(k) && Folded(k));
      }
      forall i, j | 0 <= i < j < |rest|
        ensures rest[i].lastSeriesIndex < rest[j].lastSeriesIndex && rest[i].Arrays() !! rest[j].Arrays()
      {
        assert rest[i] in rest && rest[j] in rest;
        assert old(rest[i].Arrays()) == rest[i].Arrays() && old(rest[j].Arrays()) == rest[j].Arrays();
      }
    }

    /** accumulateUntilGroupComplete: pulls inner series, folding each into its own
      group, until `g` has no members left. The inner operator ending early is reported
      as exhausted series; its errors are passed on. */
    method AccumulateUntilGroupComplete(g: Group, ghost active: seq<Group>) returns (err: Option<Error>)
      requires Inv(active) && g in active && g.remainingSeriesCount > 0
      modifies Repr
      ensures remainingGroups == old(remainingGroups) && assignment == old(assignment)
      ensures fresh(Repr - old(Repr))
      ensures err.None? ==> Inv(active) && g.remainingSeriesCount == 0 && pulled == g.lastSeriesIndex + 1
      ensures err.Some? ==> inner.pos == pulled + 1 && !inner.At(pulled).Series? && err.value == PullError(inner.At(pulled))
    {
      Pending(active, g);
      while g.remainingSeriesCount > 0
        invariant Inv(active)
        invariant fresh(Repr - old(Repr))
        invariant pulled <= g.lastSeriesIndex + 1
        invariant remainingGroups == old(remainingGroups) && assignment == old(assignment)
        decreases |assignment| - pulled
      {
        Pending(active, g);
        var r := PullOne(active);
        if !r.Series? {
          return Some(PullError(r));
        }
      }
      Completed(active, g);
      return None;
    }

    /** A group that still expects members has its last member at or after the next
      position to pull. */
    lemma Pending(active: seq<Group>, g: Group)
      requires Groups(active) && g in active && g.remainingSeriesCount > 0
      ensures pulled <= g.lastSeriesIndex < |assignment|
    {
      assert Tracked(g);
      assert g in assignment[pulled..];
      InSuffixBeforeLast(assignment, g, pulled);
    }

    /** A group with no members left to pull has had its last member pulled. */
    lemma Completed(active: seq<Group>, g: Group)
      requires Groups(active) && g in active && g.remainingSeriesCount == 0
      requires pulled <= g.lastSeriesIndex + 1
      ensures pulled == g.lastSeriesIndex + 1
    {
      assert Tracked(g);
      LastInSuffix(assignment, g, pulled);
    }

    /** One turn of the accumulation loop: pull the next inner series and fold it into
      the group of its position. */
    method PullOne(ghost active: seq<Group>) returns (r: NextResult)
      requires Inv(active) && pulled < |assignment|
      modifies Repr
      ensures r == inner.At(old(pulled)) && inner.pos == old(pulled) + 1
      ensures !r.Series? ==> pulled == old(pulled)
      ensures assignment == old(assignment) && remainingGroups == old(remainingGroups)
      ensures forall k :: k in active ==> k.lastSeriesIndex == old(k.lastSeriesIndex)
      ensures fresh(Repr - old(Repr))
      ensures r.Series? ==> Inv(active) && pulled == old(pulled) + 1
    {
      r := inner.NextSeries();
      if r.Series? {
        FoldPulled(active, r.data);
      }
    }

    /** Folds the series just pulled into the group of its position and counts it off. */
    method FoldPulled(ghost active: seq<Group>, d: SeriesData)
      requires this in Repr && inner in Repr && Groups(active) && pulled < |assignment|
      requires inner.At(pulled) == Series(d)
      modifies Repr - {inner}
      ensures assignment == old(assignment) && remainingGroups == old(remainingGroups)
      ensures forall k :: k in active ==> k.lastSeriesIndex == old(k.lastSeriesIndex)
      ensures fresh(Repr - old(Repr)) && old(Repr) <= Repr
      ensures Groups(active) && pulled == old(pulled) + 1
    {
      PullFacts(active, d);
      var h := remainingInnerSeriesToGroup[0];
      Advance(h, d, active);
      PullKeepsGroups(active, h, d);
    }

    /** The state change of one pull: the series is folded into its group, leaves the
      work list and counts as pulled; the group's new arrays join the footprint. */
    method Advance(h: Group, d: SeriesData, ghost active: seq<Group>)
      requires this in Repr && |remainingInnerSeriesToGroup| > 0 && h == remainingInnerSeriesToGroup[0]
      requires h in Repr && h.Arrays() <= Repr
      requires h.Valid(steps) && InRange(d, start, interval, steps) && h.remainingSeriesCount > 0
      requires forall k :: k in active && k != h ==> k.Arrays() !! h.Arrays()
      modifies this`remainingInnerSeriesToGroup, this`pulled, this`Repr
      modifies h, h.floatSums, h.floatPresent, h.histogramSums
      ensures pulled == old(pulled) + 1
      ensures remainingInnerSeriesToGroup == old(remainingInnerSeriesToGroup)[1..]
      ensures Repr == old(Repr) + h.Arrays() && fresh(Repr - old(Repr)) && old(Repr) <= Repr
      ensures h.Valid(steps) && h.State() == IntoGroup(old(h.State()), d, steps, start, interval, merge)
      ensures h.remainingSeriesCount == old(h.remainingSeriesCount) - 1 && h.lastSeriesIndex == old(h.lastSeriesIndex)
      ensures h.Grown()
      ensures forall k :: k in active && k != h ==>
          k.floatSums == old(k.floatSums) && k.floatPresent == old(k.floatPresent) &&
          k.histogramSums == old(k.histogramSums) && k.State() == old(k.State()) &&
          k.remainingSeriesCount == old(k.remainingSeriesCount) && k.lastSeriesIndex == old(k.lastSeriesIndex)
    {
      SeriesIntoGroup(d, h, active);
      remainingInnerSeriesToGroup, pulled, Repr := remainingInnerSeriesToGroup[1..], pulled + 1, Repr + h.Arrays();
      OthersUntouched(h, active);
    }

    /** What folding in the next series relies on: its group is the head of the work
      list, is tracked, still expects it, and shares no array with another group. */
    lemma PullFacts(active: seq<Group>, d: SeriesData)
      requires Groups(active) && pulled < |assignment| && inner.At(pulled) == Series(d)
      ensures |remainingInnerSeriesToGroup| > 0 && InRange(d, start, interval, steps)
      ensures var h := remainingInnerSeriesToGroup[0];
        h == assignment[pulled] && h in active && h in Repr && h.Arrays() <= Repr &&
        h.Valid(steps) && h.remainingSeriesCount > 0 &&
        forall k :: k in active && k != h ==> k.Arrays() !! h.Arrays()
    {
      var h := assignment[pulled];
      assert assignment[pulled..][0] == h;
      assert h in active && Tracked(h);
      assert h in multiset(assignment[pulled..]);
      assert inner.script[pulled] == Series(d);
      forall k | k in active && k != h
        ensures k.Arrays() !! h.Arrays()
      {
        SeparateMembers(active, k, h);
      }
    }

    /** Two different groups still to be emitted share no array. */
    lemma SeparateMembers(active: seq<Group>, a: Group, b: Group)
      requires Ordered(active) && Separate(active)
      requires a in active && b in active && a != b
      ensures a.Arrays() !! b.Arrays()
    {
      var x :| 0 <= x < |active| && active[x] == a;
      var y :| 0 <= y < |active| && active[y] == b;
      assert x != y;
    }

    /** The group invariant survives one pull: the group of the pulled series has
      folded it in and counted it off, and every other group is untouched. */
    twostate lemma PullKeepsGroups(new active: seq<Group>, new h: Group, d: SeriesData)
      requires old(allocated(active)) && old(allocated(h)) && old(Groups(active))
      requires old(pulled) < |old(assignment)| && h == old(assignment)[old(pulled)]
      requires inner.At(old(pulled)) == Series(d)
      requires pulled == old(pulled) + 1 && assignment == old(assignment)
      requires remainingInnerSeriesToGroup == old(remainingInnerSeriesToGroup)[1..]
      requires Repr == old(Repr) + h.Arrays()
      requires h.Valid(steps) && h.State() == IntoGroup(old(h.State()), d, steps, start, interval, merge)
      requires h.remainingSeriesCount == old(h.remainingSeriesCount) - 1 && h.lastSeriesIndex == old(h.lastSeriesIndex)
      requires h.Grown()
      requires forall k :: k in active && k != h ==>
          k.floatSums == old(k.floatSums) && k.floatPresent == old(k.floatPresent) &&
          k.histogramSums == old(k.histogramSums) && k.State() == old(k.State()) &&
          k.remainingSeriesCount == old(k.remainingSeriesCount) && k.lastSeriesIndex == old(k.lastSeriesIndex)
      ensures Groups(active)
    {
      h.GrownArrays();
      CoreAfterPull(d);
      assert Pulled()[old(pulled)] == d;
      AllTrackedAfterPull(active, d);
      OrderedAfterPull(active, h);
      SeparateAfterPull(active, h);
    }

    twostate lemma AllTrackedAfterPull(new active: seq<Group>, d: SeriesData)
      requires old(allocated(active)) && old(Core()) && old(AllTracked(active)) && Core()
      requires old(pulled) < |old(assignment)| && pulled == old(pulled) + 1 && assignment == old(assignment)
      requires Pulled() == old(Pulled()) + [d] && InRange(d, start, interval, steps)
      requires assignment[old(pulled)] in active
      requires var h := assignment[old(pulled)];
        Repr == old(Repr) + h.Arrays() &&
        h.Valid(steps) && h.State() == IntoGroup(old(h.State()), d, steps, start, interval, merge) &&
        h.remainingSeriesCount == old(h.remainingSeriesCount) - 1 && h.lastSeriesIndex == old(h.lastSeriesIndex) &&
        forall k :: k in active && k != h ==>
          k.floatSums == old(k.floatSums) && k.floatPresent == old(k.floatPresent) &&
          k.histogramSums == old(k.histogramSums) && k.State() == old(k.State()) &&
          k.remainingSeriesCount == old(k.remainingSeriesCount) && k.lastSeriesIndex == old(k.lastSeriesIndex)
      ensures AllTracked(active)
    {
      forall k | k in active
        ensures k in Repr && k.Arrays() <= Repr && Tracked(k) && Folded(k)
      {
        TrackedAfterPull(k, d);
      }
    }

    twostate lemma OrderedAfterPull(new active: seq<Group>, new h: Group)
      requires old(allocated(active)) && old(allocated(h)) && old(Ordered(active))
      requires h.lastSeriesIndex == old(h.lastSeriesIndex)
      requires forall k :: k in active && k != h ==> k.lastSeriesIndex == old(k.lastSeriesIndex)
      ensures Ordered(active)
    {
      forall i, j | 0 <= i < j < |active|
        ensures active[i].lastSeriesIndex < active[j].lastSeriesIndex
      {
        assert active[i] in active && active[j] in active;
        assert old(active[i].lastSeriesIndex) == active[i].lastSeriesIndex;
        assert old(active[j].lastSeriesIndex) == active[j].lastSeriesIndex;
      }
    }

    twostate lemma SeparateAfterPull(new active: seq<Group>, new h: Group)
      requires old(allocated(active)) && old(allocated(h)) && old(Ordered(active)) && old(Separate(active))
      requires old(h.Arrays()) <= h.Arrays() && fresh(h.Arrays() - old(h.Arrays()))
      requires forall k :: k in active && k != h ==>
          k.floatSums == old(k.floatSums) && k.floatPresent == old(k.floatPresent) && k.histogramSums == old(k.histogramSums)
      ensures Separate(active)
    {
      forall i, j | 0 <= i < j < |active|
        ensures active[i].Arrays() !! active[j].Arrays()
      {
        var a, b := active[i], active[j];
        assert a in active && b in active && a != b;
        assert old(a.Arrays() !! b.Arrays());
        PairSeparateAfterPull(a, b, h);
      }
    }

    /** Two groups that shared no array still share none after `h` acquired new ones. */
    twostate lemma PairSeparateAfterPull(new a: Group, new b: Group, new h: Group)
      requires old(allocated(a)) && old(allocated(b)) && old(allocated(h))
      requires a != b && old(a.Arrays() !! b.Arrays())
      requires old(h.Arrays()) <= h.Arrays() && fresh(h.Arrays() - old(h.Arrays()))
      requires a != h ==> a.floatSums == old(a.floatSums) && a.floatPresent == old(a.floatPresent) && a.histogramSums == old(a.histogramSums)
      requires b != h ==> b.floatSums == old(b.floatSums) && b.floatPresent == old(b.floatPresent) && b.histogramSums == old(b.histogramSums)
      ensures a.Arrays() !! b.Arrays()
    {
      if a != h {
        assert a.Arrays() == old(a.Arrays());
      }
      if b != h {
        assert b.Arrays() == old(b.Arrays());
      }
    }

    /** Pulling one series keeps the bookkeeping consistent and extends the pulled
      data by that series. */
    twostate lemma CoreAfterPull(d: SeriesData)
      requires old(Core()) && old(pulled) < |old(assignment)| && inner.At(old(pulled)) == Series(d)
      requires pulled == old(pulled) + 1 && assignment == old(assignment)
      requires remainingInnerSeriesToGroup == old(remainingInnerSeriesToGroup)[1..]
      ensures Core() && Pulled() == old(Pulled()) + [d]
    {
      var i := old(pulled);
      var A := assignment;
      assert A[i..][1..] == A[i + 1..];
      forall j | 0 <= j < pulled
        ensures inner.At(j).Series?
      {
        if j == i {
          assert inner.At(j) == Series(d);
        }
      }
      inner.DeliveredStep(i);
    }

    /** One pull keeps a group tracked: the group of the pulled series has folded it in
      and counted it off; any other group is untouched. */
    twostate lemma TrackedAfterPull(new k: Group, d: SeriesData)
      requires old(allocated(k)) && old(Core()) && old(Tracked(k)) && old(Folded(k)) && Core()
      requires old(pulled) < |old(assignment)| && pulled == old(pulled) + 1 && assignment == old(assignment)
      requires Pulled() == old(Pulled()) + [d] && InRange(d, start, interval, steps)
      requires k == assignment[old(pulled)] ==>
        k.Valid(steps) && k.State() == IntoGroup(old(k.State()), d, steps, start, interval, merge) &&
        k.remainingSeriesCount == old(k.remainingSeriesCount) - 1 && k.lastSeriesIndex == old(k.lastSeriesIndex)
      requires k != assignment[old(pulled)] ==>
          k.floatSums == old(k.floatSums) && k.floatPresent == old(k.floatPresent) &&
          k.histogramSums == old(k.histogramSums) && k.State() == old(k.State()) &&
          k.remainingSeriesCount == old(k.remainingSeriesCount) && k.lastSeriesIndex == old(k.lastSeriesIndex)
      ensures Tracked(k) && Folded(k)
    {
      var i := old(pulled);
      var A := assignment;
      var P0 := old(Pulled());
      assert A[..i + 1] == A[..i] + [A[i]];
      assert A[i..] == [A[i]] + A[i + 1..];
      FoldMembersStep(A[..i], P0, A[i], d, k, steps, start, interval, merge);
      if k != A[i] {
        assert k.State() == old(k.State());
      }
    }

  }
}

/** The values that flow between operators: points, series data, labels, the result of
    pulling one series, and the dense-to-sparse conversion every accumulator ends with. */
module Series {
  import opened Floats

  datatype Option<T> = None | Some(value: T)

  /** A native histogram. Its buckets and schema rules belong to the histogram library
      and are not interpreted here; the library's operations are parameters
      (see HistogramOps). */
  datatype Histogram = Histogram(schema: int, count: real, sum: real)

  /** An error raised by the histogram library (for example incompatible schemas). */
  datatype HistogramError = HistogramError(code: nat)

  /** The histogram library's operations, left uninterpreted. `add` and `sub` may fail;
      `recognised` says whether an error converts to an annotation (a warning) rather
      than failing the query. */
  datatype HistogramOps = HistogramOps(
    add: (Histogram, Histogram) -> HistogramResult,
    sub: (Histogram, Histogram) -> HistogramResult,
    div: (Histogram, real) -> Histogram,
    mul: (Histogram, real) -> Histogram,
    compact: Histogram -> Histogram,
    recognised: HistogramError -> bool)

  datatype HistogramResult = HistogramOk(h: Histogram) | HistogramFailed(err: HistogramError)

  /** A timestamped value; timestamps are milliseconds. */
  datatype Point<V> = Point(t: int, v: V)
  type FPoint = Point<Float>
  type HPoint = Point<Histogram>

  /** One series' samples: the float points and the histogram points. */
  datatype SeriesData = SeriesData(floats: seq<FPoint>, histograms: seq<HPoint>)

  datatype Label = Label(name: string, value: string)
  type Labels = seq<Label>

  /** Errors that end a query. `ExhaustedSeries` wraps the end-of-stream signal. */
  datatype Error = ExhaustedSeries | OperatorError(code: nat) | HistogramFailure(cause: HistogramError)

  /** A value or the error that replaced it. */
  datatype Result<T> = Ok(value: T) | Err(error: Error)

  /** What one pull of an instant-vector operator yields. */
  datatype NextResult = Series(data: SeriesData) | EndOfStream | Failed(err: Error)

  /** The step a timestamp falls in. Go's integer division truncates toward zero, which
      agrees with Dafny's for the non-negative offsets allowed here. */
  function StepIndex(t: int, start: int, interval: int): nat
    requires interval > 0 && start <= t
  {
    (t - start) / interval
  }

  predicate OnGrid(t: int, start: int, interval: int, steps: nat)
  {
    interval > 0 && start <= t && StepIndex(t, start, interval) < steps
  }

  /** Every point of `s` falls on one of the `steps` slots of the query's grid. */
  predicate InRange(s: SeriesData, start: int, interval: int, steps: nat)
  {
    (forall i :: 0 <= i < |s.floats| ==> OnGrid(s.floats[i].t, start, interval, steps)) &&
    (forall i :: 0 <= i < |s.histograms| ==> OnGrid(s.histograms[i].t, start, interval, steps))
  }

  function StepTime(start: int, interval: int, i: int): int
  {
    start + i * interval
  }

  function CountSome<V>(slots: seq<Option<V>>): nat
  {
    if slots == [] then 0
    else CountSome(slots[..|slots| - 1]) + (if slots[|slots| - 1].Some? then 1 else 0)
  }

  function CountTrue(flags: seq<bool>): nat
  {
    if flags == [] then 0
    else CountTrue(flags[..|flags| - 1]) + (if flags[|flags| - 1] then 1 else 0)
  }

  /** Pairs a presence flag array with its value array. */
  function Zip<V>(present: seq<bool>, values: seq<V>): (r: seq<Option<V>>)
    requires |present| == |values|
    ensures |r| == |present|
    ensures forall i :: 0 <= i < |r| ==> r[i] == if present[i] then Some(values[i]) else None
  {
    seq(|present|, i requires 0 <= i < |present| => if present[i] then Some(values[i]) else None)
  }

  /** The dense-to-sparse conversion: one point per occupied slot, at its grid time, in
      slot order. */
  function Sparse<V>(slots: seq<Option<V>>, start: int, interval: int): seq<Point<V>>
  {
    if slots == [] then []
    else
      var n := |slots| - 1;
      Sparse(slots[..n], start, interval) +
        (if slots[n].Some? then [Point(StepTime(start, interval, n), slots[n].value)] else [])
  }

  predicate StrictlyAscending<V>(ps: seq<Point<V>>)
  {
    forall i, j :: 0 <= i < j < |ps| ==> ps[i].t < ps[j].t
  }

  lemma {:induction false} SparseLength<V>(slots: seq<Option<V>>, start: int, interval: int)
    ensures |Sparse(slots, start, interval)| == CountSome(slots)
  {
    if slots != [] {
      SparseLength(slots[..|slots| - 1], start, interval);
    }
  }

  /** Every emitted point comes from an occupied slot at that slot's grid time, and every
      occupied slot is emitted. */
  lemma {:induction false} SparseMembers<V>(slots: seq<Option<V>>, start: int, interval: int)
    ensures forall p :: p in Sparse(slots, start, interval) <==>
      exists i :: 0 <= i < |slots| && slots[i] == Some(p.v) && p.t == StepTime(start, interval, i)
  {
    if slots != [] {
      var n := |slots| - 1;
      SparseMembers(slots[..n], start, interval);
      forall p
        ensures p in Sparse(slots, start, interval) <==>
          exists i :: 0 <= i < |slots| && slots[i] == Some(p.v) && p.t == StepTime(start, interval, i)
      {
        if p in Sparse(slots, start, interval) && p !in Sparse(slots[..n], start, interval) {
          assert slots[n] == Some(p.v) && p.t == StepTime(start, interval, n);
        }
        if exists i :: 0 <= i < |slots| && slots[i] == Some(p.v) && p.t == StepTime(start, interval, i) {
          var i :| 0 <= i < |slots| && slots[i] == Some(p.v) && p.t == StepTime(start, interval, i);
          if i < n {
            assert slots[..n][i] == slots[i];
          }
        }
      }
    }
  }

  /** Emitted timestamps lie on the grid, inside the slot range. */
  lemma {:induction false} SparseTimesBounded<V>(slots: seq<Option<V>>, start: int, interval: int)
    requires interval > 0
    ensures forall k :: 0 <= k < |Sparse(slots, start, interval)| ==>
      start <= Sparse(slots, start, interval)[k].t <= StepTime(start, interval, |slots| - 1)
  {
    if slots != [] {
      var n := |slots| - 1;
      SparseTimesBounded(slots[..n], start, interval);
      if n > 0 {
        assert StepTime(start, interval, n - 1) < StepTime(start, interval, n);
      }
    }
  }

  /** The sparse output is strictly ascending in time. */
  lemma {:induction false} SparseAscending<V>(slots: seq<Option<V>>, start: int, interval: int)
    requires interval > 0
    ensures StrictlyAscending(Sparse(slots, start, interval))
  {
    if slots != [] {
      var n := |slots| - 1;
      SparseAscending(slots[..n], start, interval);
      SparseTimesBounded(slots[..n], start, interval);
      if n > 0 {
        assert StepTime(start, interval, n - 1) < StepTime(start, interval, n);
      }
    }
  }

  lemma {:induction false} SparseNone<V>(slots: seq<Option<V>>, start: int, interval: int)
    requires CountSome(slots) == 0
    ensures Sparse(slots, start, interval) == []
  {
    SparseLength(slots, start, interval);
  }

  /** Presence flags paired with values have as many occupied slots as flags set. */
  lemma {:induction false} ZipCount<V>(present: seq<bool>, values: seq<V>)
    requires |present| == |values|
    ensures CountSome(Zip(present, values)) == CountTrue(present)
  {
    if present != [] {
      var n := |present| - 1;
      assert Zip(present, values)[..n] == Zip(present[..n], values[..n]);
      ZipCount(present[..n], values[..n]);
    }
  }

  /** A timestamp exactly on one of the `steps` grid points. */
  predicate OnGridExact(t: int, start: int, interval: int, steps: nat)
  {
    OnGrid(t, start, interval, steps) && t == StepTime(start, interval, StepIndex(t, start, interval))
  }

  /** The sparse-to-dense direction: each point placed in its step's slot. */
  function Dense<V>(pts: seq<Point<V>>, steps: nat, start: int, interval: int): (r: seq<Option<V>>)
    requires forall i :: 0 <= i < |pts| ==> OnGrid(pts[i].t, start, interval, steps)
    ensures |r| == steps
  {
    if pts == [] then NoSlots(steps)
    else
      var n := |pts| - 1;
      assert OnGrid(pts[n].t, start, interval, steps);
      Dense(pts[..n], steps, start, interval)[StepIndex(pts[n].t, start, interval) := Some(pts[n].v)]
  }

  /** Slots from `m` on are empty, so the sparse form only depends on the first `m`. */
  lemma {:induction false} SparseTrailingEmpty<V>(slots: seq<Option<V>>, m: nat, start: int, interval: int)
    requires m <= |slots|
    requires forall j :: m <= j < |slots| ==> slots[j].None?
    ensures Sparse(slots, start, interval) == Sparse(slots[..m], start, interval)
    decreases |slots|
  {
    if |slots| > m {
      var n := |slots| - 1;
      SparseTrailingEmpty(slots[..n], m, start, interval);
      assert slots[..n][..m] == slots[..m];
    } else {
      assert slots[..m] == slots;
    }
  }

  lemma {:induction false} DenseBelow<V>(pts: seq<Point<V>>, steps: nat, start: int, interval: int, bound: nat)
    requires forall i :: 0 <= i < |pts| ==> OnGrid(pts[i].t, start, interval, steps)
    requires interval > 0
    requires forall i :: 0 <= i < |pts| ==> start <= pts[i].t && StepIndex(pts[i].t, start, interval) < bound
    ensures forall j :: bound <= j < steps ==> Dense(pts, steps, start, interval)[j].None?
  {
    if pts != [] {
      DenseBelow(pts[..|pts| - 1], steps, start, interval, bound);
    }
  }

  /** On the exact grid, a later timestamp is in a later step. */
  lemma StepIndexStrictlyMonotone(t1: int, t2: int, start: int, interval: int, steps: nat)
    requires OnGridExact(t1, start, interval, steps) && OnGridExact(t2, start, interval, steps)
    requires t1 < t2
    ensures StepIndex(t1, start, interval) < StepIndex(t2, start, interval)
  {
  }

  /** Appending a point beyond every occupied slot appends it to the sparse form. */
  lemma SparsePlaceLast<V>(prev: seq<Option<V>>, idx: nat, v: V, start: int, interval: int)
    requires idx < |prev|
    requires forall j :: idx <= j < |prev| ==> prev[j].None?
    ensures Sparse(prev[idx := Some(v)], start, interval)
      == Sparse(prev, start, interval) + [Point(StepTime(start, interval, idx), v)]
  {
    var cur := prev[idx := Some(v)];
    SparseTrailingEmpty(cur, idx + 1, start, interval);
    SparseTrailingEmpty(prev, idx, start, interval);
    assert cur[..idx + 1][..idx] == prev[..idx];
  }

  /** Round trip: a strictly ascending series on the grid, spread into slots and read
      back, is the series itself. */
  lemma {:induction false} SparseOfDense<V>(pts: seq<Point<V>>, steps: nat, start: int, interval: int)
    requires forall i :: 0 <= i < |pts| ==> OnGrid(pts[i].t, start, interval, steps)
    requires forall i :: 0 <= i < |pts| ==> OnGridExact(pts[i].t, start, interval, steps)
    requires StrictlyAscending(pts)
    ensures Sparse(Dense(pts, steps, start, interval), start, interval) == pts
  {
    if pts == [] {
      EmptySlots<V>(steps);
      SparseNone(NoSlots<V>(steps), start, interval);
    } else {
      var n := |pts| - 1;
      var p := pts[n];
      assert OnGridExact(p.t, start, interval, steps);
      var idx := StepIndex(p.t, start, interval);
      var init := pts[..n];
      SparseOfDense(init, steps, start, interval);
      forall i | 0 <= i < |init|
        ensures start <= init[i].t && StepIndex(init[i].t, start, interval) < idx
      {
        assert init[i] == pts[i];
        assert OnGridExact(pts[i].t, start, interval, steps);
        StepIndexStrictlyMonotone(pts[i].t, p.t, start, interval, steps);
      }
      DenseBelow(init, steps, start, interval, idx);
      SparsePlaceLast(Dense(init, steps, start, interval), idx, p.v, start, interval);
      assert pts == init + [p];
    }
  }

  function NoSlots<V>(steps: nat): (r: seq<Option<V>>)
    ensures |r| == steps && forall j :: 0 <= j < steps ==> r[j].None?
  {
    seq(steps, _ => None)
  }

  lemma {:induction false} EmptySlots<V>(steps: nat)
    ensures CountSome(NoSlots<V>(steps)) == 0
  {
    if steps > 0 {
      assert NoSlots<V>(steps)[..steps - 1] == NoSlots<V>(steps - 1);
      EmptySlots<V>(steps - 1);
    }
  }

  lemma MulNonNegative(a: int, n: int)
    requires a >= 0 && n >= 0
    ensures a * n >= 0
  {
  }

  /** Euclidean division has one quotient. */
  lemma DivUnique(x: int, n: int, a: int, b: int)
    requires n > 0 && 0 <= b < n && x == a * n + b
    ensures x / n == a
  {
    var q, r := x / n, x % n;
    assert x == q * n + r && 0 <= r < n;
    assert (a - q) * n == r - b;
    assert (a - q) * n == (a - q - 1) * n + n;
    assert (q - a) * n == (q - a - 1) * n + n;
    if a > q {
      MulNonNegative(a - q - 1, n);
    } else if a < q {
      MulNonNegative(q - a - 1, n);
    }
  }

  /** The grid time of step `k` falls in step `k`. */
  lemma StepOfGridTime(k: nat, start: int, interval: int)
    requires interval > 0
    ensures start <= StepTime(start, interval, k) && StepIndex(StepTime(start, interval, k), start, interval) == k
  {
    MulNonNegative(k, interval);
    DivUnique(k * interval, interval, k, 0);
  }
}

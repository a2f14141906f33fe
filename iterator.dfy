/** The series-data iterator: walks one series' float points and histogram points
    together, in timestamp order, one point per call of Next. */
module SeriesDataIterator {
  import opened Floats
  import opened Series

  /** One step of the walk: a float point or a histogram point. */
  datatype Item = FloatItem(t: int, f: Float) | HistogramItem(t: int, h: Histogram)

  /** The order in which the iterator hands out the points: the smaller timestamp first;
      on equal timestamps the histogram comes first. */
  function Merge(fs: seq<FPoint>, hs: seq<HPoint>): seq<Item>
    decreases |fs| + |hs|
  {
    if fs == [] && hs == [] then []
    else if fs != [] && (hs == [] || fs[0].t < hs[0].t) then
      [FloatItem(fs[0].t, fs[0].v)] + Merge(fs[1..], hs)
    else
      [HistogramItem(hs[0].t, hs[0].v)] + Merge(fs, hs[1..])
  }

  predicate Ascending<V>(ps: seq<Point<V>>)
  {
    forall i, j :: 0 <= i < j < |ps| ==> ps[i].t <= ps[j].t
  }

  predicate ItemsAscending(items: seq<Item>)
  {
    forall i, j :: 0 <= i < j < |items| ==> items[i].t <= items[j].t
  }

  /** The number of items with hasNext = true is the number of points. */
  lemma {:induction false} MergeLength(fs: seq<FPoint>, hs: seq<HPoint>)
    ensures |Merge(fs, hs)| == |fs| + |hs|
    decreases |fs| + |hs|
  {
    if fs == [] && hs == [] {
    } else if fs != [] && (hs == [] || fs[0].t < hs[0].t) {
      MergeLength(fs[1..], hs);
    } else {
      MergeLength(fs, hs[1..]);
    }
  }

  /** Every item of the merge is at or after `lo` when both inputs are. */
  lemma {:induction false} MergeLowerBound(fs: seq<FPoint>, hs: seq<HPoint>, lo: int)
    requires forall i :: 0 <= i < |fs| ==> lo <= fs[i].t
    requires forall i :: 0 <= i < |hs| ==> lo <= hs[i].t
    ensures forall k :: 0 <= k < |Merge(fs, hs)| ==> lo <= Merge(fs, hs)[k].t
    decreases |fs| + |hs|
  {
    if fs == [] && hs == [] {
    } else if fs != [] && (hs == [] || fs[0].t < hs[0].t) {
      MergeLowerBound(fs[1..], hs, lo);
    } else {
      MergeLowerBound(fs, hs[1..], lo);
    }
  }

  /** Merging two timestamp-sorted lists gives a timestamp-sorted walk. */
  lemma {:induction false} MergeAscending(fs: seq<FPoint>, hs: seq<HPoint>)
    requires Ascending(fs) && Ascending(hs)
    ensures ItemsAscending(Merge(fs, hs))
    decreases |fs| + |hs|
  {
    if fs == [] && hs == [] {
    } else if fs != [] && (hs == [] || fs[0].t < hs[0].t) {
      MergeAscending(fs[1..], hs);
      MergeLowerBound(fs[1..], hs, fs[0].t);
    } else {
      MergeAscending(fs, hs[1..]);
      MergeLowerBound(fs, hs[1..], hs[0].t);
    }
  }

  /** The float items of the walk are the float points, in order; likewise the
      histogram items. Nothing is lost, duplicated or invented. */
  function FloatsOf(items: seq<Item>): seq<FPoint>
  {
    if items == [] then []
    else (if items[0].FloatItem? then [Point(items[0].t, items[0].f)] else []) + FloatsOf(items[1..])
  }

  function HistogramsOf(items: seq<Item>): seq<HPoint>
  {
    if items == [] then []
    else (if items[0].HistogramItem? then [Point(items[0].t, items[0].h)] else []) + HistogramsOf(items[1..])
  }

  lemma {:induction false} MergeSplits(fs: seq<FPoint>, hs: seq<HPoint>)
    ensures FloatsOf(Merge(fs, hs)) == fs
    ensures HistogramsOf(Merge(fs, hs)) == hs
    decreases |fs| + |hs|
  {
    if fs == [] && hs == [] {
    } else if fs != [] && (hs == [] || fs[0].t < hs[0].t) {
      MergeSplits(fs[1..], hs);
      assert [fs[0]] + fs[1..] == fs;
    } else {
      MergeSplits(fs, hs[1..]);
      assert [hs[0]] + hs[1..] == hs;
    }
  }

  /** The iterator over one series' data. `fIndex` and `hIndex` are the cursors into
      the float and histogram points. */
  class InstantVectorSeriesDataIterator {
    const floats: seq<FPoint>
    const histograms: seq<HPoint>
    var fIndex: nat
    var hIndex: nat

    ghost predicate Valid()
      reads this
    {
      fIndex <= |floats| && hIndex <= |histograms|
    }

    /** The items still to be handed out. */
    ghost function Remaining(): seq<Item>
      reads this
      requires Valid()
    {
      Merge(floats[fIndex..], histograms[hIndex..])
    }

    constructor (data: SeriesData)
      ensures Valid()
      ensures floats == data.floats && histograms == data.histograms
      ensures Remaining() == Merge(data.floats, data.histograms)
    {
      floats, histograms := data.floats, data.histograms;
      fIndex, hIndex := 0, 0;
    }

    /** Hands out the next item: a float as (T, F, nil, true), a histogram as
        (T, 0, H, true); once both lists are used up, (0, 0, nil, false) on every call. */
    method Next() returns (t: int, f: Float, h: Option<Histogram>, hasNext: bool)
      requires Valid()
      modifies this
      ensures Valid()
      ensures old(Remaining()) == [] ==>
        t == 0 && f == Num(0.0) && h == None && !hasNext &&
        fIndex == old(fIndex) && hIndex == old(hIndex)
      ensures old(Remaining()) != [] ==>
        hasNext && Remaining() == old(Remaining())[1..] &&
        match old(Remaining())[0]
        case FloatItem(ft, ff) => t == ft && f == ff && h == None
        case HistogramItem(ht, hh) => t == ht && f == Num(0.0) && h == Some(hh)
    {
      var exhaustedFloats := fIndex >= |floats|;
      var exhaustedHistograms := hIndex >= |histograms|;
      if exhaustedFloats && exhaustedHistograms {
        return 0, Num(0.0), None, false;
      }
      if !exhaustedFloats && (exhaustedHistograms || floats[fIndex].t < histograms[hIndex].t) {
        var p := floats[fIndex];
        assert floats[fIndex..][1..] == floats[fIndex + 1..];
        fIndex := fIndex + 1;
        return p.t, p.v, None, true;
      }
      var p := histograms[hIndex];
      assert histograms[hIndex..][1..] == histograms[hIndex + 1..];
      hIndex := hIndex + 1;
      return p.t, Num(0.0), Some(p.v), true;
    }
  }

  /** Pulls `n` results from a fresh iterator, the way a caller loops on Next. */
  method Drain(data: SeriesData, n: nat) returns (items: seq<Item>, ends: nat)
    ensures |items| + ends == n
    ensures |items| <= |Merge(data.floats, data.histograms)|
    ensures items == Merge(data.floats, data.histograms)[..|items|]
    ensures ends > 0 ==> items == Merge(data.floats, data.histograms)
  {
    var it := new InstantVectorSeriesDataIterator(data);
    items, ends := [], 0;
    var all := Merge(data.floats, data.histograms);
    for k := 0 to n
      invariant it.Valid()
      invariant |items| + ends == k
      invariant |items| <= |all| && items == all[..|items|] && it.Remaining() == all[|items|..]
      invariant ends > 0 ==> items == all
    {
      var t, f, h, hasNext := it.Next();
      if hasNext {
        items := items + [if h.Some? then HistogramItem(t, h.value) else FloatItem(t, f)];
        assert all[..|items|] == all[..|items| - 1] + [all[|items| - 1]];
      } else {
        assert all[|items|..] == [];
        ends := ends + 1;
      }
    }
  }

  /** The mixed-data case: floats at 1000..5000 and histograms at 1500, 2500, 5500
      interleave by timestamp. */
  lemma MixedDataOrder(h: Histogram)
    ensures Merge(
      [Point(1000, Num(1.1)), Point(2000, Num(2.2)), Point(3000, Num(3.3)), Point(4000, Num(4.4)), Point(5000, Num(5.5))],
      [Point(1500, h), Point(2500, h), Point(5500, h)])
      == [FloatItem(1000, Num(1.1)), HistogramItem(1500, h), FloatItem(2000, Num(2.2)), HistogramItem(2500, h),
          FloatItem(3000, Num(3.3)), FloatItem(4000, Num(4.4)), FloatItem(5000, Num(5.5)), HistogramItem(5500, h)]
  {
    var f1, f2, f3, f4, f5 := Point(1000, Num(1.1)), Point(2000, Num(2.2)), Point(3000, Num(3.3)), Point(4000, Num(4.4)), Point(5000, Num(5.5));
    var h1, h2, h3 := Point(1500, h), Point(2500, h), Point(5500, h);
    assert Merge([], [h3]) == [HistogramItem(5500, h)];
    assert Merge([f5], [h3]) == [FloatItem(5000, Num(5.5)), HistogramItem(5500, h)];
    assert Merge([f4, f5], [h3]) == [FloatItem(4000, Num(4.4))] + Merge([f5], [h3]);
    assert Merge([f3, f4, f5], [h3]) == [FloatItem(3000, Num(3.3))] + Merge([f4, f5], [h3]);
    assert Merge([f3, f4, f5], [h2, h3]) == [HistogramItem(2500, h)] + Merge([f3, f4, f5], [h3]);
    assert Merge([f2, f3, f4, f5], [h2, h3]) == [FloatItem(2000, Num(2.2))] + Merge([f3, f4, f5], [h2, h3]);
    assert Merge([f2, f3, f4, f5], [h1, h2, h3]) == [HistogramItem(1500, h)] + Merge([f2, f3, f4, f5], [h2, h3]);
    assert Merge([f1, f2, f3, f4, f5], [h1, h2, h3]) == [FloatItem(1000, Num(1.1))] + Merge([f2, f3, f4, f5], [h1, h2, h3]);
  }
}

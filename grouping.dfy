/** What the aggregation's metadata pass computes, stated on sequences: grouping keys,
    each group's first and last member, its size, the group labels, and the order of
    output groups. */
module Grouping {
  import opened Series

  /** The labels of `m` whose names are listed in `names`, in their original order
      (labels.Builder's Keep). */
  function Keep(m: Labels, names: seq<string>): (r: Labels)
    ensures forall l :: l in r <==> l in m && l.name in names
  {
    if m == [] then []
    else (if m[0].name in names then [m[0]] else []) + Keep(m[1..], names)
  }

  /** The labels of an output group, taken from the series that created it: none when
      the aggregation has no grouping labels, otherwise the grouping labels only. */
  function LabelsForGroup(m: Labels, grouping: seq<string>): (r: Labels)
    ensures forall l :: l in r ==> l in m && l.name in grouping
    ensures |grouping| > 0 ==> forall l :: l in m && l.name in grouping ==> l in r
  {
    if |grouping| == 0 then [] else Keep(m, grouping)
  }

  /** The grouping key of a series: a hash of its grouping labels (HashForLabels). The
      hash is a parameter; two different label sets may share a key. */
  function GroupingKey(hash: Labels -> nat, m: Labels, grouping: seq<string>): nat
  {
    hash(Keep(m, grouping))
  }

  function Keys(hash: Labels -> nat, series: seq<Labels>, grouping: seq<string>): (r: seq<nat>)
    ensures |r| == |series|
    ensures forall i :: 0 <= i < |series| ==> r[i] == GroupingKey(hash, series[i], grouping)
  {
    seq(|series|, i requires 0 <= i < |series| => GroupingKey(hash, series[i], grouping))
  }

  /** The position of the last occurrence of `x`. */
  function LastIndexOf<T(==)>(s: seq<T>, x: T): (r: nat)
    requires x in s
    ensures r < |s| && s[r] == x
    ensures forall j :: r < j < |s| ==> s[j] != x
  {
    var n := |s| - 1;
    if s[n] == x then n else LastIndexOf(s[..n], x)
  }

  /** The position of the first occurrence of `x`. */
  function FirstIndexOf<T(==)>(s: seq<T>, x: T): (r: nat)
    requires x in s
    ensures r < |s| && s[r] == x
    ensures forall j :: 0 <= j < r ==> s[j] != x
  {
    var n := |s| - 1;
    if x in s[..n] then FirstIndexOf(s[..n], x) else n
  }

  ghost predicate IsLastOccurrence<T>(s: seq<T>, i: int)
  {
    0 <= i < |s| && forall j :: i < j < |s| ==> s[j] != s[i]
  }

  /** The reference order of the output groups: the positions of last occurrences, in
      ascending order, for the first `n` elements of `s`. */
  ghost function LastPositions<T>(s: seq<T>): seq<nat>
  {
    LastPositionsUpTo(s, |s|)
  }

  ghost function LastPositionsUpTo<T>(s: seq<T>, n: nat): seq<nat>
    requires n <= |s|
  {
    if n == 0 then []
    else LastPositionsUpTo(s, n - 1) + (if IsLastOccurrence(s, n - 1) then [n - 1] else [])
  }

  predicate StrictlyIncreasing(a: seq<int>)
  {
    forall i, j :: 0 <= i < j < |a| ==> a[i] < a[j]
  }

  lemma {:induction false} LastPositionsUpToFacts<T>(s: seq<T>, n: nat)
    requires n <= |s|
    ensures StrictlyIncreasing(LastPositionsUpTo(s, n))
    ensures forall i :: i in LastPositionsUpTo(s, n) <==> i < n && IsLastOccurrence(s, i)
  {
    if n > 0 {
      LastPositionsUpToFacts(s, n - 1);
      var prev := LastPositionsUpTo(s, n - 1);
      forall k | 0 <= k < |prev|
        ensures prev[k] < n - 1
      {
        assert prev[k] in prev;
      }
    }
  }

  /** The reference order lists exactly the last occurrences, ascending. */
  lemma LastPositionsFacts<T>(s: seq<T>)
    ensures StrictlyIncreasing(LastPositions(s))
    ensures forall i :: i in LastPositions(s) <==> IsLastOccurrence(s, i)
  {
    LastPositionsUpToFacts(s, |s|);
  }

  /** Two strictly increasing sequences with the same elements are the same sequence:
      the output order is determined, whatever order the groups were found in. */
  lemma {:induction false} StrictlyIncreasingUnique(a: seq<int>, b: seq<int>)
    requires StrictlyIncreasing(a) && StrictlyIncreasing(b)
    requires forall x :: x in a <==> x in b
    ensures a == b
  {
    if a != [] || b != [] {
      var c := a + b;
      var x := c[0];
      assert x in a || x in b;
      assert x in a && x in b;
      assert a[0] in b && b[0] in a;
      assert a[0] == b[0];
      forall y
        ensures y in a[1..] <==> y in b[1..]
      {
        if y in a[1..] {
          assert y in b && y != b[0];
        }
        if y in b[1..] {
          assert y in a && y != a[0];
        }
      }
      StrictlyIncreasingUnique(a[1..], b[1..]);
      assert a == [a[0]] + a[1..] && b == [b[0]] + b[1..];
    }
  }

  /** Two sequences with the same equality pattern (here: the group objects and the
      grouping keys of the same series) have the same last occurrences. */
  lemma {:induction false} SamePatternSameLastPositions<T, U>(s: seq<T>, t: seq<U>)
    requires |s| == |t|
    requires forall i, j :: 0 <= i < |s| && 0 <= j < |s| ==> (s[i] == s[j] <==> t[i] == t[j])
    ensures LastPositions(s) == LastPositions(t)
  {
    LastPositionsFacts(s);
    LastPositionsFacts(t);
    forall x
      ensures x in LastPositions(s) <==> x in LastPositions(t)
    {
    }
    StrictlyIncreasingUnique(LastPositions(s), LastPositions(t));
  }

  /** One output group before sorting: its labels, its accumulator and the position of
      its last member. */
  datatype Entry<G> = Entry(labels: Labels, group: G, last: int)

  /** groupSorter.Less: order groups by the position of their last member. */
  predicate Less<G>(a: Entry<G>, b: Entry<G>)
  {
    a.last < b.last
  }

  predicate Sorted<G>(es: seq<Entry<G>>)
  {
    forall i, j :: 0 <= i < j < |es| ==> !Less(es[j], es[i])
  }

  function Insert<G>(e: Entry<G>, es: seq<Entry<G>>): (r: seq<Entry<G>>)
    requires Sorted(es)
    ensures Sorted(r)
    ensures multiset(r) == multiset(es) + multiset{e}
  {
    if es == [] then [e]
    else if !Less(es[0], e) then [e] + es
    else
      var rest := Insert(e, es[1..]);
      assert es == [es[0]] + es[1..];
      assert forall j :: 0 <= j < |rest| ==> !Less(rest[j], es[0]) by {
        forall j | 0 <= j < |rest|
          ensures !Less(rest[j], es[0])
        {
          assert rest[j] in multiset(rest);
          if rest[j] != e {
            assert rest[j] in es[1..];
          }
        }
      }
      [es[0]] + rest
  }

  /** sort.Sort over groupSorter: a permutation of the entries, ordered by Less. */
  function SortEntries<G>(es: seq<Entry<G>>): (r: seq<Entry<G>>)
    ensures Sorted(r)
    ensures multiset(r) == multiset(es)
  {
    if es == [] then []
    else
      assert es == [es[0]] + es[1..];
      Insert(es[0], SortEntries(es[1..]))
  }

  /** With distinct `last` values, a sorted sequence is strictly increasing in `last`. */
  lemma SortedDistinctStrict<G>(es: seq<Entry<G>>)
    requires Sorted(es)
    requires forall i, j :: 0 <= i < j < |es| ==> es[i].last != es[j].last
    ensures forall i, j :: 0 <= i < j < |es| ==> es[i].last < es[j].last
  {
  }

  /** A value still present from position `i` on has its last occurrence at or after
      `i`. */
  lemma InSuffixBeforeLast<T>(s: seq<T>, x: T, i: nat)
    requires i <= |s| && x in s[i..]
    ensures x in s && i <= LastIndexOf(s, x)
  {
    var j :| i <= j < |s| && s[j] == x;
  }

  /** A value absent from position `i` on has its last occurrence before `i`. */
  lemma LastInSuffix<T>(s: seq<T>, x: T, i: nat)
    requires i <= |s| && x in s && x !in s[i..]
    ensures LastIndexOf(s, x) < i
  {
    forall j | i <= j < |s|
      ensures s[j] != x
    {
      assert s[i..][j - i] == s[j];
    }
  }

  /** The labels of the output series, in output order: one per distinct grouping key,
      ordered by the position of the key's last series, each taken from the key's first
      series. */
  ghost function GroupLabelsInOrder(series: seq<Labels>, keys: seq<nat>, grouping: seq<string>): (r: seq<Labels>)
    requires |keys| == |series|
    ensures |r| == |LastPositions(keys)|
  {
    var lp := LastPositions(keys);
    LastPositionsFacts(keys);
    seq(|lp|, k requires 0 <= k < |lp| =>
      assert lp[k] in lp;
      LabelsForGroup(series[FirstIndexOf(keys, keys[lp[k]])], grouping))
  }

  /** One output group per distinct key: every key has exactly one position in the
      output order, and the position it has is that of its last series. */
  lemma OnePerKey<T>(keys: seq<T>)
    ensures forall k :: 0 <= k < |LastPositions(keys)| ==> IsLastOccurrence(keys, LastPositions(keys)[k])
    ensures forall x :: x in keys ==>
      exists k :: 0 <= k < |LastPositions(keys)| && LastPositions(keys)[k] < |keys| && keys[LastPositions(keys)[k]] == x
    ensures forall a, b :: 0 <= a < b < |LastPositions(keys)| ==>
      LastPositions(keys)[a] < |keys| && LastPositions(keys)[b] < |keys| &&
      keys[LastPositions(keys)[a]] != keys[LastPositions(keys)[b]]
  {
    var lp := LastPositions(keys);
    LastPositionsFacts(keys);
    forall k | 0 <= k < |lp|
      ensures IsLastOccurrence(keys, lp[k])
    {
      assert lp[k] in lp;
    }
    forall x | x in keys
      ensures exists k :: 0 <= k < |lp| && keys[lp[k]] == x
    {
      var p := LastIndexOf(keys, x);
      assert IsLastOccurrence(keys, p);
      assert p in lp;
      var k :| 0 <= k < |lp| && lp[k] == p;
    }
  }

  /** A group of the metadata pass together with the labels of its output series. */
  datatype GroupWithLabels<G> = GroupWithLabels(labels: Labels, group: G)

  predicate Distinct<T(==)>(s: seq<T>)
  {
    forall a, b :: 0 <= a < b < |s| ==> s[a] != s[b]
  }

  lemma {:induction false} DistinctAtMostOnce<T>(s: seq<T>, x: T)
    requires Distinct(s)
    ensures multiset(s)[x] <= 1
  {
    if s != [] {
      var n := |s| - 1;
      assert s == s[..n] + [s[n]];
      DistinctAtMostOnce(s[..n], x);
      if s[n] == x {
        assert x !in s[..n];
      }
    }
  }

  lemma TwiceCounted<T>(s: seq<T>, a: int, b: int)
    requires 0 <= a < b < |s| && s[a] == s[b]
    ensures multiset(s)[s[a]] >= 2
  {
    assert s == s[..b] + [s[b]] + s[b + 1..];
    assert s[a] in s[..b];
  }

  /** A permutation of a sequence without repetitions has none either. */
  lemma PermutationDistinct<T>(s: seq<T>, t: seq<T>)
    requires multiset(s) == multiset(t) && Distinct(t)
    ensures Distinct(s)
  {
    forall a, b | 0 <= a < b < |s|
      ensures s[a] != s[b]
    {
      if s[a] == s[b] {
        TwiceCounted(s, a, b);
        DistinctAtMostOnce(t, s[a]);
      }
    }
  }

  /** What the metadata loop leaves: `groups` maps each key to its first series' group
      labels and to the group of that series, and `owner` is the group of every
      series, equal exactly where the keys are equal. */
  ghost predicate Assigned<G>(series: seq<Labels>, keys: seq<nat>, grouping: seq<string>, owner: seq<G>,
                                 groups: map<nat, GroupWithLabels<G>>)
  {
    |keys| == |series| && |owner| == |series| &&
    (forall i, j :: 0 <= i < |keys| && 0 <= j < |keys| ==> (owner[i] == owner[j] <==> keys[i] == keys[j])) &&
    (forall x :: x in groups <==> x in keys) &&
    (forall x :: x in groups ==>
      x in keys &&
      groups[x] == GroupWithLabels(LabelsForGroup(series[FirstIndexOf(keys, x)], grouping), owner[FirstIndexOf(keys, x)]))
  }

  /** The entry collected for key `x`: its labels, its group, and its group's last
      member. */
  ghost predicate Collected<G>(owner: seq<G>, groups: map<nat, GroupWithLabels<G>>, x: nat, e: Entry<G>)
  {
    x in groups && groups[x].group in owner &&
    e == Entry(groups[x].labels, groups[x].group, LastIndexOf(owner, groups[x].group))
  }

  /** The entry collected for a key lies at the key's last series, which holds its
      group. */
  lemma EntryAtLast<G>(series: seq<Labels>, keys: seq<nat>, grouping: seq<string>, owner: seq<G>,
                       groups: map<nat, GroupWithLabels<G>>, x: nat, e: Entry<G>)
    requires Assigned(series, keys, grouping, owner, groups) && Collected(owner, groups, x, e)
    ensures IsLastOccurrence(keys, e.last) && keys[e.last] == x && e.group == owner[e.last]
    ensures e.labels == LabelsForGroup(series[FirstIndexOf(keys, x)], grouping)
  {
    var f := FirstIndexOf(keys, x);
    var L := e.last;
    assert owner[L] == owner[f];
    forall j | L < j < |keys|
      ensures keys[j] != keys[L]
    {
      assert owner[j] != owner[L];
    }
  }

  /** Two last occurrences of the same value are the same position. */
  lemma LastOccurrenceUnique<T>(s: seq<T>, p: int, q: int)
    requires IsLastOccurrence(s, p) && IsLastOccurrence(s, q) && s[p] == s[q]
    ensures p == q
  {
  }

  /** Every collected entry sits at the last series of its key. */
  ghost predicate AtLast<G>(keys: seq<nat>, ks: seq<nat>, entries: seq<Entry<G>>)
  {
    |ks| == |entries| &&
    forall m :: 0 <= m < |ks| ==> IsLastOccurrence(keys, entries[m].last) && keys[entries[m].last] == ks[m]
  }

  lemma CollectedAtLast<G>(series: seq<Labels>, keys: seq<nat>, grouping: seq<string>, owner: seq<G>,
                           groups: map<nat, GroupWithLabels<G>>, ks: seq<nat>, entries: seq<Entry<G>>)
    requires Assigned(series, keys, grouping, owner, groups)
    requires |ks| == |entries| && forall m :: 0 <= m < |ks| ==> Collected(owner, groups, ks[m], entries[m])
    ensures AtLast(keys, ks, entries)
  {
    forall m | 0 <= m < |ks|
      ensures IsLastOccurrence(keys, entries[m].last) && keys[entries[m].last] == ks[m]
    {
      EntryAtLast(series, keys, grouping, owner, groups, ks[m], entries[m]);
    }
  }

  /** Entries for distinct keys are distinct, and so are their positions in any
      permutation of them. */
  lemma DistinctEntries<G>(keys: seq<nat>, ks: seq<nat>, entries: seq<Entry<G>>, sorted: seq<Entry<G>>)
    requires AtLast(keys, ks, entries) && Distinct(ks) && multiset(sorted) == multiset(entries)
    ensures Distinct(sorted)
  {
    forall a, b | 0 <= a < b < |entries|
      ensures entries[a] != entries[b]
    {
      assert ks[a] != ks[b];
    }
    PermutationDistinct(sorted, entries);
  }

  /** The positions of the sorted entries' last members, in order. */
  function Lasts<G>(es: seq<Entry<G>>): (r: seq<int>)
    ensures |r| == |es| && forall k :: 0 <= k < |es| ==> r[k] == es[k].last
  {
    seq(|es|, k requires 0 <= k < |es| => es[k].last)
  }

  /** Sorted by last member, the distinct entries have strictly ascending last members. */
  lemma SortedLastsIncreasing<G>(keys: seq<nat>, ks: seq<nat>, entries: seq<Entry<G>>, sorted: seq<Entry<G>>)
    requires AtLast(keys, ks, entries) && Distinct(ks)
    requires Sorted(sorted) && multiset(sorted) == multiset(entries)
    ensures StrictlyIncreasing(Lasts(sorted))
    ensures forall k :: 0 <= k < |sorted| ==> exists m :: 0 <= m < |ks| && sorted[k] == entries[m]
  {
    DistinctEntries(keys, ks, entries, sorted);
    forall k | 0 <= k < |sorted|
      ensures exists m :: 0 <= m < |ks| && sorted[k] == entries[m]
    {
      assert sorted[k] in multiset(entries);
    }
    var lasts := Lasts(sorted);
    forall a, b | 0 <= a < b < |sorted|
      ensures lasts[a] < lasts[b]
    {
      var ma :| 0 <= ma < |ks| && sorted[a] == entries[ma];
      var mb :| 0 <= mb < |ks| && sorted[b] == entries[mb];
      assert !Less(sorted[b], sorted[a]);
    }
  }

  /** The sorted entries' last members are exactly the last occurrences of the keys, in
      ascending order, when every key has an entry. */
  lemma SortedLastsArePositions<G>(keys: seq<nat>, ks: seq<nat>, entries: seq<Entry<G>>, sorted: seq<Entry<G>>)
    requires AtLast(keys, ks, entries) && Distinct(ks) && (forall x :: x in keys ==> x in ks)
    requires Sorted(sorted) && multiset(sorted) == multiset(entries)
    ensures Lasts(sorted) == LastPositions(keys)
  {
    SortedLastsIncreasing(keys, ks, entries, sorted);
    LastPositionsFacts(keys);
    var lasts, lp := Lasts(sorted), LastPositions(keys);
    forall p
      ensures p in lasts <==> p in lp
    {
      if p in lasts {
        var k :| 0 <= k < |lasts| && lasts[k] == p;
        var m :| 0 <= m < |ks| && sorted[k] == entries[m];
      }
      if p in lp {
        assert IsLastOccurrence(keys, p) && keys[p] in keys;
        var m :| 0 <= m < |ks| && ks[m] == keys[p];
        assert entries[m] in multiset(sorted);
        var k :| 0 <= k < |sorted| && sorted[k] == entries[m];
        LastOccurrenceUnique(keys, p, entries[m].last);
        assert lasts[k] == p;
      }
    }
    StrictlyIncreasingUnique(lasts, lp);
  }

  /** sort.Sort over the collected entries puts the groups in the reference order:
      position k holds the group whose last series is the k-th last occurrence of a key,
      with the labels of that key's first series. The order of collection does not
      matter. */
  lemma SortedGroups<G>(series: seq<Labels>, keys: seq<nat>, grouping: seq<string>, owner: seq<G>,
                        groups: map<nat, GroupWithLabels<G>>, ks: seq<nat>, entries: seq<Entry<G>>, sorted: seq<Entry<G>>)
    requires Assigned(series, keys, grouping, owner, groups)
    requires Distinct(ks) && |ks| == |entries| && (forall x :: x in groups ==> x in ks)
    requires forall m :: 0 <= m < |ks| ==> Collected(owner, groups, ks[m], entries[m])
    requires Sorted(sorted) && multiset(sorted) == multiset(entries)
    ensures |sorted| == |LastPositions(keys)| == |GroupLabelsInOrder(series, keys, grouping)|
    ensures forall k :: 0 <= k < |sorted| ==>
      sorted[k].last == LastPositions(keys)[k] && 0 <= sorted[k].last < |owner| &&
      sorted[k].group == owner[sorted[k].last] && LastIndexOf(owner, sorted[k].group) == sorted[k].last &&
      sorted[k].labels == GroupLabelsInOrder(series, keys, grouping)[k]
  {
    CollectedAtLast(series, keys, grouping, owner, groups, ks, entries);
    SortedLastsArePositions(keys, ks, entries, sorted);
    SortedLastsIncreasing(keys, ks, entries, sorted);
    var lp := LastPositions(keys);
    forall k | 0 <= k < |sorted|
      ensures sorted[k].last == lp[k] && 0 <= sorted[k].last < |owner| &&
        sorted[k].group == owner[sorted[k].last] && LastIndexOf(owner, sorted[k].group) == sorted[k].last &&
        sorted[k].labels == GroupLabelsInOrder(series, keys, grouping)[k]
    {
      assert Lasts(sorted)[k] == lp[k];
      var m :| 0 <= m < |ks| && sorted[k] == entries[m];
      EntryAtLast(series, keys, grouping, owner, groups, ks[m], entries[m]);
    }
  }

  /** Every series' group is among the groups listed at the keys' last positions. */
  lemma EveryOwnerListed<G>(owner: seq<G>, keys: seq<nat>, listed: seq<G>)
    requires |owner| == |keys|
    requires forall i, j :: 0 <= i < |keys| && 0 <= j < |keys| ==> (owner[i] == owner[j] <==> keys[i] == keys[j])
    requires |listed| == |LastPositions(keys)|
    requires forall k :: 0 <= k < |listed| ==> LastPositions(keys)[k] < |owner| && listed[k] == owner[LastPositions(keys)[k]]
    ensures forall j :: 0 <= j < |owner| ==> owner[j] in listed
  {
    LastPositionsFacts(keys);
    forall j | 0 <= j < |owner|
      ensures owner[j] in listed
    {
      var L := LastIndexOf(owner, owner[j]);
      forall i | L < i < |keys|
        ensures keys[i] != keys[L]
      {
        assert owner[i] != owner[L];
      }
      assert L in LastPositions(keys);
      var k :| 0 <= k < |listed| && LastPositions(keys)[k] == L;
    }
  }

  /** The metadata loop's step: the series with key `k` joins the group already listed
      under `k`, or a new group `g` created with the series' group labels. */
  lemma AssignStep<G>(series: seq<Labels>, keys: seq<nat>, grouping: seq<string>, owner: seq<G>,
                      groups: map<nat, GroupWithLabels<G>>, s: Labels, k: nat, g: G)
    requires Assigned(series, keys, grouping, owner, groups)
    requires k in groups ==> g == groups[k].group
    requires k !in groups ==> g !in owner
    ensures var groups' := if k in groups then groups else groups[k := GroupWithLabels(LabelsForGroup(s, grouping), g)];
      Assigned(series + [s], keys + [k], grouping, owner + [g], groups')
  {
    var groups' := if k in groups then groups else groups[k := GroupWithLabels(LabelsForGroup(s, grouping), g)];
    var S, K, O := series + [s], keys + [k], owner + [g];
    var n := |keys|;
    assert K[..n] == keys;
    forall x | x in keys
      ensures FirstIndexOf(K, x) == FirstIndexOf(keys, x)
    {
      FirstIndexOfPrefix(keys, k, x);
    }
    if k in groups {
      var f := FirstIndexOf(keys, k);
      forall i | 0 <= i < n
        ensures owner[i] == g <==> keys[i] == k
      {
        assert owner[f] == g && keys[f] == k;
      }
    } else {
      assert k !in keys;
      assert FirstIndexOf(K, k) == n;
    }
  }

  lemma FirstIndexOfPrefix<T>(s: seq<T>, y: T, x: T)
    requires x in s
    ensures FirstIndexOf(s + [y], x) == FirstIndexOf(s, x)
  {
    assert (s + [y])[..|s|] == s;
  }

  /** Appending `y` makes it its own last occurrence and leaves every other value's
      last occurrence where it was. */
  lemma LastIndexOfAppend<T>(s: seq<T>, y: T, x: T)
    requires x in s + [y]
    ensures LastIndexOf(s + [y], x) == if x == y then |s| else LastIndexOf(s, x)
  {
    if x != y {
      assert (s + [y])[..|s|] == s;
    }
  }

  /** The groups taken from the sorted entries, in order: the groups of the keys' last
      series, ascending by that position, each occurring last there; every series'
      group is among them. */
  lemma ListedInOrder<G>(series: seq<Labels>, keys: seq<nat>, grouping: seq<string>, owner: seq<G>,
                         groups: map<nat, GroupWithLabels<G>>, ks: seq<nat>, entries: seq<Entry<G>>,
                         sorted: seq<Entry<G>>, listed: seq<G>, labels: seq<Labels>)
    requires Assigned(series, keys, grouping, owner, groups)
    requires Distinct(ks) && |ks| == |entries| && (forall x :: x in groups ==> x in ks)
    requires forall m :: 0 <= m < |ks| ==> Collected(owner, groups, ks[m], entries[m])
    requires Sorted(sorted) && multiset(sorted) == multiset(entries)
    requires |listed| == |sorted| && forall k :: 0 <= k < |sorted| ==> listed[k] == sorted[k].group
    requires |labels| == |sorted| && forall k :: 0 <= k < |sorted| ==> labels[k] == sorted[k].labels
    ensures |listed| == |LastPositions(keys)| && StrictlyIncreasing(LastPositions(keys))
    ensures forall k :: 0 <= k < |listed| ==>
      LastPositions(keys)[k] < |owner| && listed[k] == owner[LastPositions(keys)[k]] &&
      listed[k] in owner && LastIndexOf(owner, listed[k]) == LastPositions(keys)[k]
    ensures forall j :: 0 <= j < |owner| ==> owner[j] in listed
    ensures labels == GroupLabelsInOrder(series, keys, grouping)
  {
    SortedGroups(series, keys, grouping, owner, groups, ks, entries, sorted);
    EveryOwnerListed(owner, keys, listed);
    LastPositionsFacts(keys);
    assert |labels| == |GroupLabelsInOrder(series, keys, grouping)|;
  }
}

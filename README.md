# Streaming PromQL aggregation core, modelled in Dafny

This project models the streaming aggregation pipeline of Mimir's PromQL engine
(`pkg/streamingpromql`) and proves properties of it:

- **The `sum` aggregation operator** (`operators/aggregation.go`), in `aggregation.dfy`,
  `grouping.dfy` and `group_fold.dfy`.
  - `SeriesMetadata` assigns every inner series to the group of its grouping key. It counts
    each group's members and records the position of each group's last member. It then sorts
    the groups by that position, with the output labels in lockstep.
  - `NextSeries` pulls inner series only until the head group is complete. It folds each
    series into its own group's per-step arrays, clears the steps that hold both a float and a
    histogram (`reconcilePointCount`), and turns the dense step arrays into sparse points.
  - The operator is a class whose fields are the two work lists and the groups. The groups are
    classes whose step arrays are Dafny arrays, updated in place.
- **The `avg` and `max` per-group accumulators** (`aggregations/avg.go`,
  `aggregations/max.go`), in `avg.dfy` and `max.dfy`. Both are classes over step arrays.
  Their methods are proved against pure functions of the arrays' contents, and the
  properties are proved about those functions.
- **`sgn`, unary negation and `clamp`** (`functions/math.go`), in `math_functions.dfy`.
- **The instant-vector function factories and their registry** (`functions.go`, with the
  registration behaviour of `functions_test.go`), in `functions_registry.dfy`.
- **The series-data iterator**, specified by `types/data_test.go`, in `iterator.dfy`. It merges
  a series' float and histogram points in timestamp order.
- **Shared definitions.** `floats.dfy` holds float64 values as NaN, a signed infinity or an
  exact real. `series.dfy` holds points, series data, results and the dense-to-sparse
  conversion.

**Abstractions.**
- The native-histogram library (`Copy`, `Add`, `Sub`, `Div`, `Mul`, `Compact`) is an opaque
  datatype with operations passed as parameters. So is the classification of histogram errors
  into annotations.
- Compensated (Kahan) summation is a parameter.
- The grouping hash is a parameter applied to the series' grouping labels.
- The inner operator is a scripted object: its metadata result, then a fixed sequence of
  results for its `NextSeries` calls.
- Timestamps are milliseconds on the query's step grid: step `i` is at `start + i*interval`,
  and a point at `t` is in step `(t - start) / interval`.

## Model

| member | source | states |
|---|---|---|
| Series.SparseAscending | pkg/streamingpromql/operators/aggregation.go:213-218 | the points built from step slots are strictly ascending in time |
| Series.SparseMembers | pkg/streamingpromql/operators/aggregation.go:228-233 | a point is emitted exactly for each occupied slot, at that slot's grid time, holding the slot's value |
| Series.SparseLength | pkg/streamingpromql/operators/aggregation.go:207-218 | the number of points emitted is the number of occupied slots, which is the size the output slice is requested with |
| Series.SparseTimesBounded | pkg/streamingpromql/operators/aggregation.go:215 | every emitted timestamp lies on the grid between `start` and the last step |
| Series.SparseOfDense | pkg/streamingpromql/operators/aggregation.go:296-300 | spreading a strictly ascending on-grid series over the steps and reading it back gives the series itself |
| Series.ZipCount | pkg/streamingpromql/operators/aggregation.go:261-267 | presence flags paired with values give as many occupied slots as flags set |
| Series.StepOfGridTime | pkg/streamingpromql/operators/aggregation.go:297 | the grid time of step k falls in step k |
| GroupFold.Acquired | pkg/streamingpromql/operators/aggregation.go:272-294 | the float arrays are acquired on the first series with floats and the histogram array on the first with histograms, zero-filled, and the group keeps its shape |
| GroupFold.SumIntoAt | pkg/streamingpromql/operators/aggregation.go:296-300 | after the float loop, a step's sum is its old sum plus every float of the series at that step, added in order |
| GroupFold.MarkIntoAt | pkg/streamingpromql/operators/aggregation.go:296-300 | a step is present after the float loop exactly when it was before or some float falls in it |
| GroupFold.HistogramsIntoAt | pkg/streamingpromql/operators/aggregation.go:302-315 | after the histogram loop, a step holds its old histogram merged with every histogram at that step, in order; the first one into an empty step is stored as it is |
| GroupFold.HistogramsIntoCount | pkg/streamingpromql/operators/aggregation.go:302-315 | the histogram loop keeps histogramPointCount equal to the number of occupied histogram slots, counting only the first histogram at a step |
| GroupFold.ReconcileSeparates | pkg/streamingpromql/operators/aggregation.go:248-260 | after reconciling, no step holds both kinds; a step keeps its float exactly when it had no histogram, and its histogram exactly when it had no float |
| GroupFold.ConflictsCount | pkg/streamingpromql/operators/aggregation.go:248-260 | clearing the conflicting steps lowers the count of occupied histogram slots by exactly the number of conflicts |
| GroupFold.ReconcileWellShaped | pkg/streamingpromql/operators/aggregation.go:238-269 | reconciling keeps histogramPointCount equal to the number of occupied histogram slots |
| GroupFold.OutputShape | pkg/streamingpromql/operators/aggregation.go:203-236 | a group's output floats and histograms are strictly ascending, one per present float step and one per counted histogram |
| GroupFold.FoldMembersStep | pkg/streamingpromql/operators/aggregation.go:193-195 | pulling a series changes only the state of that series' group, by folding it in |
| GroupFold.FoldSingleMember | pkg/streamingpromql/operators/aggregation.go:193-195 | series of other groups leave a group untouched: a group with one member holds exactly that member folded into an empty group |
| GroupFold.FoldNoMember | pkg/streamingpromql/operators/aggregation.go:193-195 | a group with no members pulled is still empty |
| GroupFold.FloatsRoundTrip | pkg/streamingpromql/operators/aggregation.go:296-300 | folding a regular series into an empty group and reading its float steps back gives its float points |
| GroupFold.HistogramsRoundTrip | pkg/streamingpromql/operators/aggregation.go:302-315 | folding a regular series into an empty group and reading its histogram steps back gives its histogram points |
| GroupFold.NoConflictInRegular | pkg/streamingpromql/operators/aggregation.go:248-251 | a regular series never puts a float and a histogram in the same step |
| GroupFold.SingleSeriesRoundTrip | pkg/streamingpromql/operators/aggregation.go:203-236 | a group whose single member is a regular series outputs exactly that series |
| Grouping.Keep | pkg/streamingpromql/operators/aggregation.go:144-146 | the kept labels are exactly the series' labels whose names are grouping labels |
| Grouping.LabelsForGroup | pkg/streamingpromql/operators/aggregation.go:139-147 | a group's labels are the grouping labels of the series that created it, and none without grouping labels |
| Grouping.LastIndexOf | pkg/streamingpromql/operators/aggregation.go:121 | the position returned holds the value and nothing after it does |
| Grouping.FirstIndexOf | pkg/streamingpromql/operators/aggregation.go:112-113 | the position returned holds the value and nothing before it does |
| Grouping.LastPositionsFacts | pkg/streamingpromql/operators/aggregation.go:125-134 | the reference output order lists exactly the last occurrences of the keys, strictly ascending |
| Grouping.StrictlyIncreasingUnique | pkg/streamingpromql/operators/aggregation.go:129-134 | two strictly increasing sequences with the same elements are equal, so the output order does not depend on map iteration order |
| Grouping.SamePatternSameLastPositions | pkg/streamingpromql/operators/aggregation.go:120-122 | the group objects and the grouping keys of the series have the same last occurrences |
| Grouping.SortEntries | pkg/streamingpromql/operators/aggregation.go:134 | sorting the collected groups gives a permutation of them, ordered by last member |
| Grouping.SortedDistinctStrict | pkg/streamingpromql/operators/aggregation.go:335-337 | with distinct last members, the sorted groups are strictly ascending by last member |
| Grouping.OnePerKey | pkg/streamingpromql/operators/aggregation.go:104-123 | there is one output group per distinct key, at the position of the key's last series |
| Grouping.AssignStep | pkg/streamingpromql/operators/aggregation.go:110-122 | one loop turn: the series joins its key's existing group, or a new group created with its group labels |
| Grouping.EntryAtLast | pkg/streamingpromql/operators/aggregation.go:112-121 | a collected group sits at its key's last series, holds that series' group, and carries the labels of the key's first series |
| Grouping.PermutationDistinct | pkg/streamingpromql/operators/aggregation.go:134 | sorting does not duplicate a group |
| Grouping.SortedLastsArePositions | pkg/streamingpromql/operators/aggregation.go:129-134 | the sorted groups' last members are exactly the keys' last occurrences, in ascending order |
| Grouping.SortedGroups | pkg/streamingpromql/operators/aggregation.go:126-134 | after sorting, position k holds the group of the k-th last occurrence of a key, with the labels of that key's first series, whatever the collection order |
| Grouping.EveryOwnerListed | pkg/streamingpromql/operators/aggregation.go:129-131 | every series' group is among the groups returned |
| Grouping.ListedInOrder | pkg/streamingpromql/operators/aggregation.go:126-134 | the listed groups and labels are those of the reference order, each group's last member at its listed position |
| Grouping.LastIndexOfAppend | pkg/streamingpromql/operators/aggregation.go:121 | appending a series makes it its key's last member and moves no other key's last member |
| Aggregation.ScriptedOperator.DeliveredStep | pkg/streamingpromql/operators/aggregation.go:184 | one more series pulled extends the pulled data by that series |
| Aggregation.Group.AddSeries | pkg/streamingpromql/operators/aggregation.go:271-320 | the group's arrays hold the series folded in, and its counter is one lower |
| Aggregation.Group.Acquire | pkg/streamingpromql/operators/aggregation.go:272-294 | the arrays become those of GroupFold.Acquired, new arrays fresh and existing ones kept |
| Aggregation.Group.FoldIn | pkg/streamingpromql/operators/aggregation.go:296-315 | the two point loops update the existing arrays in place to the folded state |
| Aggregation.Group.AddFloatPoints | pkg/streamingpromql/operators/aggregation.go:296-300 | the float loop leaves the sums and flags of the fold |
| Aggregation.Group.AddHistogramPoints | pkg/streamingpromql/operators/aggregation.go:302-315 | the histogram loop leaves the slots and count of the fold |
| Aggregation.ClearConflicts | pkg/streamingpromql/operators/aggregation.go:248-260 | conflicting steps lose both values, the count drops by the number of conflicts, and the float points left are counted |
| Aggregation.CountPresent | pkg/streamingpromql/operators/aggregation.go:261-267 | counts the present float steps |
| Aggregation.ReconcilePointCount | pkg/streamingpromql/operators/aggregation.go:238-269 | the group becomes its reconciled state, and the result is the number of present float steps left |
| Aggregation.EmitFloats | pkg/streamingpromql/operators/aggregation.go:207-219 | emits one point per present step, at its grid time, in step order |
| Aggregation.EmitHistograms | pkg/streamingpromql/operators/aggregation.go:221-234 | emits one point per occupied histogram slot, at its grid time, in step order |
| Aggregation.ConstructSeriesData | pkg/streamingpromql/operators/aggregation.go:203-236 | the output is the reconciled group read out as points |
| Aggregation.Aggregation.constructor | pkg/streamingpromql/operators/aggregation.go:38-56 | a new operator has no groups and has pulled nothing |
| Aggregation.Aggregation.SeriesMetadata | pkg/streamingpromql/operators/aggregation.go:84-137 | an inner error is passed on and no series give no groups; otherwise every series is assigned its key's group, each group counts its members and knows its last, and the labels come back ordered by last member |
| Aggregation.Aggregation.GroupSeries | pkg/streamingpromql/operators/aggregation.go:98-134 | on a non-empty series list, the work lists satisfy Grouped and the labels are in the reference order |
| Aggregation.Aggregation.BuildGroups | pkg/streamingpromql/operators/aggregation.go:98-134 | new groups, one per key, listed per series and in output order, strictly ascending by last member |
| Aggregation.Aggregation.AssignGroups | pkg/streamingpromql/operators/aggregation.go:104-123 | the metadata loop leaves one group per key, shared exactly by the series of that key, each recording its last member |
| Aggregation.Aggregation.JoinGroup | pkg/streamingpromql/operators/aggregation.go:108-122 | one turn of the metadata loop keeps the assignment invariant for one more series |
| Aggregation.Aggregation.CollectGroups | pkg/streamingpromql/operators/aggregation.go:129-132 | one entry per key of the group map, in whatever order the map yields |
| Aggregation.Aggregation.OrderGroups | pkg/streamingpromql/operators/aggregation.go:125-134 | the collected groups sorted by last member, with their labels in lockstep |
| Aggregation.Aggregation.GroupedInOrder | pkg/streamingpromql/operators/aggregation.go:125-134 | the groups listed at the keys' last positions satisfy Grouped and ascend by last member |
| Aggregation.Aggregation.InstallGroups | pkg/streamingpromql/operators/aggregation.go:122-131 | the work lists take the series' groups and the ordered groups, and the operator invariant holds |
| Aggregation.Aggregation.NewGroupsValid | pkg/streamingpromql/operators/aggregation.go:112-122 | fresh groups, each counting all its members, satisfy the operator invariant before anything is pulled |
| Aggregation.Aggregation.SeriesIntoGroup | pkg/streamingpromql/operators/aggregation.go:271-320 | the series is folded into its group, whose counter drops by one; every other group is unchanged |
| Aggregation.Aggregation.NextSeries | pkg/streamingpromql/operators/aggregation.go:149-180 | end of stream once no group remains; otherwise the head group is removed and exactly its last member + 1 series have been pulled; the output is the fold of its members, reconciled; an inner failure is reported as PullError |
| Aggregation.Aggregation.CompleteGroup | pkg/streamingpromql/operators/aggregation.go:164-179 | the completed head group's output is the reconciled fold of its members, and the groups after it keep the invariant |
| Aggregation.Aggregation.Emit | pkg/streamingpromql/operators/aggregation.go:164-176 | the output is the reconciled group; its arrays are released and its histogram count cleared; other groups are unchanged |
| Aggregation.Aggregation.AccumulateUntilGroupComplete | pkg/streamingpromql/operators/aggregation.go:182-201 | series are pulled until the group's counter is zero, at which point its last member has just been pulled; end of stream becomes "exhausted series", other errors pass unchanged |
| Aggregation.Aggregation.PullOne | pkg/streamingpromql/operators/aggregation.go:184-195 | one pull: the inner operator's next result, folded into the group of its position when it is a series |
| Aggregation.Aggregation.FoldPulled | pkg/streamingpromql/operators/aggregation.go:193-195 | the pulled series joins the group at the head of the per-series work list, and the invariant holds |
| Aggregation.Aggregation.Advance | pkg/streamingpromql/operators/aggregation.go:193-195 | the head of the per-series work list is dropped, its group folds the series in, and every other group is untouched |
| Aggregation.Aggregation.Pending | pkg/streamingpromql/operators/aggregation.go:183 | the cursor never passes the last member of a group that still expects members |
| Aggregation.Aggregation.Completed | pkg/streamingpromql/operators/aggregation.go:183-200 | a group with no members left has had exactly its last member pulled |
| Aggregation.Aggregation.HeadFacts | pkg/streamingpromql/operators/aggregation.go:156-165 | the head group holds the fold of its members pulled so far and shares no array with another group |
| Aggregation.Aggregation.TailFacts | pkg/streamingpromql/operators/aggregation.go:156-157 | once the head group is complete, the rest keep the invariant and each still expects a member |
| Aggregation.Aggregation.SeparateMembers | pkg/streamingpromql/operators/aggregation.go:63-76 | two different groups share no step array |
| Max.OfferKeepsMax | pkg/streamingpromql/aggregations/max.go:45-49 | offering a non-NaN value keeps every step the maximum of what it was offered |
| Max.FloatsIntoMax | pkg/streamingpromql/aggregations/max.go:41-50 | the float loop keeps every step the maximum of the non-NaN floats offered there |
| Max.HistogramsIntoMax | pkg/streamingpromql/aggregations/max.go:54-60 | the histogram loop keeps every step the maximum, each histogram offering 0 |
| Max.HistogramsAsZeros | pkg/streamingpromql/aggregations/max.go:52-60 | a histogram acts exactly like a float sample of 0 at its timestamp |
| Max.NaNSamplesIgnored | pkg/streamingpromql/aggregations/max.go:41-44 | NaN samples change nothing |
| Max.AccumulateIsMax | pkg/streamingpromql/aggregations/max.go:24-64 | after each series, every step is present exactly when offered something and holds an offered value no offered value exceeds |
| Max.OutputIsMax | pkg/streamingpromql/aggregations/max.go:66-88 | the output has a point exactly at the steps offered something, at the step's time, holding their maximum |
| Max.AcquiredAsWritten | pkg/streamingpromql/aggregations/max.go:26-39 | the acquisition as written, taken only on a series with floats; it keeps the shape |
| Max.HistogramOnlyFirstSeries | pkg/streamingpromql/aggregations/max.go:54-56 | after the acquisition as written, a histogram-only first series makes the histogram loop index a missing slot |
| Max.Acquired | pkg/streamingpromql/aggregations/max.go:26-39 | the arrays are acquired, zero-filled, on the first series with floats or histograms |
| Max.AcquiredInBounds | pkg/streamingpromql/aggregations/max.go:41-60 | with that acquisition both loops stay inside the arrays for every on-grid series |
| Max.OfferFloats | pkg/streamingpromql/aggregations/max.go:41-50 | the float loop updates the arrays in place to the fold of the float points |
| Max.OfferHistograms | pkg/streamingpromql/aggregations/max.go:54-60 | the histogram loop updates the arrays in place to the fold of the histogram points |
| Max.MaxAggregationFunction.AccumulateSeries | pkg/streamingpromql/aggregations/max.go:24-64 | the arrays hold the fold of the series and the offered values grow by what the series offers |
| Max.MaxAggregationFunction.ComputeOutputSeries | pkg/streamingpromql/aggregations/max.go:66-94 | one point per present step at its grid time holding its value, no histograms, `false`, and both arrays released |
| Avg.RemoveConflictKeeps | pkg/streamingpromql/aggregations/avg.go:85-91 | removing a conflict clears the step's float and histogram, keeps its count and touches no other step |
| Avg.FloatStepKeeps | pkg/streamingpromql/aggregations/avg.go:93-108 | a float conflicts exactly when its step holds a histogram or the sentinel; it is counted exactly when it does not; either way the step ends with no histogram, holding a float exactly when there was no conflict |
| Avg.HistogramStepKeeps | pkg/streamingpromql/aggregations/avg.go:158-205 | a histogram conflicts exactly when its step holds a float, is counted exactly when it does not, touches no other step, and after a conflict leaves no histogram and no error |
| Avg.MoveMeanKeeps | pkg/streamingpromql/aggregations/avg.go:180-205 | moving a mean leaves the sentinel exactly when the subtraction or the addition fails, failing the call exactly when that error is not recognised; otherwise the step holds the moved mean; the count drops exactly when the sentinel is left |
| Avg.CountMeansUpdate | pkg/streamingpromql/aggregations/avg.go:170-171 | replacing one slot changes the number of means by what was removed and added |
| Avg.FloatStepCounted | pkg/streamingpromql/aggregations/avg.go:93-100 | with the corrected removal, a float keeps histogramPointCount equal to the number of histogram means |
| Avg.HistogramStepCounted | pkg/streamingpromql/aggregations/avg.go:161-205 | with the corrected removal, a histogram keeps histogramPointCount equal to the number of histogram means |
| Avg.IncrementalOnlyOnOverflow | pkg/streamingpromql/aggregations/avg.go:110-132 | a step switches to incremental means only when it already holds a float and the compensated sum would be infinite, and never switches back |
| Avg.FloatsInto | pkg/streamingpromql/aggregations/avg.go:93-156 | the float loop keeps the state's shape: arrays sized, counts covering present floats, no step with both kinds |
| Avg.HistogramsInto | pkg/streamingpromql/aggregations/avg.go:158-206 | the histogram loop keeps the state's shape |
| Avg.HistogramsIntoStops | pkg/streamingpromql/aggregations/avg.go:188-191 | the histogram loop ends at the first unrecognised error: the points after it change nothing |
| Avg.AcquireCounts | pkg/streamingpromql/aggregations/avg.go:39-46 | the counts are acquired, zero-filled, and no step reads differently |
| Avg.AcquireFloats | pkg/streamingpromql/aggregations/avg.go:48-74 | the four float arrays are acquired together on a series with floats, zero-filled, and no step reads differently |
| Avg.AcquireHistograms | pkg/streamingpromql/aggregations/avg.go:76-83 | the histogram slots are acquired empty on a series with histograms, and the number of means is unchanged |
| Avg.Acquire | pkg/streamingpromql/aggregations/avg.go:36-83 | the arrays a series needs exist afterwards and every step reads as before |
| Avg.AccumulatePoints | pkg/streamingpromql/aggregations/avg.go:85-209 | the two loops keep the state's shape |
| Avg.Accumulate | pkg/streamingpromql/aggregations/avg.go:36-210 | a whole series keeps the state's shape, whether or not the call fails |
| Avg.AccumulateCounted | pkg/streamingpromql/aggregations/avg.go:36-210 | with the corrected removal, a whole series keeps histogramPointCount equal to the number of histogram means, even when it fails |
| Avg.FloatStepAverages | pkg/streamingpromql/aggregations/avg.go:102-118 | with exact addition, a finite float adds itself to its step's sum and count |
| Avg.AccumulateAverages | pkg/streamingpromql/aggregations/avg.go:93-118 | with exact addition, a float-only series of finite samples adds them to their steps' sums and counts and reports no conflict |
| Avg.EmptyAverages | pkg/streamingpromql/aggregations/avg.go:20-34 | a new group holds no samples at any step |
| Avg.OutputIsMean | pkg/streamingpromql/aggregations/avg.go:229-240 | with exact addition, a float-only group of finite samples emits the arithmetic mean of each step's samples, at exactly the steps with samples |
| Avg.HistogramSlots | pkg/streamingpromql/aggregations/avg.go:250-251 | a step is emitted exactly when it holds a histogram mean; empty and sentinel steps are skipped |
| Avg.FloatSlotsCount | pkg/streamingpromql/aggregations/avg.go:216-221 | as many float points are emitted as steps are flagged present |
| Avg.HistogramSlotsCount | pkg/streamingpromql/aggregations/avg.go:243-256 | as many histogram points are emitted as steps hold a mean |
| Avg.OutputHasEveryMean | pkg/streamingpromql/aggregations/avg.go:243-256 | while the count is right, every step holding a mean is emitted at its time, compacted, and nothing else is |
| Avg.OutputSeparated | pkg/streamingpromql/aggregations/avg.go:212-256 | the output never holds a float and a histogram at the same timestamp |
| Avg.SentinelIgnoresHistograms | pkg/streamingpromql/aggregations/avg.go:175-178 | at a sentinel step a later histogram is counted and otherwise ignored |
| Avg.FailedCombinationPoisons | pkg/streamingpromql/aggregations/avg.go:180-193 | a failed subtraction leaves the sentinel, lowers the count by one, and fails the call exactly when the error is not recognised |
| Avg.FailedAdditionPoisons | pkg/streamingpromql/aggregations/avg.go:194-205 | a successful subtraction followed by a failed addition leaves the sentinel, lowers the count by one, and fails the call exactly when the error is not recognised |
| Avg.TwoSeries | pkg/streamingpromql/aggregations/avg.go:93-206 | the two-series example group keeps its shape |
| Avg.TwoSeriesState | pkg/streamingpromql/aggregations/avg.go:85-91 | the two-series example ends with the float step cleared and a histogram at step 1 |
| Avg.AsWrittenDropsHistogram | pkg/streamingpromql/aggregations/avg.go:162-164 | as written, the example's histogram at step 1 is held but not emitted, and the count is wrong |
| Avg.CorrectedKeepsHistogram | pkg/streamingpromql/aggregations/avg.go:162-164 | corrected, the same example keeps its count and emits the histogram at step 1 |
| Avg.AvgAggregationGroup.RemoveConflictingPoint | pkg/streamingpromql/aggregations/avg.go:85-91 | the arrays become the corrected conflict removal |
| Avg.AvgAggregationGroup.AddToIncrementalMean | pkg/streamingpromql/aggregations/avg.go:133-155 | the incremental-mean update of the model, in place |
| Avg.AvgAggregationGroup.AddToMean | pkg/streamingpromql/aggregations/avg.go:110-155 | compensated sum, or the switch and the incremental update, in place; the means array acquired at most once |
| Avg.AvgAggregationGroup.AcquireMeans | pkg/streamingpromql/aggregations/avg.go:122-128 | the means array is acquired, zero-filled |
| Avg.AvgAggregationGroup.SwitchToIncremental | pkg/streamingpromql/aggregations/avg.go:119-131 | the step switches with the mean so far and a scaled compensation; the means array is kept or fresh |
| Avg.AvgAggregationGroup.AddFloat | pkg/streamingpromql/aggregations/avg.go:93-155 | one float point updates the arrays as FloatStep says, with the conflict flag |
| Avg.AvgAggregationGroup.AddCountedFloat | pkg/streamingpromql/aggregations/avg.go:102-155 | a non-conflicting float is counted, then stored or added in |
| Avg.AvgAggregationGroup.AddHistogram | pkg/streamingpromql/aggregations/avg.go:158-205 | one histogram point updates the arrays as HistogramStep says, with the conflict flag and error |
| Avg.AvgAggregationGroup.AddCountedHistogram | pkg/streamingpromql/aggregations/avg.go:167-205 | a non-conflicting histogram is counted, then stored, ignored at the sentinel, or moved into the mean |
| Avg.AvgAggregationGroup.MoveMeanAt | pkg/streamingpromql/aggregations/avg.go:180-205 | the mean moves by (h - mean) / count, or becomes the sentinel on a failure |
| Avg.AvgAggregationGroup.Poison | pkg/streamingpromql/aggregations/avg.go:184-191 | the step becomes the sentinel, the count drops, and an unrecognised error is returned |
| Avg.AvgAggregationGroup.AcquireCountArray | pkg/streamingpromql/aggregations/avg.go:39-46 | the counts array is acquired once |
| Avg.AvgAggregationGroup.AcquireFloatArrays | pkg/streamingpromql/aggregations/avg.go:48-74 | the four float arrays are acquired together on the first series with floats |
| Avg.AvgAggregationGroup.AcquireHistogramArray | pkg/streamingpromql/aggregations/avg.go:76-83 | the histogram array is acquired on the first series with histograms |
| Avg.AvgAggregationGroup.AcquireArrays | pkg/streamingpromql/aggregations/avg.go:36-83 | the arrays become Acquire of the old state, each kept or fresh |
| Avg.AvgAggregationGroup.AccumulateFloats | pkg/streamingpromql/aggregations/avg.go:93-156 | the float loop leaves the state and flag of FloatsInto |
| Avg.AvgAggregationGroup.AccumulateHistograms | pkg/streamingpromql/aggregations/avg.go:158-206 | the histogram loop leaves the state, flag and error of HistogramsInto, stopping at the first error |
| Avg.AvgAggregationGroup.AccumulateAcquired | pkg/streamingpromql/aggregations/avg.go:85-209 | the two loops leave the state and result of AccumulatePoints |
| Avg.AvgAggregationGroup.AccumulateSeries | pkg/streamingpromql/aggregations/avg.go:36-210 | the group's arrays become Accumulate of the old state (corrected count), the result is the conflict flag or the error, and the invariant including the count holds |
| Avg.AvgAggregationGroup.CountFloatPoints | pkg/streamingpromql/aggregations/avg.go:216-221 | counts the present float steps |
| Avg.AvgAggregationGroup.EmitFloatPoints | pkg/streamingpromql/aggregations/avg.go:223-241 | one point per present step, at its time, with the incremental mean or the compensated sum over the count |
| Avg.AvgAggregationGroup.EmitHistogramPoints | pkg/streamingpromql/aggregations/avg.go:250-255 | one compacted point per step holding a mean |
| Avg.AvgAggregationGroup.CollectOutput | pkg/streamingpromql/aggregations/avg.go:212-256 | the output is Output of the state: float points for present steps, histogram points for means when the count is positive |
| Avg.AvgAggregationGroup.ComputeOutputSeries | pkg/streamingpromql/aggregations/avg.go:212-267 | the output of the state before the call, and all seven arrays released |
| MathFunctions.SgnIsSign | pkg/streamingpromql/functions/math.go:42-54 | sgn is -1 below zero, 1 above, 0 at zero, including infinities; NaN stays NaN |
| MathFunctions.SgnOdd | pkg/streamingpromql/functions/math.go:42-54 | sgn is odd and idempotent |
| MathFunctions.NegatedInvolution | pkg/streamingpromql/functions/math.go:59-61 | negating twice gives the points back, and negation keeps every timestamp |
| MathFunctions.UnaryNegation | pkg/streamingpromql/functions/math.go:58-68 | every float is negated and every histogram multiplied by -1, in place, and the same series is returned |
| MathFunctions.ClampWithin | pkg/streamingpromql/functions/math.go:101 | with min <= max the clamped value lies between them, and a value already between them is kept |
| MathFunctions.ClampCrossed | pkg/streamingpromql/functions/math.go:101 | with min > max the result is min |
| MathFunctions.ClampIdempotent | pkg/streamingpromql/functions/math.go:101 | clamping twice with the same bounds is clamping once |
| MathFunctions.ClampedDenseSeries | pkg/streamingpromql/functions/math.go:97-99 | only for a series with a point at every step from the first does the point's position equal its step |
| MathFunctions.ClampFunction.Func | pkg/streamingpromql/functions/math.go:96-105 | every float is clamped in place by the bounds at its position; timestamps are kept |
| MathFunctions.ClampFunction.Close | pkg/streamingpromql/functions/math.go:107-110 | both bound sample slices are handed back to the pool |
| MathFunctions.NewClampFunction | pkg/streamingpromql/functions/math.go:79-94 | the first failing bound is the error; otherwise the function holds both bounds' samples |
| FunctionRegistry.NatToString | pkg/streamingpromql/functions.go:21 | the count in the arity message is written in decimal digits that denote exactly that count, with no leading zero |
| FunctionRegistry.ApplySimple | pkg/streamingpromql/functions.go:16-38 | the result is built exactly for one instant-vector argument, wrapping it with DropSeriesName and the data function; otherwise it is the arity or kind error |
| FunctionRegistry.ApplyRate | pkg/streamingpromql/functions.go:40-56 | the result is built exactly for one range-vector argument, wrapping it; otherwise it is the arity or kind error |
| FunctionRegistry.ArityChecked | pkg/streamingpromql/functions.go:19-22 | any factory refuses a call with other than one argument, naming the function and the count |
| FunctionRegistry.KindChecked | pkg/streamingpromql/functions.go:24-36 | a built operator wraps the single argument, which has the factory's kind, and the query's pool |
| FunctionRegistry.InitialFunctionsNamed | pkg/streamingpromql/functions.go:61-66 | the table holds exactly acos, histogram_count, histogram_sum and rate, each simple factory under its own name |
| FunctionRegistry.AcosMessage | pkg/streamingpromql/functions_test.go:16 | the duplicate-registration message for acos |
| FunctionRegistry.Registry.constructor | pkg/streamingpromql/functions.go:61-66 | the registry starts as the declared table |
| FunctionRegistry.Registry.Register | pkg/streamingpromql/functions_test.go:13-22 | an existing name is refused with its message and the table kept; a new name is added |
| FunctionRegistry.RegistrationScenario | pkg/streamingpromql/functions_test.go:12-23 | registering acos fails with the expected message; registering new_function succeeds and is found |
| SeriesDataIterator.MergeLength | pkg/streamingpromql/types/data_test.go:108-118 | the number of items handed out is the number of float points plus histogram points |
| SeriesDataIterator.MergeLowerBound | pkg/streamingpromql/types/data_test.go:57-84 | no item is earlier than both lists' earliest points |
| SeriesDataIterator.MergeAscending | pkg/streamingpromql/types/data_test.go:57-84 | merging two timestamp-sorted lists hands items out in timestamp order |
| SeriesDataIterator.MergeSplits | pkg/streamingpromql/types/data_test.go:57-84 | the float items are the float points in order, the histogram items the histogram points; nothing is lost or invented |
| SeriesDataIterator.InstantVectorSeriesDataIterator.constructor | pkg/streamingpromql/types/data_test.go:110 | a new iterator has the merged items of its data still to hand out |
| SeriesDataIterator.InstantVectorSeriesDataIterator.Next | pkg/streamingpromql/types/data_test.go:26-106 | the next item as (T, F, nil, true) or (T, 0, H, true); once exhausted, (0, 0, nil, false) on every call with nothing changed |
| SeriesDataIterator.Drain | pkg/streamingpromql/types/data_test.go:92-105 | n calls give a prefix of the merge and, once any call reports the end, the whole merge |
| SeriesDataIterator.MixedDataOrder | pkg/streamingpromql/types/data_test.go:57-84 | the mixed-data case interleaves exactly as expected |

## Left out

- Memory pools, the memory-consumption tracker and `zeropool` are not modelled, except the sample-slice pool that `ClampFunction.Close` hands its bounds back to (math.go:107-110), which is modelled only as a log of the slices handed back (`FPointSlicePool`). Every acquisition succeeds and hands out a zero-filled slice of `steps` slots. Elsewhere, handing a slice back means dropping the reference. The pool errors that end `seriesIntoGroup`, `constructSeriesData`, `AccumulateSeries` and `ComputeOutputSeries` are not modelled.
- Context cancellation and the `ctx` arguments are left out.
- `Aggregation.Close` and `UnaryNegationFunction.Close` are left out: they only close the inner operator or do nothing.
- Grouping keys are a hash parameter. Two different label sets with the same key are merged into one group, as the code does (the code has no collision handling). `labels.Builder` is modelled by `Keep`.
- Go map iteration order is left open. `CollectGroups` takes the entries in any order, and the sort makes the result independent of it.
- float64 rounding and the overflow of finite sums are not modelled: finite values are exact reals. NaN and the infinities behave as in IEEE 754. Signed zero is not modelled.
- Compensated (Kahan) addition is a parameter. The averages lemmas assume it is exact addition (`ExactKahan`).
- The native-histogram operations and `NativeHistogramErrorToAnnotation` are parameters. The annotation emitted for a recognised error is not modelled: only whether the error is recognised matters.
- `groupSeriesCounts` is a `[]float64` in the code and a `nat` per step here. Counts stay far below 2^53, so no rounding is lost.
- Timestamps are unbounded integers, so int64 overflow of `start + i*interval` is not modelled.
- The trig, exp and log wrappers and `NewFloatTransformationDropHistogramsFunction` are not part of this model. `Sgn` is modelled as the value function it wraps.
- `RegisterInstantVectorFunctionOperator` and `LabelManipulationFunctionOperator` are not part of this model's sources. Registration follows the behaviour `functions_test.go` expects. The factory stored for a new name is opaque.
- The iterator's implementation file is not part of this model. Its behaviour is taken from `data_test.go`. No test has a float and a histogram at the same timestamp, so the order there is a choice of the model: the histogram comes first.
- `ClampFunction.Func` takes the bounds by a point's position in the series, as the code does. `ClampedDenseSeries` states that this is the point's step only for a series with a point at every step from the first.
- Avg.AccumulateAverages: covers finite samples only. Infinite and NaN samples, and with them the switch to incremental means (avg.go:110-155), are outside the lemma; IncrementalOnlyOnOverflow states when that switch happens.
- Avg.OutputIsMean: covers groups of finite samples only, for the same reason.
- Avg.AvgAggregationGroup.AccumulateSeries: proved with the corrected `histogramPointCount` bookkeeping (see Findings), not the code's. The code's behaviour is kept as `Removal.AsWritten` in the pure model.
- Avg.AvgAggregationGroup.RemoveConflictingPoint: uses the corrected `histogramPointCount` decrement (see Findings), not the code's; the code's is kept as `Removal.AsWritten` in the pure model.
- Avg.AvgAggregationGroup.AddFloat: uses the corrected `histogramPointCount` decrement (see Findings), not the code's; the code's is kept as `Removal.AsWritten` in the pure model.
- Avg.AvgAggregationGroup.AddHistogram: uses the corrected `histogramPointCount` decrement (see Findings), not the code's; the code's is kept as `Removal.AsWritten` in the pure model.
- Avg.AvgAggregationGroup.AccumulateFloats: uses the corrected `histogramPointCount` decrement (see Findings), not the code's; the code's is kept as `Removal.AsWritten` in the pure model.
- Avg.AvgAggregationGroup.AccumulateHistograms: uses the corrected `histogramPointCount` decrement (see Findings), not the code's; the code's is kept as `Removal.AsWritten` in the pure model.
- Avg.AvgAggregationGroup.AccumulateAcquired: uses the corrected `histogramPointCount` decrement (see Findings), not the code's; the code's is kept as `Removal.AsWritten` in the pure model.
- Avg.AvgAggregationGroup.AccumulateSeries: on an error the call returns only the error. The code's `false` flag is not modelled.
- Max.MaxAggregationFunction.AccumulateSeries: acquires the arrays on the first series with floats or histograms (see Findings), not only on the first with floats.
- Max.Acquired: acquires the arrays on the first series with floats or histograms (see Findings), where the code acquires them only on the first with floats; the code's rule is kept as `Max.AcquiredAsWritten`.
- Aggregation.Aggregation.NextSeries: the pool errors of `constructSeriesData` cannot occur here, so `NextSeries` fails only when the inner operator does.
- The operators' classes own their groups and arrays through a footprint. Aliasing between different operators' arrays is not modelled.

## Findings

| source | as written | input that shows it | evidently intended | confidence | as-written member | corrected member |
|---|---|---|---|---|---|---|
| pkg/streamingpromql/aggregations/max.go:26-39 | the step arrays are acquired only when the series has floats, but the histogram loop indexes `floatPresent` for every histogram | a group whose first series holds one histogram at step 0 and no floats: `floatPresent` is nil when the histogram loop indexes it | acquire the arrays on the first series with floats or histograms | not executed | Max.HistogramOnlyFirstSeries | Max.AcquiredInBounds |
| pkg/streamingpromql/aggregations/avg.go:85-91 | `removeConflictingPoint` always lowers `histogramPointCount`. A histogram meeting a float lowers it though no histogram was counted at that step, and a float meeting the sentinel lowers it a second time | two steps, start 0, interval 1: series 1 has a float at step 0, series 2 has histograms at steps 0 and 1. The count goes to -1 and then back to 0, so the mean held at step 1 is not emitted | lower the count only when a counted histogram mean is removed | not executed | Avg.AsWrittenDropsHistogram | Avg.CorrectedKeepsHistogram |

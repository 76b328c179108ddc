# Prometheus: a verified model of its hard core

A Dafny model of five parts of Prometheus, with proofs that hold for all inputs, all reachable states
or all interleavings:

* **PromQL evaluation** – range evaluation with consuming cursors (`Series`, `RangeEval`), aggregations
  with one accumulator per group (`Aggregation`), topk, bottomk and limitk on heaps (`Heap`,
  `AggregationK`), the sliding window behind range selectors with its buffered iterator (`MatrixWindow`),
  the hoisting of step-invariant expressions and the offsets stored for @ timestamps (`StepInvariant`,
  `Hoisting`, `QueryMeaning`, `Agreement`, `ParameterCondition`, `StoredOffsets`), the grids of subqueries
  (`Grid`), the time bounds of a query (`TimeBounds`, `TimeLaws`), vector joins through signature ordinals
  (`Joins`), counter increases (`CounterIncrease`, `Extrapolation`, `IncreaseLaws`) and classic bucket
  quantiles (`Quantile`, `QuantileLaws`).
* **The protobuf codec of remote write** – the wire format (`Wire`), the messages (`Messages`), their bytes
  (`WireFormat`), unknown fields (`UnknownFields`), the order of fields (`FieldOrder`), the
  backwards-filling marshallers and the size calculation (`Codec`) and the parsing loops (`Parser`).  It
  follows the Protocol Buffers Encoding guide, sections "Base 128 Varints", "Signed Integers",
  "Length-Delimited Records" and "Packed Repeated Fields".
* **Alerting rules** – the life of an alert, its notifications, and the restoring of its hold time
  (`Alerts`, `AlertRuns`).
* **The discovery manager** – publish and subscribe with reconfiguration under all interleavings
  (`Discovery`, `DiscoveryRuns`), and that it always can come to rest (`DiscoveryProgress`).
* **The send loop of the notifier** – a bounded queue with one wake-up slot under all interleavings
  (`SendLoop`).

`Basics` holds what several modules share.

Most of these are fast forms of something simple.  Each module first says what the simple form is (a
column of a matrix, the fresh window, the denotation of an expression, the relational join, the
cumulative increase of a counter, the list of fields of a message, an activity episode, the replay of all
updates) and then proves that the code as it is written computes it.  What the simple form amounts to is then
said in plain terms: times and bounds as arithmetic on the query's own numbers, messages byte by byte, alerts
and discovery in terms of what happened in a run.

`dafny verify dfyconfig.toml` checks the whole project.

## How the code is represented

* Times are unbounded integers (milliseconds in the engine, nanoseconds in alerting); Go's division
  truncates toward zero and is defined as `Grid.TruncDiv`.  Sample values are `real`; where order matters
  for NaN (topk) or infinities (quantiles) these are explicit cases.  In the codec every integer width is
  explicit: floats are 64-bit patterns, and shifts, sign extension and truncation are written out.
* Go slices and maps that are updated by their owner become `seq` and `map` variables or fields that are
  reassigned; buffers of fixed size are arrays (buckets, join arrays, the marshalling buffer).  The
  histogram objects of the sliding window are objects in Dafny's heap, because sharing them is the point.
* Label hashes are taken to be injective.  An underlying storage iterator is a sequence of samples with
  ascending times and a position.
* `SendLoop` and `Discovery` are state machines: an event for each region under a mutex and each channel
  operation, and a theorem for every finite sequence of enabled events.
* What counts as a small difference of bucket counts is a parameter of the quantile theorems;
  `Quantile.WithinTolerance` is the comparison in the code.
* Parsing errors are one value; which error is reported is not modelled, nor which annotations a query
  carries.

## Properties that do not hold as one might expect

* The evaluator sees an @ timestamp only as an offset, stored for the first step of the grid it runs on
  (upstream/promql/engine.go:4718-4748).  For every query and every grid, the rewritten query means the query
  exactly if `Agreement.QueryAgrees`: in every model where it holds, and in the model of free terms only where
  it holds (`Agreement.AgreementMeans`, `Agreement.AgreementIsExact`).  The condition compares times alone: at
  every step that shows, every selector is read at the time it means and every subquery shows the steps it
  means.  `StepInvariant.Ok` is a simpler sufficient condition.  There are six ways to fail, each with an input:
  * the parameter of an aggregation varies between steps although the aggregation is hoisted
    (topk(scalar(bar), foo @ 0) in a range query);
  * the parameter of an aggregation that is evaluated at several steps holds a vector selector with an @
    timestamp, which moves on with the steps (topk(scalar(bar @ 0), foo) in a range query);
  * a parameter holds `@ start()` or `@ end()`, which are never resolved there, and is evaluated at another
    time (topk(scalar(bar @ end()), foo) in a range query);
  * a parameter holds a call with an argument in parentheses that it would have to look into
    (topk(scalar(timestamp((bar))), foo));
  * timestamp is applied to a selector with both an @ timestamp and an offset: it forgets the offset
    (timestamp(foo @ 7 offset 3));
  * a subquery with an effective offset has a child grid that starts exactly where its parent's starts: the
    offsets inside are not stored anew, and @ timestamps inside shift by the subquery's offset
    ((foo @ 5)[8:10] offset 2, from 10 on).

  For an aggregation, `ParameterCondition.ParameterConditionIsExact` says which parameters are right on a given
  grid: the first four ways are exactly those to fail, together with what a subquery of the parameter shows.
  A hoisted aggregation with `@ start()` in its parameter is right (`ParameterCondition.HoistedStartIsRight`),
  and in an instant query every modifier is (`ParameterCondition.InstantIsRight`).  timestamp of a selector
  fails exactly in the fifth way (`StoredOffsets.TimestampOffsetIff`), and a subquery over a selector with an @
  timestamp exactly in the sixth, if any of its windows shows something (`StoredOffsets.DriftIff`).
* The documentation promises that an offset counts from the @ timestamp wherever both are given, and the
  fifth and sixth of these contradict it; the model follows the code.
* The inferred time bounds need not cover all reads.  They cover them exactly if every selector, read with the
  offsets, ranges and @ times on its path, fits into them at its first and its last step
  (`TimeBounds.AllReadsWithinIff`), and they cover what the steps of a query depend on exactly if every selector
  fits at every step that is seen from above (`TimeBounds.BoundsCoverUsesIff`).  An @ subquery that is not hoisted
  runs past the bounds by the length of its parent's grid: `TimeBounds.PinnedSubqueryReadsPastBounds` is an
  input, `TimeBounds.PinnedSubqueryIff` the condition, and `TimeBounds.PinnedOnce` a guard under which it cannot
  happen.  Where stored offsets are settled, what a step depends on always lies within the bounds
  (`TimeBounds.BoundsCoverUses`); in the second, fifth and sixth way above it need not, and there are inputs for
  each.
* Stopping the send loop with draining can leave alerts in the queue.  `SendLoop.StopStrandsIff` says
  exactly when: an `add` that carries alerts is past its stop check when the loop is stopped, and the
  capacity is positive.  `SendLoop.StrandedAlert` is a run of four events from a new loop.
* Unknown fields come back from the codec exactly when the message takes their bytes as unknown fields
  (`Messages.UnknownComesBackIff`); `Messages.KnownBytesDoNotComeBack` has bytes that do not.  Float fields
  that are left out when zero lose the sign of zero.

## Model

| member | source | states |
|---|---|---|
| Grid.SubqueryStart | upstream/promql/engine.go:1982-2004 | the child grid of a subquery starts at the least multiple of its step strictly after the start of the first window, for negative times too |
| Grid.SubqueryWindow | upstream/promql/engine.go:1982-2046 | inside the window of any parent step the child grid consists of exactly the multiples of the subquery step, whatever the parent's start and end |
| StepInvariant.WindowThroughChild | upstream/promql/engine.go:2012-2046 | clipping the values of the child grid to the window of a parent step yields one value for each step of the window taken alone, in order and with the right times |
| StepInvariant.InvariantMeansConstant | upstream/promql/engine.go:4600-4709 | under the condition on the query, an expression reported invariant denotes the same value at every time |
| StepInvariant.RewritePreservesMeaning | upstream/promql/engine.go:4578-4713 | the rewritten expression, with hoisted parts evaluated once and replicated, subqueries run on grids of their own and offsets stored per grid, denotes the value of the original at every step, for every grid and drift at which the query meets the condition Ok |
| StepInvariant.QueryPreservesMeaning | upstream/promql/engine.go:800-830 | the same for a whole query, where nothing has drifted yet |
| StepInvariant.RawPreservesMeaning | upstream/promql/engine.go:2152-2158 | a parameter, which is evaluated without preprocessing, denotes what it should under the condition RawOk |
| StepInvariant.HoistableIsFixed | upstream/promql/engine.go:4611-4614 | with the parameters in order, nothing in what the rewrite calls invariant depends on time, parameters included |
| StepInvariant.OkShorter | upstream/promql/engine.go:2622-2636 | the condition holds on the first step alone if it holds on the whole grid |
| StepInvariant.HoistedPreservesMeaning | upstream/promql/engine.go:2622-2686 | evaluating an invariant expression at the first step and replicating it gives its value at every step |
| StepInvariant.UnsafeLookAtTime | upstream/promql/functions.go:2756-2764 | the functions that are not hoisted are exactly the fifteen whose value depends on the evaluation time although their arguments do not |
| Hoisting.HoistableIff | upstream/promql/engine.go:4578-4713 | the rewrite reports an expression as invariant iff every selector and subquery that counts has an @ timestamp and no function in it looks at the time |
| Hoisting.HoistedAsWhole | upstream/promql/engine.go:4632-4713 | an invariant instant vector is hoisted as a whole, with nothing hoisted separately inside |
| Hoisting.CalledAtEveryStep | upstream/promql/engine.go:4632-4662 | in every model, time(), the parts of the date, the query context functions and predict_linear are called at every step with the time of that step, whatever their arguments |
| Hoisting.TimeAtEveryStep | upstream/promql/functions.go:2756-2764 | time() is the time of each step, in every model |
| Hoisting.DateAtEveryStep | upstream/promql/functions.go:2756-2764 | the parts of the date of a vector with an @ timestamp are evaluated at every step |
| Hoisting.PredictionAtEveryStep | upstream/promql/functions.go:2756-2764 | predict_linear over a range with an @ timestamp is evaluated at every step |
| Hoisting.TimestampAtEveryStep | upstream/promql/engine.go:4632-4662 | timestamp of something other than a selector is evaluated at every step, also over an argument that is hoisted |
| QueryMeaning.SelectorAtStep | upstream/promql/engine.go:4718-4748 | at every step a selector is evaluated at the step, its @ timestamp, or the start or end of the query, less its offset, in every model |
| QueryMeaning.SubqueryMeans | upstream/promql/engine.go:1982-2046 | a subquery yields exactly one point for each multiple of its step in the window of its reference time, in order, with the value of its expression there |
| QueryMeaning.SubqueryAtStep | upstream/promql/engine.go:1982-2046 | and that is what evaluation over a whole grid gives each step |
| QueryMeaning.OperatorAtStep | upstream/promql/engine.go:2152-2158 | operators and aggregations get the values of their operands at the step, in order |
| QueryMeaning.ArgumentInParentheses | upstream/promql/engine.go:2160-2230 | without preprocessing a call does not see a range or subquery through parentheses, and sees any other argument |
| Agreement.AgreementIsExact | upstream/promql/engine.go:800-830 | for every query and grid, the rewritten query means the query in free terms at every step iff the two agree: same shape, every selector read at the time it means, every subquery showing the steps it means, at every step that shows |
| Agreement.AgreementMeans | upstream/promql/engine.go:800-830 | where they agree, the rewritten query means the query in every model |
| Agreement.AgreeMeans | upstream/promql/engine.go:2622-2686 | a step of any tree, hoisted parts, drifted offsets and subqueries included, has the value that an expression means at a time, if tree and expression agree there |
| Agreement.AgreeIsNeeded | upstream/promql/engine.go:2622-2686 | and in free terms only then |
| Agreement.OkAgrees | upstream/promql/engine.go:4578-4713 | the condition of the rewriting theorem implies agreement |
| ParameterCondition.ParameterConditionIsExact | upstream/promql/engine.go:4611-4614 | on any grid an aggregation keeps its meaning iff its parameter is right where it is evaluated, at the first step if the aggregation is hoisted and at all steps otherwise, and in the first case means the same at all steps |
| ParameterCondition.RightParameterMeans | upstream/promql/engine.go:4611-4614 | an aggregation with such a parameter keeps its meaning in every model |
| ParameterCondition.HoistedStartIsRight | upstream/promql/engine.go:4611-4614 | start() in the parameter of a hoisted aggregation is right in every query |
| ParameterCondition.InstantIsRight | upstream/promql/engine.go:2152-2158 | in an instant query a selector in a parameter is right whatever its modifier |
| ParameterCondition.SameMeans | upstream/promql/engine.go:4598-4709 | an expression whose selectors refer to the same times, and whose subqueries to the same steps, at two times has the same value at both |
| ParameterCondition.SameIsNeeded | upstream/promql/engine.go:4598-4709 | and in free terms only such an expression has |
| ParameterCondition.RightMeans | upstream/promql/engine.go:2152-2158 | a parameter that is right on a grid is evaluated to what it means at every step |
| ParameterCondition.RightIsNeeded | upstream/promql/engine.go:2152-2158 | and in free terms only such a parameter is |
| ParameterCondition.FrozenFails | upstream/promql/engine.go:4611-4614 | a failing input: topk(scalar(bar), foo @ 0) |
| ParameterCondition.MovingFails | upstream/promql/engine.go:1904-1912 | a failing input: topk(scalar(bar @ 0), foo) |
| ParameterCondition.UnresolvedFails | upstream/promql/engine.go:4611-4614 | a failing input: topk(scalar(bar @ end()), foo) |
| ParameterCondition.ObscuredFails | upstream/promql/engine.go:4611-4614 | a failing input: topk(scalar(timestamp((bar))), foo) |
| StoredOffsets.TimestampOffsetIff | upstream/promql/engine.go:2729-2734 | timestamp of a selector is right iff the selector has no @ timestamp or no offset |
| StoredOffsets.TimestampFails | upstream/promql/engine.go:2729-2734 | a failing input: timestamp(foo @ 7 offset 3) |
| StoredOffsets.DriftIff | upstream/promql/engine.go:2012-2046 | a subquery over an @ selector is right iff its child grid does not start where the parent's does, or its effective offset is zero, or no window shows anything of it |
| StoredOffsets.DriftFails | upstream/promql/engine.go:2037-2042 | a failing input: (foo @ 5)[8:10] offset 2, from 10 to 20 in steps of 5 |
| TimeLaws.OffsetsOfOnePass | upstream/promql/engine.go:4718-4748 | below subqueries whose child grids all start alike, what is stored is the offset that the pass computes from the offsets and @ times on the whole path |
| TimeLaws.OffsetsOfNewPass | upstream/promql/engine.go:2037-2042 | a child grid that starts elsewhere has the offsets of a pass of its own |
| TimeBounds.SubqueryCovered | upstream/promql/engine.go:927-953 | the offsets and ranges accumulated along a path of subqueries cover every step of the child grid of the next subquery, if an @ subquery has a parent grid of one step |
| TimeBounds.BoundsCoverUses | upstream/promql/engine.go:955-1057 | every storage time that the value at a step can depend on lies within the returned bounds, through lookback, ranges, anchored or smoothed windows and nested subqueries with offsets and @, where stored offsets are settled |
| TimeBounds.BoundsCoverUsesIff | upstream/promql/engine.go:955-1057 | for every expression, what the steps of a query depend on lies within the bounds iff every selector, with the offsets and @ times on its path, fits at every step seen from above |
| TimeBounds.AllReadsWithinIff | upstream/promql/engine.go:955-1057 | for every expression, all reads lie within the bounds iff every selector fits at its first and its last step |
| TimeBounds.BoundsCoverAllReadsIff | upstream/promql/engine.go:955-1057 | for every expression, all reads of all evaluators lie within the bounds iff the first and the last read do |
| TimeBounds.SettledReadsIff | upstream/promql/engine.go:955-1057 | where stored offsets are settled, all reads lie within the bounds iff the last one does |
| TimeBounds.PinnedSubqueryIff | upstream/promql/engine.go:1982-2004 | for an @ subquery over a selector of its own time: iff no step of its child grid comes after the @ timestamp less the offset |
| TimeBounds.BoundsCoverAllReads | upstream/promql/engine.go:955-1057 | every storage time that evaluation looks at lies within the bounds if offsets are settled and every @ subquery runs on a grid of one step |
| TimeBounds.PinnedSubqueryReadsPastBounds | upstream/promql/engine.go:1982-2004 | an input that is read past the bounds: predict_linear(foo[100ms:10ms] @ 0.5, 10) from 0 to 1 s |
| TimeBounds.DriftedSelectorReadsPastBounds | upstream/promql/engine.go:2037-2042 | an input: (foo @ 5)[8:10] offset 2, from 10 to 20 in steps of 5 |
| TimeBounds.MovingSelectorReadsPastBounds | upstream/promql/engine.go:1904-1912 | an input: an @ selector evaluated over two steps |
| TimeBounds.StampReadsPastBounds | upstream/promql/engine.go:2729-2734 | an input: timestamp(foo @ 7 offset 3) |
| TimeLaws.BoundsOfSelector | upstream/promql/engine.go:927-1057 | the bounds of a selector under any number of subqueries are, in the numbers of the query: start and end moved by offsets and ranges from the innermost @ on, less lookback or range, with one millisecond fewer at the lower end, and the margins of anchored and smoothed |
| TimeLaws.BoundsOfParts | upstream/promql/engine.go:955-1002 | an expression reaches from the least to the greatest bound of its parts, and (0, 0) stands for nothing selected |
| TimeLaws.LowestIsRead | upstream/promql/engine.go:1004-1057 | the lower bound is not too low: the earliest time within the bounds of a selector is read at the first step |
| TimeLaws.HighestIsRead | upstream/promql/engine.go:1004-1057 | the upper bound is not too high: the latest time is read at the last step |
| TimeLaws.SubqueryUsesIff | upstream/promql/engine.go:2012-2046 | a step depends through a subquery on what its expression depends on at the child steps of its window |
| Series.CursorStep | upstream/promql/engine.go:4420-4432 | a cursor that has consumed everything up to the previous step yields the value of its series at this step and has then consumed everything up to it |
| Series.ValueAtIff | upstream/promql/engine.go:4420-4432 | a series has a value at a time iff that value is stored for that time among the points of its kind |
| RangeEval.GatherVector | upstream/promql/engine.go:4910-4942 | gathering yields the column of the input at the step and advances every cursor past it |
| RangeEval.AddSample | upstream/promql/engine.go:1596-1610 | one sample is refused iff its label set was seen at this step, and otherwise extends exactly the series of its labels |
| RangeEval.AddStep | upstream/promql/engine.go:1596-1610 | adding a step's result fails iff two of its samples have the same label set, and otherwise extends exactly the series of its samples by that step |
| RangeEval.RangeEval | upstream/promql/engine.go:1541-1628 | the result is the pointwise family of the instant results, and evaluation fails iff some step has a repeated label set |
| RangeEval.InstantPointwise | upstream/promql/engine.go:1578-1594 | the shortcut for a single step is pointwise as well |
| Aggregation.AggregateRange | upstream/promql/engine.go:3678-4041 | for any accumulator, the result at every step is one sample for each group that has something to report, made from the column at that step in order and with the step's parameter, whatever the accumulators held before; groups without points leave no series |
| Heap.Up | upstream/promql/functions.go:2786-2816 | sifting up restores the heap and permutes it, although the comparison is not a strict order on NaN |
| Heap.FixRoot | upstream/promql/engine.go:4156-4161 | sifting a replaced root down restores the heap and permutes it |
| Heap.Push | upstream/promql/functions.go:2804-2806 | pushing keeps the heap and adds exactly the new sample |
| Heap.RootIsWorst | upstream/promql/functions.go:2786-2844 | the root of a heap ranks no better than any element, NaN ranking worst |
| Heap.BestAfterReplace | upstream/promql/engine.go:4156-4161 | replacing the root by a better sample keeps the k best: nothing left out ranks strictly better than something kept |
| Heap.BestAfterDiscard | upstream/promql/engine.go:4148-4162 | a sample that ranks no better than the root of a full heap may be left out |
| Heap.Offer | upstream/promql/engine.go:4145-4178 | a heap of the k best of some samples becomes a heap of the k best of these and one more |
| AggregationK.OfferToGroup | upstream/promql/engine.go:4101-4196 | offering a sample keeps the choice of its group right for topk, bottomk and limitk |
| AggregationK.InGroup | upstream/promql/engine.go:4101-4145 | the samples of a group are those of its series that have a value at the step, floats only for topk and bottomk |
| AggregationK.ChosenMeans | upstream/promql/engine.go:4145-4196 | k samples or all; topk leaves out no number for a smaller one or NaN, bottomk none for a greater one or NaN, and limitk keeps the first |
| AggregationK.StopEarly | upstream/promql/engine.go:4184-4196 | once every group of limitk is complete, series not yet read cannot change the choice |
| AggregationK.AdvanceRemaining | upstream/promql/engine.go:4057-4064 | after an early exit the cursors that were not read are advanced past the step |
| AggregationK.Step | upstream/promql/engine.go:4049-4206 | a step leaves every group with its chosen samples and every cursor past the step, early exit or not |
| AggregationK.RangeEvalAgg | upstream/promql/engine.go:1714-1735 | at every step of a range query each group holds the choice made from the input columns at that time |
| AggregationK.AggregateRange | upstream/promql/engine.go:4207-4268 | the column of the result at each step consists of exactly the samples chosen by the groups at that step, and no two series of the result have the same labels |
| RangeEval.Assemble | upstream/promql/engine.go:1596-1625 | series put together step by step have each step's result as their column |
| MatrixWindow.FreshHolds | upstream/promql/engine.go:2360-2380 | the fresh window holds a point iff a stored sample of its kind, not stale, has that time and value and mint < t <= maxt |
| MatrixWindow.DropIsSplit | upstream/promql/engine.go:2981-2997 | dropping the points at or before mint leaves exactly the points of the samples after mint |
| MatrixWindow.RetainedPart | upstream/promql/engine.go:2981-3051 | after dropping, every sample of the kind up to the last retained point is in the window and every other sample is later than that point |
| MatrixWindow.Window.Rotate | upstream/promql/engine.go:3024-3030 | rotating keeps the retained points, keeps every histogram object, and no two slots share one |
| MatrixWindow.RotationKeepsDistinct | upstream/promql/engine.go:3024-3030 | rotation never makes two slots share a histogram object |
| MatrixWindow.Window.Fill | upstream/promql/engine.go:3077-3083 | filling a slot, reused, empty or newly grown, appends one point and alters no other point |
| MatrixWindow.Window.Append | upstream/promql/engine.go:3072-3120 | a sample is added unless it is stale, samples held outside the window stay the same, and the sample limit is enforced |
| MatrixWindow.BufferedSeriesIterator.Seek | upstream/storage/buffer.go:85-112 | after seeking t the iterator is at the first sample at or after t, and everything dropped from the buffer is older than t - delta |
| MatrixWindow.BufferedSeriesIterator.ReduceDelta | upstream/storage/buffer.go:748-785 | reducing the delta drops only samples older than the new delta |
| MatrixWindow.MatrixIterSlice | upstream/promql/engine.go:2974-3171 | the reused window becomes exactly the window of (mint, maxt]; currentSamples minus the window's size stays constant; failure means that the window would exceed the limit |
| MatrixWindow.StillBuffered | upstream/promql/engine.go:2271-2279 | with the buffer reduced to the smaller of window and interval, every sample not yet in the window is still buffered at the next step |
| MatrixWindow.FreshIsWindow | upstream/promql/engine.go:2369-2380 | in the numbers of the query: the window at ts has exactly the non-stale samples with ts - offset - range < t <= ts - offset, in order and by kind; anchored ranges reach back by the lookback, smoothed ones both ways |
| MatrixWindow.ReuseWindow | upstream/promql/engine.go:2367-2431 | over all steps of a query the incremental window equals the fresh one |
| MatrixWindow.SeriesWindows | upstream/promql/engine.go:2367-2431 | at every step, plain, anchored, smoothed or pinned by @, the functions over ranges get exactly the samples of the interval that the query describes, until one such window exceeds the sample limit |
| Joins.NumberBothSides | upstream/promql/engine.go:1521-1539 | ordinals are equal iff signatures are, within and across the two sides |
| Joins.GatherWithOrdinals | upstream/promql/engine.go:4910-4942 | the loop yields the column of the input, the ordinals that belong to its samples, and every cursor moved past the step |
| Joins.GatheredAligned | upstream/promql/engine.go:4910-4942 | at every step the gathered ordinals belong to the gathered samples |
| Joins.JoinRange | upstream/promql/engine.go:1497-1628 | over all steps of a grid, with both sides numbered once and one helper reused, every step's result is the And, Or, Unless or one-to-one join of the two columns at that step, described by signatures and the operation alone, and evaluation stops at the first step whose join fails |
| Joins.AndUnlessPartition | upstream/promql/engine.go:3173-3247 | And and Unless partition the left side, each in order |
| Joins.EvalNodeHelper.VectorAnd | upstream/promql/engine.go:3173-3194 | with arrays left over from earlier steps, the result is the left samples whose signature occurs on the right |
| Joins.EvalNodeHelper.VectorOr | upstream/promql/engine.go:3196-3221 | the result is the left side followed by the right samples whose signature does not occur on the left |
| Joins.EvalNodeHelper.VectorUnless | upstream/promql/engine.go:3223-3247 | the result is the left samples whose signature does not occur on the right |
| Joins.EvalNodeHelper.IndexRight | upstream/promql/engine.go:3266-3292 | indexing the right side fails iff two of its samples share a signature |
| Joins.EvalNodeHelper.VectorBinop | upstream/promql/engine.go:3249-3417 | a one-to-one join fails iff two right samples share a signature or two participating left samples do, and otherwise has exactly one sample for each pair that contributes, in left order: 1 or 0 with bool, the value of a kept pair without, and the labels of both |
| Joins.PairsAreMatches | upstream/promql/engine.go:3312-3400 | a sample is in the result iff some matching pair contributes it |
| Joins.PairsJoin | upstream/promql/engine.go:3312-3400 | the result has one sample for each left sample with a partner that contributes, in order: labels of both, with bool 1 or 0 as the operation keeps the pair, without bool its value if it does, and none on an error |
| Joins.JoinedIsJoin | upstream/promql/engine.go:3173-3417 | every kind of join in terms of signatures and the operation: which samples of which side, in which order, with which value |
| CounterIncrease.CorrectForCounterResets | upstream/promql/functions.go:165-178 | the loop adds up the value lost at every reset between the two boundary values |
| CounterIncrease.CorrectedDifference | upstream/promql/functions.go:165-178 | difference plus correction is the sum of the rises, where a rise after a reset counts from zero |
| CounterIncrease.ExtendedIncrease | upstream/promql/functions.go:309-357 | inside the sampled time of a non-negative counter the smoothed result is the difference of its cumulative increase at the two ends; otherwise the picked or interpolated boundary values and the correction loop, with every index in bounds |
| CounterIncrease.IncreaseIsDifference | upstream/promql/functions.go:72-101 | the smoothed increase over (a, b] is the difference of one cumulative function of time, whatever resets fall inside, at or across the boundaries |
| CounterIncrease.IncreaseIsAdditive | upstream/promql/functions.go:309-357 | increases over adjacent ranges add up |
| IncreaseLaws.SmoothedCounter | upstream/promql/functions.go:309-357 | also where the range goes beyond the samples: the increase of the cumulative function over the overlap of the two |
| IncreaseLaws.SmoothedCovers | upstream/promql/functions.go:322-332 | nothing iff all samples are at or before the start or all are after the end |
| IncreaseLaws.SmoothedGauge | upstream/promql/functions.go:72-101 | without counter resets: the difference of the values, on the lines between neighbouring samples, at the ends of the overlap |
| IncreaseLaws.Anchored | upstream/promql/functions.go:309-357 | an anchored increase counts from the last sample at or before the start, or the first sample, to the last: the difference for a gauge, the sum of rises for a counter |
| Extrapolation.RawIncrease | upstream/promql/functions.go:508-534 | the raw increase is the sum over neighbouring samples of the step up, or of the new value after a reset |
| Extrapolation.ExtrapolatedRate | upstream/promql/functions.go:540-632 | nothing for fewer than two samples; otherwise the rate or increase over a span between the sampled span and the range, a counter not taken below zero at its assumed start, and its increase at least the raw one |
| Extrapolation.SpanBounds | upstream/promql/functions.go:540-632 | the extrapolated span is at least the sampled span and at most the range |
| Extrapolation.StartNotNegative | upstream/promql/functions.go:560-600 | a non-negative counter extrapolated back to the assumed start of its series is not negative |
| Extrapolation.IncreaseAtLeastRaw | upstream/promql/functions.go:600-632 | the increase is at least the raw increase, which is not negative |
| IncreaseLaws.ExtrapolationIs | upstream/promql/functions.go:540-600 | in terms of the samples: up to a boundary closer than 1.1 average distances, otherwise half a distance, and for a counter not beyond where its line reaches zero |
| IncreaseLaws.RateIs | upstream/promql/functions.go:600-632 | the increase scales the raw one from the sampled to the extrapolated span, and the rate is the increase per second of the range |
| Quantile.CoalesceBuckets | upstream/promql/quantile.go:620-634 | merging neighbours in place gives the merged list; writing never overtakes reading |
| Quantile.CoalescedTotals | upstream/promql/quantile.go:620-634 | merging keeps the total per bound and the set of bounds |
| Quantile.CoalescedStrict | upstream/promql/quantile.go:620-634 | bounds of merged sorted buckets ascend strictly |
| Quantile.SortIrrelevant | upstream/promql/quantile.go:121-136 | how the sort orders equal bounds does not matter after merging |
| Quantile.EnsureMonotonicAndIgnoreSmallDeltas | upstream/promql/quantile.go:668-708 | the counts are corrected in place, and a flag is set iff something changed |
| Quantile.MonotonicAscends | upstream/promql/quantile.go:668-708 | corrected counts ascend |
| Quantile.MonotonicIdempotent | upstream/promql/quantile.go:668-708 | correcting twice is correcting once, whatever counts as a small difference |
| Quantile.MonotonicUnchangedIff | upstream/promql/quantile.go:668-708 | nothing is corrected iff every count equals the one before or exceeds it by more than a small difference |
| Quantile.BucketQuantile | upstream/promql/quantile.go:105-170 | the special cases of q, the missing +Inf bucket, and the quantile of the prepared buckets |
| Quantile.QuantileMonotone | upstream/promql/quantile.go:139-170 | larger q in (0, 1] never gives a smaller quantile |
| Quantile.BucketQuantileMonotone | upstream/promql/quantile.go:105-170 | the same from the raw buckets on: in any order, with repeated bounds and with counts that go down |
| Quantile.BucketFraction | upstream/promql/quantile.go:520-618 | one fused pass over the merged buckets finds the ranks that a separate search for each bound would find |
| Quantile.FractionOfQuantile | upstream/promql/quantile.go:520-618 | the fraction of observations up to an interpolated quantile q is q |
| Quantile.FractionUndoesQuantile | upstream/promql/quantile.go:105-618 | for raw buckets whose counts need no correction, BucketFraction(-Inf, BucketQuantile(q)) is q |
| Quantile.FractionUndoesTolerantQuantile | upstream/promql/quantile.go:105-618 | the same with the tolerance of the code, for merged counts that are equal or apart by more than it |
| QuantileLaws.QuantileIs | upstream/promql/quantile.go:139-170 | NaN without observations or with +Inf alone; a rank in the +Inf bucket gives the bound below it, in a first bucket at or below zero its bound; otherwise the value divides its bucket as the rank divides the counts |
| QuantileLaws.FractionUpTo | upstream/promql/quantile.go:544-615 | the observations up to a value, for counts that need not ascend: none below positive buckets, all of a first bucket at or below zero, none of the +Inf bucket, otherwise in proportion, and never more than all |
| QuantileLaws.FractionBetween | upstream/promql/quantile.go:537-615 | the fraction between two values is the difference of the fractions up to them, 1 in all, and 0 for values that are not in order |
| QuantileLaws.ToleranceIs | upstream/promql/quantile.go:45 | positive counts count as equal iff they are apart by less than 1e-12 of their sum |
| Wire.ReadEncoded | upstream/prompb/types.pb.go:2028-2038 | a 64-bit varint reads back, whatever follows it |
| Wire.SovIsLength | upstream/prompb/types.pb.go:2413-2415 | the size computed from the bit length is the number of bytes of the varint |
| Wire.ZigZagValue | upstream/prompb/types.pb.go:2416-2418 | zigzag in two's complement maps x to 2x or -2x-1 and is undone by its inverse |
| Wire.ZigZagWidths | upstream/prompb/types.pb.go:1618-1640 | zigzag in 32 bits when writing and in 64 bits when sizing take the same number of bytes |
| Wire.ReadFixedEncoded | upstream/prompb/types.pb.go:1308-1330 | eight little-endian bytes read back |
| Wire.ReadFieldEncoded | upstream/prompb/types.pb.go:2781-3360 | a known field of any kind, packed fields included, reads back with its exact length |
| Wire.ParseEncoded | upstream/prompb/types.pb.go:2781-3360 | parsing the encoding of known fields gives these fields followed by what the rest parses to |
| Wire.UnknownBytes | upstream/prompb/types.pb.go:3339-3352 | bytes that parse as unknown fields only are kept exactly |
| UnknownFields.SkipIff | upstream/prompb/types.pb.go:4445-4523 | skipping ends after n bytes iff these are one whole field, whatever follows: a tag with a varint, eight bytes, a length and as many bytes, four bytes, or a group of whole fields with an end tag, to any depth |
| UnknownFields.UnknownIsRead | upstream/prompb/types.pb.go:3339-3352 | a whole field with a positive number that the message does not have is taken with exactly its bytes |
| UnknownFields.ParseMixed | upstream/prompb/types.pb.go:2781-3360 | known and unknown fields in any order are parsed to themselves, followed by what the rest parses to |
| WireFormat.WrongField | upstream/prompb/types.pb.go:2785-3355 | a known number with another wire type, a number that is not positive and an end of a group are errors, for every kind of message |
| WireFormat.VarintSpells | upstream/prompb/types.pb.go:2028-2038 | the bytes of a varint are its value in groups of seven bits with a continuation bit on all but the last, and there are no more than needed |
| WireFormat.FixedSpells | upstream/prompb/types.pb.go:1308-1330 | the eight bytes of a fixed value weighted by powers of 256 add up to it |
| Messages.UnmarshalEncoded | upstream/prompb/types.pb.go:2781-3360 | known fields followed by unknown ones load the message they came from, and the unknown bytes |
| Messages.UnknownComesBackIff | upstream/prompb/types.pb.go:3339-3352 | unknown bytes come back iff the message takes them as unknown fields |
| Messages.KnownBytesDoNotComeBack | upstream/prompb/types.pb.go:3700-3753 | bytes that do not: the field of a one-byte name among the unknown bytes of a label |
| UnknownFields.UnmarshalMixed | upstream/prompb/types.pb.go:2781-3360 | unknown fields may stand anywhere: the known ones load the message, and the unknown ones are kept one after the other |
| UnknownFields.UnknownFirst | upstream/prompb/types.pb.go:3735-3748 | an unknown field before any other bytes is kept, and they are read as without it |
| UnknownFields.LabelMixed | upstream/prompb/types.pb.go:3639-3753 | a label with unknown fields anywhere reads back |
| UnknownFields.RequestMixed | upstream/prompb/remote.pb.go:913-1031 | a write request with unknown fields anywhere among its series and metadata reads back |
| FieldOrder.OrderIrrelevant | upstream/prompb/types.pb.go:2781-3360 | neighbouring fields that commute are read alike in both orders, anywhere in a message and among unknown fields |
| FieldOrder.LastOneCounts | upstream/prompb/types.pb.go:2781-3360 | of two values for a field that is not repeated the later one counts, anywhere in a message |
| FieldOrder.LabelFieldsInAnyOrder | upstream/prompb/types.pb.go:3639-3753 | both for the fields of a label |
| FieldOrder.HistogramFieldsInAnyOrder | upstream/prompb/types.pb.go:2781-3360 | both for all sixteen fields of a histogram, where an integer and a float count are alternatives |
| FieldOrder.SeriesOrder | upstream/prompb/types.pb.go:3452-3638 | the repeated fields of a time series may be interleaved in any way |
| FieldOrder.MetadataOrder | upstream/prompb/types.pb.go:2419-2584 | the fields of metadata commute, and the later of two values replaces the other |
| UnknownFields.StringFieldKept | upstream/prompb/types.pb.go:3735-3748 | six bytes: an unknown string field 3 and then the name of a label |
| Messages.LabelRoundTrip | upstream/prompb/types.pb.go:3639-3753 | a label reads back |
| Messages.SampleRoundTrip | upstream/prompb/types.pb.go:2585-2665 | a sample reads back, NaN payload included, up to the sign of zero |
| Messages.ExemplarRoundTrip | upstream/prompb/types.pb.go:2666-2780 | an exemplar reads back up to the sign of zero |
| Messages.SpanRoundTrip | upstream/prompb/types.pb.go:3361-3451 | a bucket span reads back |
| Messages.HistogramRoundTrip | upstream/prompb/types.pb.go:2781-3360 | a histogram with its oneofs, packed deltas and counts, spans, custom values and unknown fields reads back up to the sign of zero |
| Messages.SeriesRoundTrip | upstream/prompb/types.pb.go:3452-3638 | a time series reads back up to the sign of zero |
| Messages.MetadataRoundTrip | upstream/prompb/types.pb.go:2419-2584 | metric metadata reads back, negative enum values included |
| Messages.RequestRoundTrip | upstream/prompb/remote.pb.go:913-1031 | a write request reads back up to the sign of zero |
| WireFormat.LabelBytes | upstream/prompb/types.pb.go:1738-1765 | the bytes of a label: tags 0a and 12, and empty strings left out |
| WireFormat.SampleBytes | upstream/prompb/types.pb.go:1308-1329 | tags 09 and 10, the value in eight bytes unless zero, the timestamp in two's complement |
| WireFormat.ExemplarBytes | upstream/prompb/types.pb.go:1346-1380 | tags 0a, 11 and 18 |
| WireFormat.SpanBytes | upstream/prompb/types.pb.go:1618-1639 | tags 08 and 10, the offset as 2x or -2x-1 |
| WireFormat.HistogramBytes | upstream/prompb/types.pb.go:1398-1551 | all sixteen tags, the last in two bytes; lists of numbers packed |
| WireFormat.SeriesBytes | upstream/prompb/types.pb.go:1655-1725 | tags 0a, 12, 1a and 22, one length-delimited field per element |
| WireFormat.MetadataBytes | upstream/prompb/types.pb.go:1255-1292 | tags 08, 12, 22 and 2a |
| WireFormat.RequestBytes | upstream/prompb/remote.pb.go:472-510 | tags 0a and 1a |
| WireFormat.OneByOne | upstream/prompb/types.pb.go:2949-3355 | the five lists of numbers of a histogram are also read when each number is a field of its own |
| Codec.EncodeVarint | upstream/prompb/types.pb.go:2028-2038 | the varint is written so that it ends at the offset, and what follows is untouched |
| Codec.MarshalLabel | upstream/prompb/types.pb.go:1738-1765 | writes exactly the encoding of the label before the old index |
| Codec.MarshalSample | upstream/prompb/types.pb.go:1308-1329 | writes exactly the encoding of the sample |
| Codec.MarshalExemplar | upstream/prompb/types.pb.go:1346-1380 | writes exactly the encoding of the exemplar, nested labels in place |
| Codec.EncodeZigs | upstream/prompb/types.pb.go:1439-1453 | the separate forward buffer holds the zigzag varints of all deltas |
| Codec.MarshalSpan | upstream/prompb/types.pb.go:1618-1639 | writes exactly the encoding of the span |
| Codec.MarshalHistogram | upstream/prompb/types.pb.go:1398-1551 | writes exactly the encoding of the histogram, field 16 with its two-byte tag included |
| Codec.MarshalSeries | upstream/prompb/types.pb.go:1655-1725 | writes exactly the encoding of the series |
| Codec.MarshalMetadata | upstream/prompb/types.pb.go:1255-1292 | writes exactly the encoding of the metadata |
| Codec.MarshalRequest | upstream/prompb/remote.pb.go:472-510 | writes exactly the encoding of the request |
| Codec.HistogramSize | upstream/prompb/types.pb.go:2108-2174 | Size of a histogram is the length of its encoding |
| Codec.SeriesSize | upstream/prompb/types.pb.go:2230-2264 | Size of a series is the length of its encoding |
| Codec.RequestSize | upstream/prompb/remote.pb.go:773-795 | Size of a request is the length of its encoding |
| Codec.Marshal | upstream/prompb/remote.pb.go:457-465 | marshalling allocates Size bytes and fills all of them with the encoding |
| Codec.Transfer | upstream/prompb/remote.pb.go:457-1031 | marshalling a request and parsing the buffer returns the request up to the sign of zero |
| Parser.DecodeVarint | upstream/prompb/types.pb.go:2425-2439 | the shifting loop reads the varint of the specification, with its limit of ten groups and its truncation to 64 bits |
| Parser.SkipField | upstream/prompb/types.pb.go:4445-4523 | the loop with its depth counter ends after n bytes iff these are one whole field, groups included |
| Parser.DecodeVarints | upstream/prompb/types.pb.go:3005-3023 | the loop over packed varints reads what the specification says, also where the last element passes the given length |
| Parser.DecodeFixeds | upstream/prompb/types.pb.go:3068-3077 | the same for packed 64-bit values |
| Parser.DecodeField | upstream/prompb/types.pb.go:2785-3355 | tag, wire type and field number are checked, and one field is read or skipped |
| Parser.UnmarshalMessage | upstream/prompb/types.pb.go:2781-3360 | the loop over all fields computes the message that the list of parsed fields stands for, for every kind of message |
| Alerts.EntryFaithful | upstream/rules/alerting.go:468-543 | after every evaluation an active entry has the start of its activity episode as ActiveAt and the start of the current absence as KeepFiringSince |
| Alerts.Lifecycle | upstream/rules/alerting.go:468-543 | an alert is firing iff its episode has lasted for the hold duration, pending iff it is present for less, and has ResolvedAt set iff it is inactive |
| Alerts.KeptIffSurvives | upstream/rules/alerting.go:485-499 | the code keeps an absent alert firing iff its episode survives the absence |
| Alerts.AlertingRule.Sweep | upstream/rules/alerting.go:482-533 | the loop over all entries applies the step of each instance on its own, and counts the pending and firing ones |
| Alerts.AlertingRule.Eval | upstream/rules/alerting.go:387-543 | every instance goes through its own step; a failed query or a repeated label set changes nothing; exceeding the limit forgets all instances |
| Alerts.AlertingRule.SendAlerts | upstream/rules/alerting.go:618-633 | notified are exactly the instances that are not pending and are resolved since the last sending or were last sent more than the resend delay ago; they are marked with the time and four intervals of validity, and nothing else changes |
| Alerts.AlertingRule.EvalAndSend | upstream/rules/group.go:538-559 | alerts are sent after a successful evaluation and only then |
| Alerts.AlertingRule.EvaluateAll | upstream/rules/group.go:538-559 | after any number of evaluations each instance has exactly the entry that its own history gives it |
| Alerts.SendingInvariant | upstream/rules/alerting.go:618-633 | ValidUntil always belongs to the last sending, and a pending alert has never been sent |
| Alerts.FiringStaysValid | upstream/rules/alerting.go:618-633 | after every evaluation a firing alert was sent within the resend delay and stays valid for three more intervals |
| Alerts.SentBeforeLapse | upstream/rules/alerting.go:102-113 | with at most two failed evaluations in between, the next sending comes before the alert lapses |
| Alerts.FiringEnds | upstream/rules/alerting.go:513-516 | a firing alert goes on firing or becomes inactive, and then it is sent at that same evaluation |
| Alerts.PendingNeverSent | upstream/rules/alerting.go:102-105 | a pending alert is not sent and has not been sent before |
| AlertRuns.SentIff | upstream/rules/alerting.go:102-113 | over every run, in times alone: an instance is sent at an evaluation iff it is not pending, and it is resolved there or was not sent within the resend delay since it became active |
| AlertRuns.NotResentEarly | upstream/rules/alerting.go:102-113 | an instance that was sent while active is not sent again before the resend delay has passed, unless it is resolved |
| AlertRuns.ResolutionNotResentEarly | upstream/rules/alerting.go:102-113 | a resolution that was sent is not sent again before the resend delay has passed |
| AlertRuns.FiredWhenServed | upstream/rules/alerting.go:526-529 | FiredAt of a firing alert is the first evaluation at which its hold time was served |
| AlertRuns.ResolvedForgotten | upstream/rules/alerting.go:510-512 | a resolved instance is forgotten at the first evaluation more than fifteen minutes after it was resolved, and stays as it is until then |
| Alerts.RestoredFiringTime | upstream/rules/group.go:848-881 | in all three cases the restored active time makes the alert due at ts + left |
| Alerts.RestoreThenEvaluate | upstream/rules/group.go:848-881 | a restored alert that goes on being found is firing at exactly the evaluations at or after ts + left |
| Alerts.RestoreFromStorage | upstream/rules/group.go:800-881 | the same for what the storage returns, whose last point is not after the restore |
| AlertRuns.CutTowardsZero | upstream/rules/group.go:848-849 | stored seconds and milliseconds are cut to whole seconds towards zero |
| Alerts.AlertingRule.RestoreForState | upstream/rules/group.go:780-886 | every entry with a stored, non-stale point gets its restored active time and no other changes |
| Discovery.ReplayHasLatest | upstream/discovery/manager.go:468-488 | the latest mention of a source decides its group, and an empty mention removes it |
| Discovery.UpdateGroup | upstream/discovery/manager.go:468-488 | the loop over the groups of an update computes the updated groups, nil groups skipped |
| Discovery.KeepCatchesUp | upstream/discovery/manager.go:275-310 | copying the reference targets leaves every old and new subscriber with the replay of all updates |
| Discovery.CatchUp | upstream/discovery/manager.go:383-411 | whenever the updater of a live provider is not in the middle of a broadcast, every subscriber holds the replay of all updates since the provider started |
| Discovery.NoOrphans | upstream/discovery/manager.go:234-335 | when no reload is under way the live providers are exactly those with subscribers in the configuration, with exactly these subscribers, and no targets are held for anyone else |
| Discovery.NothingUnsentAtRest | upstream/discovery/manager.go:413-524 | in a state at rest the snapshot delivered last, which was read provider by provider while updates went on, holds for every subscriber of every provider exactly the targets held now |
| DiscoveryRuns.HoldsAllUpdates | upstream/discovery/manager.go:383-411 | a subscriber of a live provider whose updater is idle holds what all updates that the discoverer sent in the run amount to |
| DiscoveryRuns.HoldsLatestGroup | upstream/discovery/manager.go:468-488 | for every source the group sent last, unless it had no targets |
| DiscoveryRuns.LiveAsAsked | upstream/discovery/manager.go:234-335 | between reloads the live providers and their subscribers are those of the last configuration in the run |
| DiscoveryProgress.SomethingProgresses | upstream/discovery/manager.go:234-524 | in every reachable state that is not at rest some event of the manager itself is possible and leaves less to do: no deadlock between reload, updaters and sender |
| DiscoveryProgress.ComesToRest | upstream/discovery/manager.go:234-524 | from every reachable state finitely many events of the manager itself lead to rest |
| DiscoveryProgress.EverythingArrives | upstream/discovery/manager.go:383-524 | after any run such events bring the consumer, for every subscriber of every live provider, what all updates amount to |
| Discovery.RegisterProviders | upstream/discovery/manager.go:526-574 | a target set is subscribed to exactly the configurations that exist or can be created, or to the empty one, and configurations stay distinct |
| SendLoop.SendLoop.Add | upstream/notifier/sendloop.go:75-113 | an add leaves the newest capacity-many alerts in order, raises a wake-up, and counts all others as dropped |
| SendLoop.SendLoop.SendOneBatch | upstream/notifier/sendloop.go:158-182 | takes the oldest alerts up to the batch size, and counts all of them as sent if they are delivered and as dropped if not |
| SendLoop.SendLoop.DrainQueue | upstream/notifier/sendloop.go:146-182 | draining empties the queue; the alerts of delivered batches count as sent and all others as dropped |
| SendLoop.StepConserves | upstream/notifier/sendloop.go:75-207 | every event keeps the queue bounded and every accepted alert in exactly one of queue, batches in flight, sent and dropped |
| SendLoop.StepSettles | upstream/notifier/sendloop.go:75-182 | an alert comes to count as sent exactly when a batch with it is delivered, and as dropped exactly when one fails or capacity-many newer alerts are queued |
| SendLoop.TakesOldest | upstream/notifier/sendloop.go:158-174 | a batch has the oldest queued alerts, as many as allowed or all |
| SendLoop.StepAwake | upstream/notifier/sendloop.go:105-122 | every event keeps a wake-up pending, or a thread committed to raising one, while alerts are queued |
| SendLoop.Safety | upstream/notifier/sendloop.go:75-207 | both hold over every interleaving of adders, consumer and drainer |
| SendLoop.SafetyFromStart | upstream/notifier/sendloop.go:48-73 | and in particular from a new send loop on |
| SendLoop.ConsumerEmpties | upstream/notifier/sendloop.go:186-207 | from every reachable state of a running loop the consumer can empty the queue in a bounded number of events |
| SendLoop.StopStrandsIff | upstream/notifier/sendloop.go:124-150 | stopping can leave alerts in the queue iff an add that carries alerts is past its check at that time and the capacity is positive |
| SendLoop.StrandedAlert | upstream/notifier/sendloop.go:75-150 | a run of four events from a new loop that leaves an alert in the queue with the drainer finished |
| SendLoop.AllSettled | upstream/notifier/sendloop.go:176-182 | with an empty queue and nothing in flight every accepted alert was either sent or dropped, not both |

## Left out

- RangeEval.RangeEval: the sample limit, delayed name removal and the order of the output series are not modelled; a result is compared per step as a set of labelled samples.
- Aggregation.AggregateRange: the accumulator of each operator is a parameter; native histograms and count_values are not modelled.
- AggregationK.AggregateRange: the order in which the chosen samples of a step are listed, and limit_ratio, are not modelled.
- StepInvariant.RewritePreservesMeaning: expressions are values and are rebuilt rather than rewritten in place; info(), start_timestamp() and the folding of query context functions are not modelled.
- MatrixWindow.SeriesWindows: start timestamps and sample statistics are not modelled; the ring buffer of the iterator is an index range of the series.
- Joins.JoinRange: the matrix assembled from the results of the steps is RangeEval.Assemble's; query limits are not modelled.
- Joins.EvalNodeHelper.VectorBinop: float samples and one-to-one matching without fill values; many-to-one joins, native histograms and result metrics are not modelled beyond a function of the pair.
- CounterIncrease.IncreaseIsAdditive: exact arithmetic on reals; rounding, and the histogram variants, are not modelled.
- Extrapolation.SpanBounds: no start timestamps; the histogram path is not modelled.
- Quantile.BucketQuantile: bounds below +Inf are finite, counts are real and non-negative; the details that the annotation of a forced correction reports are not modelled.
- Alerts.AlertingRule.Eval: templates, labels, annotations and the samples written for an alert are not modelled; an alert is a value in the map, not a shared object.
- Alerts.AlertingRule.RestoreForState: the storage query is a map from instance to stored points.
- Discovery.NoOrphans: shutdown of the manager and custom providers are not modelled.
- Discovery.RegisterProviders: whether a discoverer can be created depends on its configuration only.
- SendLoop.Safety: stopping without draining, and metrics other than the counts of sent and dropped alerts, are not modelled.
- Messages.RequestRoundTrip: query and read messages, chunks and label matchers have the same shape and are not modelled.
- Native histogram arithmetic, kahan summation, label builders and matchers, info(), label_replace and label_join, annotations, tracing, HTTP sending, JSON payloads, configuration files, service discovery mechanisms and the web interface.
- The repository's own overlay of validation scripts: checks of files and constants.

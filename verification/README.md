# nrdot-collector-components in Dafny

This project models six parts of the repository and proves what they promise. Code that works in place is modelled in
place: bucket slices, data points, tracked entities, the processor, the configuration and the load generator's counters
are classes, and their loops are loops, proved against functions. What the source promises is then proved about those
functions.

1. **Aggregating OTLP data points** (`MachineInts`, `Grouping`, `Sorting`, `Numbers`, `NumberLaws`, `Histogram`,
   `ExpBuckets`, `ExpBucketLaws`, `ExpHistogram`, `HistogramLaws`). Points are grouped by key and each group is folded into one point. An
   exponential-histogram bucket array is a map from bucket index to count; merging two arrays is meant to add the maps.
   `MergeExactness` says for every pair of arrays, with 64-bit counters and 32-bit offsets, exactly when the code does so.
2. **The adaptive telemetry processor** (`AdaptiveConfig`, `AdaptiveModel`, `AdaptiveEntities`, `AdaptiveProcessor`,
   `AdaptiveBatches`, `AdaptiveDelivery`, `AdaptiveAnomaly`, `AdaptiveDecisions`, `AdaptiveCleanup`,
   `AdaptiveVisibility`, `AdaptiveMaxima`, `DynamicThresholds`). `AdaptiveModel` is a state machine whose steps evaluate a resource, sweep expired entities or
   change the dynamic thresholds. The class `Processor` in `AdaptiveProcessor` does the work of the Go object on heap
   objects, and each batch is proved to be a run of that machine. Whole-run theorems are stated about the machine.
3. **The quote-aware splitter** (`SplitStrings`, `SplitRoundTrip`, `SplitQuotes`).
4. **Licence headers** (`LicenseText`, `LicenseHeader`, `LicenseLaws`, `LicenseFixpoint`, `LicenseTemplates`,
   `LicenseVerdicts`, `LicenseBlocks`). Parsing,
   replacing and checking over lines, as text in and text out. The laws hold for any way of reading lines
   (`LicenseHeader.Reader`); `LicenseTemplates` is the one the tool uses.
5. **The load generator** (`LoadGenerator`): interleaved workers over shared counters.
6. **Retrying logs** (`LogRetry`).

Times are integers (nanoseconds), 0 being Go's zero time; `float64` values are reals; 64-bit and 32-bit integers keep
their width wherever the code computes with them.

## Where the code does not do what it promises

Each point is a lemma with the exact condition, or with an input that shows it.

- Merging exponential buckets adds the histograms only on the inputs `ExpBucketLaws.MergesExactly` lists. Trimming drops
  leading zeros without moving the offset, the branch for a lower source ignores gaps, and an offset difference that
  wraps `int32` drops counts (`MergeExactness`, `MergeConservesTotal`, `WrapLosesACount`).
- `Count` leaves a one-point group's value as it is (`CountOfAGroup`); the integer median overflows when its two middle
  values do (`IntMedianIsBetween`), and the integer mean when the sum does (`IntMeanOverflows`). In a group that starts
  with an integer, doubles are left out of the sum (`IntSumsLeaveOutDoubles`).
- Explicit histograms panic when a later point has more buckets than the first (`PanicsExactlyOnExtraBuckets`); points
  with one bucket more than bounds never get there, because the group key carries the bounds.
- Cleanup looks at the last exceedance and not at the last anomaly, and it forgets histories. Some run of a fresh
  processor is decided otherwise than the same run without its sweeps exactly when a retention is set and either an
  anomaly could be detected (detection on, some metric checked, the history size at least the required data points) or
  debug mode is on and some value could miss its threshold (`CleanupShowsExactly`; after `Normalize`,
  `NormalizedCleanupShows`). Under all other settings cleanup changes no verdict of such a
  run.
- `Normalize` is meant to keep the history size at least the minimum number of data points; for history sizes 1 and 2 it
  does not, and then no anomaly is ever reported (`NormalizedHistoryReachesMinimum`, `NormalizedAnomaliesNeedRoom`).
- A batch whose resources are all excluded is delivered whole and then once more, empty. A batch counts as failed
  although all that was due has been taken exactly when that second call fails (`FailureAfterFullDelivery`).
- Fields that are quoted, joined and split again come back exactly when each is nonempty ASCII, has its double quotes
  escaped, and leaves no escape pending (`SplitRoundTrip.RoundTripExactly`). This is for lists without single quotes,
  and for lists whose double quotes are all escaped, with a delimiter that does not start with a double quote.
- A dynamic threshold respects its limits from its first update on; before that it is the configured one, which nothing
  checks against them (`LimitsHoldFromTheStart`).
- Applying a licence header drops every comment in front of the old header, such as a build constraint, and without an
  old header every comment in front of the first line of code (`OnlyTheHeaderIsDropped`). A line of 65536 characters or
  more cuts off the rest of the file (`ContentSurvives`). Below a shebang in a Go file the header is never found and one
  more is added each time (`CodeShebangPilesUpHeaders`). Each application strips one carriage return from a line's end,
  except that prepending strips none (`ReturnsAreStripped`). So a third application changes nothing exactly when the
  lines still there end in at most two of them, or one if the file had no header (`SettlesAfterTwo`); a file of one line
  with two of them and no header is changed (`ThirdApplicationChanges`).
- Exchanging the header of a Go file that has it in a block comment leaves the line that closes the comment behind, below
  a header that does not open it (`BlockCommentIsTorn`).
- With dynamic thresholds, a configured metric that has no dynamic threshold is never met, so a resource that reports only
  such metrics is excluded whatever their values (`DynamicExclusion`).
- A consumer that takes logs and answers with plain errors gets them once more for each error (`PlainErrorsMultiply`,
  `PlainErrorAfterTakingDoubles`).

## Model

| member | source | states |
|---|---|---|
| ExpBuckets.MergeSameOffset | internal/coreinternal/aggregateutil/aggregate.go:328-338 | with equal offsets the slice becomes the element-wise uint64 sum, as long as the longer array |
| ExpBuckets.Prepend | internal/coreinternal/aggregateutil/aggregate.go:345-349 | the append-and-shift loop puts the count in front and moves every counter up one place |
| ExpBuckets.MergeLowerSource | internal/coreinternal/aggregateutil/aggregate.go:340-353 | the nested shift loop yields the source's nonzero counters followed by the target |
| ExpBuckets.AddAt | internal/coreinternal/aggregateutil/aggregate.go:362-372 | one count is added at its index, the slice padded with zeros up to it, all other counters kept |
| ExpBuckets.MergeHigherSource | internal/coreinternal/aggregateutil/aggregate.go:355-374 | every source counter is added at its index plus the int32 offset difference; a negative index drops it |
| ExpBuckets.MergeBucketSlices | internal/coreinternal/aggregateutil/aggregate.go:327-374 | the three offset branches together |
| ExpBuckets.TrimBuckets | internal/coreinternal/aggregateutil/aggregate.go:376-391 | exactly the leading zeros go |
| ExpBuckets.ReachedLengthCovers | internal/coreinternal/aggregateutil/aggregate.go:362-372 | the padded length reaches every index a nonzero source counter is added at |
| ExpBucketLaws.TrimmingKeepsCounts | internal/coreinternal/aggregateutil/aggregate.go:309-317 | trimming without moving the offset keeps the histogram iff there is no leading zero or nothing but zeros |
| ExpBucketLaws.SameOffsetIsExact | internal/coreinternal/aggregateutil/aggregate.go:328-338 | equal offsets: exact sum iff no counter overflows, and the sum modulo 2^64 always |
| ExpBucketLaws.HigherSourceIsExact | internal/coreinternal/aggregateutil/aggregate.go:355-374 | higher source: exact iff nothing overflows and the target starts with a nonzero counter, or both are all zero |
| ExpBucketLaws.WrappedHigherSourceIsExact | internal/coreinternal/aggregateutil/aggregate.go:362-363 | a difference that wraps int32: exact iff the source is all zero and the target has nothing to trim |
| ExpBucketLaws.LowerSourceIsExact | internal/coreinternal/aggregateutil/aggregate.go:340-353 | lower source without overlap: exact iff its nonzero counters come first and fill the gap, or the target is all zero |
| ExpBucketLaws.OverlapIsExact | internal/coreinternal/aggregateutil/aggregate.go:340-353 | more nonzero source counters than the gap: exact iff the target is the one the source alone determines |
| ExpBucketLaws.MergeExactness | internal/coreinternal/aggregateutil/aggregate.go:302-391 | for all pairs of arrays, merging and fixing the offset adds the two index-to-count maps iff MergesExactly holds |
| ExpBucketLaws.OverlapCoincides | internal/coreinternal/aggregateutil/aggregate.go:340-353 | an overlapping pair that is added correctly |
| ExpBucketLaws.OverlapMisplaces | internal/coreinternal/aggregateutil/aggregate.go:340-353 | an overlapping pair that is not |
| ExpBucketLaws.MergeAddsTotals | internal/coreinternal/aggregateutil/aggregate.go:327-391 | the merged total is the target's plus that of the source counters not dropped, modulo 2^64 |
| ExpBucketLaws.DropsOnlyOnWrap | internal/coreinternal/aggregateutil/aggregate.go:362-363 | counters are dropped iff the offset difference wraps int32 |
| ExpBucketLaws.MergeConservesTotal | internal/coreinternal/aggregateutil/aggregate.go:327-391 | the total is conserved iff what the wrap drops counts zero modulo 2^64 |
| ExpBucketLaws.WrapLosesACount | internal/coreinternal/aggregateutil/aggregate.go:362-363 | two arrays whose merge loses the source's count |
| ExpHistogram.BucketField.Merge | internal/coreinternal/aggregateutil/aggregate.go:302-317 | merging one bucket field in place: counters, offset and trimming as MergeBuckets says |
| ExpHistogram.ExpDataPoint.Merge | internal/coreinternal/aggregateutil/aggregate.go:288-323 | one round over a data point, skipping points that counted nothing |
| ExpHistogram.MergeOneGroup | internal/coreinternal/aggregateutil/aggregate.go:283-324 | the loop over a group computes the fold MergeGroup |
| ExpHistogram.MergeGroups | internal/coreinternal/aggregateutil/aggregate.go:280-325 | one output point per group, each group once, in whatever map order |
| ExpHistogram.MergedCountsAddUp | internal/coreinternal/aggregateutil/aggregate.go:280-391 | if buckets and zero count make the count in each input and no offset difference wraps, they do in the merged point |
| ExpHistogram.MergedCountIsTheSum | internal/coreinternal/aggregateutil/aggregate.go:289-292 | the merged count is the sum of the inputs' counts modulo 2^64 |
| ExpHistogram.MergedStartIsEarliest | internal/coreinternal/aggregateutil/aggregate.go:320-322 | the start time is the least one among the first point and those that counted something |
| ExpHistogram.MergedBucketsAddUp | internal/coreinternal/aggregateutil/aggregate.go:328-338 | with one offset in a group every merged positive or negative bucket is the sum of the group's, modulo 2^64 |
| ExpHistogram.OneOffsetIsExact | internal/coreinternal/aggregateutil/aggregate.go:328-338 | with one offset a merged bucket is the exact sum iff that sum fits 64 bits |
| ExpHistogram.GroupExactness | internal/coreinternal/aggregateutil/aggregate.go:283-324 | a group and all its beginnings are summed bucket by bucket iff each round of the loop meets MergesExactly, for either sign |
| ExpHistogram.LastStepDecides | internal/coreinternal/aggregateutil/aggregate.go:302-317 | if all points but the last were summed exactly, the whole group is iff the last round meets MergesExactly |
| ExpHistogram.AggregationKeepsTheCount | internal/coreinternal/aggregateutil/aggregate.go:280-325 | grouping and merging keeps the total count modulo 2^64, for any map order |
| HistogramLaws.ExponentialSumsAddUp | internal/coreinternal/aggregateutil/aggregate.go:289-290 | the merged sum is that of the first point and the later ones that counted something |
| HistogramLaws.ExponentialExtremes | internal/coreinternal/aggregateutil/aggregate.go:292-297 | where present, the merged minimum and maximum are the least and greatest of those points, and some point's |
| HistogramLaws.ExponentialExemplarsStay | internal/coreinternal/aggregateutil/aggregate.go:319 | all their exemplars are kept in order |
| HistogramLaws.ZeroCountsAddUp | internal/coreinternal/aggregateutil/aggregate.go:291 | the merged zero count is the sum of theirs modulo 2^64 |
| HistogramLaws.ExponentialGroups | internal/coreinternal/aggregateutil/aggregate.go:431-453 | two points share a group iff attributes, timestamp, scale, flags, presence of the extremes and (if it counts) start time are equal |
| Grouping.AggGroups.GroupPoints | internal/coreinternal/aggregateutil/aggregate.go:393-407 | the loop fills the group map as the function Grouped does |
| Grouping.GroupsPartition | internal/coreinternal/aggregateutil/aggregate.go:393-407 | each group gains exactly the points of its key, in order, and only nonempty groups exist |
| Grouping.WithKeyMembers | internal/coreinternal/aggregateutil/aggregate.go:393-407 | the points of a group are input points with its key |
| Grouping.SharedGroup | internal/coreinternal/aggregateutil/aggregate.go:393-407 | two points of the input share a group iff their keys are equal |
| Grouping.GroupTotalsAddUp | internal/coreinternal/aggregateutil/aggregate.go:149-152 | in any order without repeats that covers the keys, the groups' totals add up to the input's |
| Grouping.SumOfIsOrderFree | internal/coreinternal/aggregateutil/aggregate.go:158-159 | a sum depends only on the multiset of its terms |
| Histogram.HistDataPoint.AddBuckets | internal/coreinternal/aggregateutil/aggregate.go:269-271 | counters are added index by index; it panics iff the source is longer |
| Histogram.HistDataPoint.Merge | internal/coreinternal/aggregateutil/aggregate.go:257-276 | one round of the fold, with its panic |
| Histogram.MergeOneGroup | internal/coreinternal/aggregateutil/aggregate.go:253-277 | the loop over a group computes the fold, or panics where it does |
| Histogram.MergeGroups | internal/coreinternal/aggregateutil/aggregate.go:252-278 | one point per group in map order, unless some group panics |
| Histogram.PanicsExactlyOnExtraBuckets | internal/coreinternal/aggregateutil/aggregate.go:269-271 | SetAt is out of range iff a later point that counted something has more buckets than the first |
| Histogram.GroupedPointsNeverPanic | internal/coreinternal/aggregateutil/aggregate.go:409-429 | points with one bucket more than bounds never panic, because the key carries the bounds |
| Histogram.MergedCountsAddUp | internal/coreinternal/aggregateutil/aggregate.go:252-278 | bucket counts that make the count in every input do so in the merged point |
| Histogram.MergedBucketsAddUp | internal/coreinternal/aggregateutil/aggregate.go:269-271 | every merged bucket is the sum of the group's buckets modulo 2^64 |
| HistogramLaws.ExplicitSumsAddUp | internal/coreinternal/aggregateutil/aggregate.go:261-262 | the merged sum is that of the first point and the later ones that counted something |
| HistogramLaws.ExplicitExtremes | internal/coreinternal/aggregateutil/aggregate.go:263-268 | where present, the merged minimum and maximum are the least and greatest of those points, and some point's |
| HistogramLaws.ExplicitStartIsEarliest | internal/coreinternal/aggregateutil/aggregate.go:273-275 | the merged start time is the earliest of those points |
| HistogramLaws.ExplicitExemplarsStay | internal/coreinternal/aggregateutil/aggregate.go:272 | all their exemplars are kept in order |
| HistogramLaws.ExplicitGroups | internal/coreinternal/aggregateutil/aggregate.go:409-429 | two points share a group iff attributes, timestamp, bounds, flags, presence of the extremes and (if it counts) start time are equal |
| Sorting.SortSorts | internal/coreinternal/aggregateutil/aggregate.go:180 | sorting gives an ordered permutation |
| Sorting.SortIsOrderFree | internal/coreinternal/aggregateutil/aggregate.go:180 | the sorted list depends only on the multiset |
| Numbers.NumberDataPoint.MergeDoubles | internal/coreinternal/aggregateutil/aggregate.go:154-188 | the in-place double fold computes the aggregate of the group's values and its earliest start time |
| Numbers.NumberDataPoint.MergeInts | internal/coreinternal/aggregateutil/aggregate.go:189-228 | the same for integers, with wrapping addition and truncating division |
| Numbers.MedianOfDoubles | internal/coreinternal/aggregateutil/aggregate.go:176-188 | the median is taken from the middle of the sorted values |
| Numbers.MedianOfInts | internal/coreinternal/aggregateutil/aggregate.go:212-224 | the integer median, with wrapping addition and truncation |
| Numbers.MergeOneGroup | internal/coreinternal/aggregateutil/aggregate.go:150-229 | a group becomes one point as MergeGroup says |
| Numbers.MergeGroups | internal/coreinternal/aggregateutil/aggregate.go:149-230 | one output point per group, each group once, in map order |
| Numbers.DoublesAreOrderFree | internal/coreinternal/aggregateutil/aggregate.go:156-188 | every double aggregate depends only on the multiset of values |
| Numbers.IntsAreOrderFree | internal/coreinternal/aggregateutil/aggregate.go:191-227 | every integer aggregate does, wrapping included |
| Numbers.MedianSplitsDoubles | internal/coreinternal/aggregateutil/aggregate.go:176-188 | half of the values lie at or below the median, half at or above |
| Numbers.IntMedianIsBetween | internal/coreinternal/aggregateutil/aggregate.go:216-223 | the even integer median lies between the middle values iff their sum fits int64 |
| Numbers.CountCounts | internal/coreinternal/aggregateutil/aggregate.go:166-167 | for doubles, Count gives the number of points iff there is more than one, or the one value is 1 |
| Numbers.CountCountsInts | internal/coreinternal/aggregateutil/aggregate.go:205-206 | the same for integers |
| Numbers.CountOfAGroup | internal/coreinternal/aggregateutil/aggregate.go:150-229 | the merged point of a group holds the number of points, in the type of its first value, iff that value is there and there is more than one point or it is 1 |
| Numbers.EarliestStartIsLeast | internal/coreinternal/aggregateutil/aggregate.go:169-171 | the start time is the group's least |
| Numbers.SumOfAGroup | internal/coreinternal/aggregateutil/aggregate.go:158-159 | Sum of a one-type group is the sum of its values |
| Numbers.AggregationKeepsTheTotal | internal/coreinternal/aggregateutil/aggregate.go:149-230 | with Sum the outputs' total is the inputs', for any map order |
| NumberLaws.DoubleExtremes | internal/coreinternal/aggregateutil/aggregate.go:160-163 | Min and Max of doubles are values of the group that no value lies beyond |
| NumberLaws.IntExtremes | internal/coreinternal/aggregateutil/aggregate.go:195-202 | the same for integers |
| NumberLaws.DoubleMean | internal/coreinternal/aggregateutil/aggregate.go:173-175 | the mean of doubles times their number is their total, and it lies between the extremes |
| NumberLaws.MeanOfDoubleGroup | internal/coreinternal/aggregateutil/aggregate.go:149-188 | over a merged group: mean times size is the sum |
| NumberLaws.IntMean | internal/coreinternal/aggregateutil/aggregate.go:226-228 | the mean of integers times their number is less than their number away from the wrapped sum, toward zero, with its sign |
| NumberLaws.IntMeanIsBetween | internal/coreinternal/aggregateutil/aggregate.go:226-228 | it lies between the extremes if the total fits 64 bits |
| NumberLaws.IntMeanOverflows | internal/coreinternal/aggregateutil/aggregate.go:193-194 | twice a value of 2^62 or more has a negative mean |
| NumberLaws.MedianReflects | internal/coreinternal/aggregateutil/aggregate.go:176-188 | reflecting all values at a point reflects the median: with two middle values it favours neither |
| NumberLaws.IntMedianIsMidway | internal/coreinternal/aggregateutil/aggregate.go:212-224 | the integer median is the middle value, or half the middle values' sum cut toward zero if that fits |
| NumberLaws.IntSumsLeaveOutDoubles | internal/coreinternal/aggregateutil/aggregate.go:193-194 | in a group that starts with an integer the sum is that of its integer points only |
| NumberLaws.DoubleSumsHaveAll | internal/coreinternal/aggregateutil/aggregate.go:158-159 | in a group that starts with a double all numbers are added, integers too |
| NumberLaws.EmptyCountsAsZero | internal/coreinternal/aggregateutil/aggregate.go:232-250 | a point without a value counts as zero among the extremes |
| NumberLaws.DoublesAreCut | internal/coreinternal/aggregateutil/aggregate.go:242-250 | a double read as an integer is cut toward zero |
| NumberLaws.NumberGroups | internal/coreinternal/aggregateutil/aggregate.go:393-407 | two points share a group iff attributes, timestamp and (if it counts) start time are equal |
| SplitStrings.SplitString | internal/coreinternal/parseutils/parser.go:22-67 | the loop with its jumping index terminates and computes the scanner's result or error |
| SplitStrings.SplitOfQuoted | internal/coreinternal/parseutils/parser.go:22-67 | fields whose quotes are escaped and that leave no escape pending come back, empty ones dropped, high bytes re-encoded |
| SplitStrings.RoundTrip | internal/coreinternal/parseutils/parser.go:22-67 | for fields without double quotes, splitting undoes quoting and joining iff every field is nonempty ASCII with an even number of trailing backslashes |
| SplitRoundTrip.RoundTripExactly | internal/coreinternal/parseutils/parser.go:22-67 | for fields with double quotes too, where these are escaped or no single quotes are around: iff every field is nonempty ASCII, has its double quotes escaped and leaves no escape pending |
| SplitRoundTrip.UnescapedQuoteSpoils | internal/coreinternal/parseutils/parser.go:39-54 | a field with an unescaped double quote never comes back, whatever follows without a single quote |
| SplitRoundTrip.ScanCarries | internal/coreinternal/parseutils/parser.go:28-66 | what has been split off stays, and a nonempty current field begins the next one |
| SplitStrings.PendingEscapeSpoils | internal/coreinternal/parseutils/parser.go:39-54 | a field that leaves an escape pending gives an error or a field with a quote in it |
| SplitStrings.PendingMeansOddBackslashes | internal/coreinternal/parseutils/parser.go:50 | an escape is pending iff the trailing backslashes are odd in number |
| SplitStrings.FirstOccurrenceIsFirst | internal/coreinternal/parseutils/parser.go:29-30 | the plain split cuts at the first place the delimiter occurs |
| SplitStrings.SplitWithoutQuotes | internal/coreinternal/parseutils/parser.go:22-67 | without quotes the result is the nonempty pieces of a plain left-to-right split |
| SplitQuotes.QuotesAreAlike | internal/coreinternal/parseutils/parser.go:42-50 | exchanging single and double quotes in input and delimiter exchanges them in the fields, and errors stay errors |
| SplitQuotes.SingleRoundTripExactly | internal/coreinternal/parseutils/parser.go:22-67 | fields written in single quotes come back iff each is nonempty ASCII, has its single quotes escaped and leaves no escape pending |
| SplitQuotes.OpenQuoteIsAnError | internal/coreinternal/parseutils/parser.go:60-62 | an input that ends inside a quote of either kind is an error |
| SplitQuotes.QuotedPartJoins | internal/coreinternal/parseutils/parser.go:28-67 | a part in quotes of either kind keeps its delimiters and joins the pieces around it, which are split plainly |
| SplitQuotes.EncodingDecodes | internal/coreinternal/parseutils/parser.go:57 | what is appended for each byte is the UTF-8 form of that code point: decoding gives the bytes back |
| AdaptiveConfig.Config.Normalize | processor/adaptivetelemetryprocessor/config.go:117-188 | the step-by-step defaults and caps give the normalized settings |
| AdaptiveConfig.Config.Validate | processor/adaptivetelemetryprocessor/config.go:190-225 | validation accepts exactly the settings without negative thresholds and with positive enabled values |
| AdaptiveConfig.NormalizedIsValidUnlessNegative | processor/adaptivetelemetryprocessor/config.go:117-225 | normalized settings are valid iff no threshold is negative |
| AdaptiveConfig.NormalizeIsIdempotent | processor/adaptivetelemetryprocessor/config.go:117-188 | normalizing twice is normalizing once |
| AdaptiveConfig.NormalizedWithinRange | processor/adaptivetelemetryprocessor/config.go:117-188 | normalizing leaves settings alone iff all that is enabled is set within its range |
| AdaptiveConfig.DefaultsFilledIn | processor/adaptivetelemetryprocessor/config.go:117-188 | the defaults of a configuration that sets nothing |
| AdaptiveConfig.NormalizedHistoryReachesMinimum | processor/adaptivetelemetryprocessor/config.go:150-174 | the history size reaches the minimum number of data points iff it was not configured as 1 or 2 |
| AdaptiveEntities.TrackedEntity.UpdateEntityValues | processor/adaptivetelemetryprocessor/process_metrics.go:431-445 | both maps are written value by value, also when they are one object |
| AdaptiveEntities.TrackedEntity.CheckMetricAnomaly | processor/adaptivetelemetryprocessor/anomaly_detection.go:59-101 | a value spikes iff it exceeds the earlier history's average enough, and it is recorded in any case |
| AdaptiveEntities.TrackedEntity.DetectAnomaly | processor/adaptivetelemetryprocessor/anomaly_detection.go:15-35 | the loop over the values stops at the first spike |
| AdaptiveEntities.TrackedEntity.CheckStages | processor/adaptivetelemetryprocessor/process_metrics.go:403-429 | anomaly, threshold and composite stages in order, with what they change |
| AdaptiveEntities.TrackedEntity.EvaluateTracked | processor/adaptivetelemetryprocessor/process_metrics.go:357-372 | all stages for a known entity, retention last |
| AdaptiveEntities.AnyMeetsThreshold | processor/adaptivetelemetryprocessor/process_metrics.go:491-530 | some value is at or above its dynamic threshold, or in static mode at or above its configured one, zero admitting all |
| AdaptiveEntities.AnyTargeted | processor/adaptivetelemetryprocessor/process_metrics.go:831-851 | some metric is configured |
| AdaptiveEntities.CalculateComposite | processor/adaptivetelemetryprocessor/composite_metrics.go:160-216 | the scoring loop computes the weighted sum over all weighted metrics |
| AdaptiveAnomaly.HistoriesAreWindows | processor/adaptivetelemetryprocessor/anomaly_detection.go:93-101 | in every run each history is the last values recorded for its metric, at most the history size many |
| AdaptiveAnomaly.DetectFindsAnySpike | processor/adaptivetelemetryprocessor/anomaly_detection.go:15-35 | detection succeeds iff some checked metric spikes over its own earlier history |
| AdaptiveAnomaly.DetectRecordsEachOnce | processor/adaptivetelemetryprocessor/anomaly_detection.go:26-33 | a checked metric is recorded at most once, and exactly once if nothing spiked |
| AdaptiveAnomaly.DecisionIgnoresOrder | processor/adaptivetelemetryprocessor/process_metrics.go:285-528 | verdict, stage and all other entities are the same for every map order; the evaluated entity differs at most in the histories of checked metrics that a spike kept one order from reaching |
| AdaptiveAnomaly.RunIgnoresOrder | processor/adaptivetelemetryprocessor/process_metrics.go:285-528 | without anomaly detection whole runs, states and verdicts, do not depend on the map orders |
| AdaptiveAnomaly.ScoreIgnoresOrder | processor/adaptivetelemetryprocessor/composite_metrics.go:162-216 | the composite score is the same for every order of the weights |
| AdaptiveAnomaly.NewEntityNeverSpikes | processor/adaptivetelemetryprocessor/process_metrics.go:632-638 | a new entity is never included by the anomaly stage, however few data points are required |
| AdaptiveAnomaly.FirstValueIsRecordedTwice | processor/adaptivetelemetryprocessor/process_metrics.go:632-638 | a new entity's first value enters its history twice |
| AdaptiveAnomaly.QuietNeverReports | processor/adaptivetelemetryprocessor/anomaly_detection.go:59-91 | with detection off, no metric to check, or a history size below the required data points, no run yields an anomaly verdict |
| AdaptiveAnomaly.DetectorFires | processor/adaptivetelemetryprocessor/anomaly_detection.go:59-91 | otherwise some run from the empty state reports one |
| AdaptiveAnomaly.AnomaliesNeedRoom | processor/adaptivetelemetryprocessor/anomaly_detection.go:59-91 | an anomaly can ever be reported iff detection is on, some metric is checked, and the history size reaches the required data points |
| AdaptiveAnomaly.NormalizedAnomaliesNeedRoom | processor/adaptivetelemetryprocessor/config.go:150-174 | after normalizing, iff the history size was not configured as 1 or 2 |
| AdaptiveDecisions.SpikesInNumbers | processor/adaptivetelemetryprocessor/anomaly_detection.go:59-118 | a value spikes iff there are enough earlier values, their sum is positive, and 100 times their number times the value reaches 100 plus the change threshold times their sum |
| AdaptiveDecisions.SpikesIgnoreUnits | processor/adaptivetelemetryprocessor/anomaly_detection.go:103-118 | scaling a history and the value by a positive factor changes no spike |
| AdaptiveDecisions.StaticExclusion | processor/adaptivetelemetryprocessor/process_metrics.go:643-675 | a fresh resource is excluded iff some metric is configured and every value is below its own threshold, none of them zero; with the exact stage otherwise |
| AdaptiveDecisions.DynamicExclusion | processor/adaptivetelemetryprocessor/process_metrics.go:643-655 | with dynamic thresholds iff some metric is configured or has one, and every value with one is below it |
| AdaptiveDecisions.OneMetricExclusion | processor/adaptivetelemetryprocessor/process_metrics.go:643-675 | for one metric: excluded iff its value is below its threshold |
| AdaptiveDecisions.OneMetricComposite | processor/adaptivetelemetryprocessor/composite_metrics.go:172-216 | a metric below its threshold is admitted by the composite stage iff value times weight reaches composite threshold times threshold |
| AdaptiveDecisions.TermInNumbers | processor/adaptivetelemetryprocessor/composite_metrics.go:172-212 | what a weighted metric adds, times the threshold it is measured against, is value times weight; without a threshold it adds two thirds of its weight |
| AdaptiveDecisions.ScoreByMetric | processor/adaptivetelemetryprocessor/composite_metrics.go:172-216 | the score is the term of any one weighted metric and the score over the others |
| AdaptiveDecisions.FreshIsTracked | processor/adaptivetelemetryprocessor/process_metrics.go:375-400 | a fresh resource is tracked iff it is admitted, with the exceedance its stage implies |
| AdaptiveDecisions.AdmittedAnyway | processor/adaptivetelemetryprocessor/process_metrics.go:308-338 | zombies and listed processes with a configured metric are admitted whatever they report |
| AdaptiveDecisions.KnownVerdict | processor/adaptivetelemetryprocessor/process_metrics.go:357-372 | the verdict on a known resource, stage by stage in numbers and minutes, and the times it leaves behind |
| AdaptiveModel.RunConcat | processor/adaptivetelemetryprocessor/process_metrics.go:136-172 | runs compose: states and verdicts of two runs in a row |
| AdaptiveModel.EvaluateIsLocal | processor/adaptivetelemetryprocessor/process_metrics.go:285-354 | an evaluation changes no other identity |
| AdaptiveCleanup.ExpiredLooksNew | processor/adaptivetelemetryprocessor/process_metrics.go:357-428 | an expired entity is decided like one never seen, and both end up alike |
| AdaptiveCleanup.CleanupIsInvisible | processor/adaptivetelemetryprocessor/persistence.go:95-118 | simulation: with debug mode off and no anomaly to detect, a run with sweeps gives the verdicts and stages of the run without |
| AdaptiveCleanup.CleanupIsInvisibleFrom | processor/adaptivetelemetryprocessor/persistence.go:95-118 | the same from any one state |
| AdaptiveVisibility.DebugModeShowsCleanup | processor/adaptivetelemetryprocessor/process_metrics.go:717-768 | in debug mode, with a retention and a threshold that can be missed, some run of a fresh processor is decided otherwise without its sweeps |
| AdaptiveVisibility.DetectionShowsCleanup | processor/adaptivetelemetryprocessor/persistence.go:105-118 | so is some run wherever an anomaly could be detected: a sweep forgets the history a spike is measured against |
| AdaptiveVisibility.CleanupShowsExactly | processor/adaptivetelemetryprocessor/persistence.go:95-118 | for all settings: sweeps can change a verdict of a fresh processor iff a retention is set and an anomaly could be detected, or debug mode meets a threshold that can be missed |
| AdaptiveVisibility.NormalizedCleanupShows | processor/adaptivetelemetryprocessor/config.go:117-188 | the same in terms of the configured settings: after normalizing, iff debug mode meets such a threshold, or detection checks a metric and the history size was not configured as 1 or 2 |
| AdaptiveCleanup.RunKeepsExceeded | processor/adaptivetelemetryprocessor/persistence.go:95-118 | within the retention window no run forgets an exceedance or moves it back |
| AdaptiveCleanup.RetentionHolds | processor/adaptivetelemetryprocessor/process_metrics.go:602-617 | once a stage other than retention admits an identity at t, every evaluation before t plus retention includes it, whatever lies between |
| AdaptiveMaxima.RaisedIsGreater | processor/adaptivetelemetryprocessor/process_metrics.go:439-443 | one update takes the greater of stored maximum and value |
| AdaptiveMaxima.MaximumIsRunning | processor/adaptivetelemetryprocessor/process_metrics.go:431-445 | with two map objects the maximum is the greatest of its start value and all values seen while tracked |
| AdaptiveMaxima.GreatestOfIsGreatest | processor/adaptivetelemetryprocessor/process_metrics.go:439-443 | the greatest is at least every value and is one of them |
| AdaptiveMaxima.SharedMapsStayEqual | processor/adaptivetelemetryprocessor/process_metrics.go:620-629 | for an entity created with one shared map, current and maximum values stay equal in every run |
| DynamicThresholds.CollectTotals | processor/adaptivetelemetryprocessor/dynamic_thresholds.go:102-151 | totals and counts per configured gauge |
| DynamicThresholds.ComputeMetricAverages | processor/adaptivetelemetryprocessor/dynamic_thresholds.go:102-163 | the averages of exactly the configured metrics with data |
| DynamicThresholds.CalculateSingleThreshold | processor/adaptivetelemetryprocessor/dynamic_thresholds.go:195-239 | the smoothed and constrained threshold, restarting from the base at zero |
| DynamicThresholds.UpdateThresholds | processor/adaptivetelemetryprocessor/dynamic_thresholds.go:166-249 | configured metrics with data move, all others stay |
| DynamicThresholds.ConstrainRespectsLimits | processor/adaptivetelemetryprocessor/dynamic_thresholds.go:226-239 | the maximum is always respected, the minimum iff it is not above the maximum |
| DynamicThresholds.MovedThresholdsRespectLimits | processor/adaptivetelemetryprocessor/dynamic_thresholds.go:166-249 | over any batches a threshold respects its limits from its first update on, and is untouched before |
| DynamicThresholds.LimitsHoldFromTheStart | processor/adaptivetelemetryprocessor/processor_init.go:59-67 | in every run of a fresh processor it does so throughout iff the configured threshold does |
| DynamicThresholds.ThresholdsStayInBand | processor/adaptivetelemetryprocessor/dynamic_thresholds.go:166-249 | over any batches, unclamped thresholds stay within base and base plus a fifth of the largest average |
| DynamicThresholds.SeededInBand | processor/adaptivetelemetryprocessor/processor_init.go:59-67 | the initial thresholds lie in that band |
| DynamicThresholds.UpdateApproachesTarget | processor/adaptivetelemetryprocessor/dynamic_thresholds.go:195-239 | one update shrinks the distance to a target inside the limits by the factor one minus smoothing |
| DynamicThresholds.ThresholdConverges | processor/adaptivetelemetryprocessor/dynamic_thresholds.go:195-239 | n updates with one average shrink it by that factor to the power n |
| DynamicThresholds.UpdateGoesTheShare | processor/adaptivetelemetryprocessor/dynamic_thresholds.go:195-224 | without limits one update goes exactly the share smoothing of the way to the target |
| DynamicThresholds.AverageOfGauges | processor/adaptivetelemetryprocessor/dynamic_thresholds.go:125-163 | a batch's average times the number of its nonempty gauges is what these add up to |
| AdaptiveProcessor.ExtractMetricValues | processor/adaptivetelemetryprocessor/composite_metrics.go:17-122 | the loops collect the processed gauges and sums, later metrics winning |
| AdaptiveProcessor.LastMetricWins | processor/adaptivetelemetryprocessor/composite_metrics.go:17-82 | a name has a value iff a gauge or sum of that name is processed, and it is that of the last one |
| AdaptiveProcessor.Processor.UpsertTracked | processor/adaptivetelemetryprocessor/process_metrics.go:449-464 | zombies and listed processes are tracked; a new entity shares one map |
| AdaptiveProcessor.Processor.EvaluateExistingEntity | processor/adaptivetelemetryprocessor/process_metrics.go:357-372 | only that entity changes, as the state machine says |
| AdaptiveProcessor.Processor.EvaluateNewEntity | processor/adaptivetelemetryprocessor/process_metrics.go:375-400 | a new entity is tracked iff it is included or in debug mode |
| AdaptiveProcessor.Processor.Evaluated | processor/adaptivetelemetryprocessor/process_metrics.go:301-354 | the whole decision, branch by branch |
| AdaptiveProcessor.Processor.ShouldIncludeResource | processor/adaptivetelemetryprocessor/process_metrics.go:285-354 | evaluating a resource is one step of the state machine and sets its stage attribute |
| AdaptiveProcessor.Processor.ProcessSingleResource | processor/adaptivetelemetryprocessor/process_metrics.go:175-228 | an included resource adds one copy and one stage hit, an excluded one nothing |
| AdaptiveProcessor.Processor.EvaluateInOrder | processor/adaptivetelemetryprocessor/process_metrics.go:142-166 | the batch loop, with cancellation at every 25th resource, has made exactly the progress of a run prefix |
| AdaptiveProcessor.Processor.ProcessAllResources | processor/adaptivetelemetryprocessor/process_metrics.go:136-172 | uncancelled: the included resources in order and their stage hits; stopped at a checkpoint: the batch itself, the rest marked as timed out, the hits summing to its size |
| AdaptiveProcessor.HitsAndLeftovers | processor/adaptivetelemetryprocessor/process_metrics.go:152-158 | stage hits plus resources left over make the batch |
| AdaptiveProcessor.MarkRemaining | processor/adaptivetelemetryprocessor/process_metrics.go:152-158 | resources without a stage get the timeout stage and are counted |
| AdaptiveProcessor.Processor.CleanupExpiredEntities | processor/adaptivetelemetryprocessor/persistence.go:95-118 | the deleting loop leaves exactly the entities exceeded within retention |
| AdaptiveProcessor.Processor.UpdateDynamicThresholds | processor/adaptivetelemetryprocessor/dynamic_thresholds.go:18-93 | thresholds are recomputed unless it happened within half an interval |
| AdaptiveProcessor.Processor.UpdateDynamicThresholdsIfNeeded | processor/adaptivetelemetryprocessor/process_metrics.go:124-133 | a batch recomputes them iff a whole interval has passed |
| AdaptiveProcessor.Processor.ProcessMetrics | processor/adaptivetelemetryprocessor/process_metrics.go:19-46 | a batch is a run of the state machine: thresholds, evaluations, at most one sweep; empty and cancelled batches come back as they are |
| AdaptiveProcessor.BatchRuns | processor/adaptivetelemetryprocessor/process_metrics.go:31-44 | threshold changes and sweeps around the evaluations give no verdicts of their own |
| AdaptiveBatches.CancellationIsNoticed | processor/adaptivetelemetryprocessor/process_metrics.go:142-150 | a cancellation that stays is noticed after at most 25 more resources |
| AdaptiveBatches.SmallBatchesFinish | processor/adaptivetelemetryprocessor/process_metrics.go:142-150 | a batch of at most 25 resources is never stopped |
| AdaptiveBatches.StoppedForACause | processor/adaptivetelemetryprocessor/process_metrics.go:142-150 | a batch comes back whole only after a positive multiple of 25 resources, the context then being cancelled |
| AdaptiveBatches.StoppedBatchIsMarked | processor/adaptivetelemetryprocessor/process_metrics.go:152-158 | in a stopped batch every resource ends up with the stage that admitted it, the one it had, or the timeout |
| AdaptiveBatches.CopiesCarryTheirStage | processor/adaptivetelemetryprocessor/process_metrics.go:200-228 | each output is the copy of an admitted resource, flagged unless it was a default inclusion, its stage visible in debug mode only |
| AdaptiveBatches.TunedOnceAMinute | processor/adaptivetelemetryprocessor/process_metrics.go:124-133 | however often batches come, they move the thresholds at most once a minute |
| AdaptiveBatches.DueAfterAMinute | processor/adaptivetelemetryprocessor/process_metrics.go:124-133 | a batch moves them iff they are on and a minute has passed |
| AdaptiveBatches.EveryResourceCounts | processor/adaptivetelemetryprocessor/dynamic_thresholds.go:102-122 | the average that moves a threshold is taken over the gauges of all resources of the batch |
| AdaptiveBatches.SweepLeavesTheRetained | processor/adaptivetelemetryprocessor/process_metrics.go:240-270 | after a sweeping batch exactly the entities exceeded within the retention are left, otherwise all stay |
| AdaptiveDelivery.ConsumeMetrics | processor/adaptivetelemetryprocessor/consume_metrics.go:16-46 | what is handed downstream; success means that the batch, or its nonempty included part, was delivered once; failure leaves it taken whole only where forwarding an empty result failed |
| AdaptiveDelivery.Forward | processor/adaptivetelemetryprocessor/consume_metrics.go:30-46 | the calls made: fallback on error, fallback and then the empty result, or the result; it succeeds iff each call did |
| AdaptiveDelivery.IncludedInOrder | processor/adaptivetelemetryprocessor/process_metrics.go:162-166 | the included resources are those with an including verdict, in batch order, as many as stage hits |
| AdaptiveDelivery.OutputsCarryTheIncluded | processor/adaptivetelemetryprocessor/process_metrics.go:200-228 | the filtered copies carry exactly the included resources |
| AdaptiveDelivery.SomethingIsDeliveredOnce | processor/adaptivetelemetryprocessor/consume_metrics.go:115-132 | with a succeeding consumer a nonempty batch is delivered whole or as its nonempty included part, nothing twice |
| AdaptiveDelivery.FailureAfterFullDelivery | processor/adaptivetelemetryprocessor/consume_metrics.go:36-46 | a batch is reported as failed with all that was due taken iff everything was excluded, the fallback succeeded and the empty result then failed |
| LicenseText.LinesAhead | cmd/nrlicense/header.go:332-352 | reading written lines gives them back |
| LicenseHeader.HashBang | cmd/nrlicense/header.go:439-454 | the loop finds the shebang line with its newline |
| LicenseHeader.ParseLines | cmd/nrlicense/header.go:53-117 | the one-pass loop finds the header that the two-phase description defines, or fails on a line too long |
| LicenseHeader.ParseFileHeader | cmd/nrlicense/header.go:38-118 | the same for a text, generated files aside |
| LicenseHeader.ApplyHeader | cmd/nrlicense/header.go:262-356 | prepend, exchange, or leave alone, as WithHeader says |
| LicenseHeader.Replace | cmd/nrlicense/header.go:315-355 | shebang, header, blank line, and the lines from the content on |
| LicenseHeader.CheckHeader | cmd/nrlicense/header.go:387-426 | the verdict per status |
| LicenseLaws.HeaderFoundAgain | cmd/nrlicense/header.go:58-106 | a good header in front is parsed back to its lines, holder, licence and the right content line |
| LicenseLaws.SpacerMakesBlankLine | cmd/nrlicense/header.go:297-329 | after a header that ends its last line there is a blank line, written only if the header does not bring it |
| LicenseLaws.ShebangIsWholeFile | cmd/nrlicense/header.go:439-454 | a shebang without a newline may be the whole file |
| LicenseLaws.Reapplied | cmd/nrlicense/header.go:309-355 | applying to a file with the header in front only drops blank lines and empty comments right below it |
| LicenseFixpoint.SettlesAfterTwo | cmd/nrlicense/header.go:262-356 | a third application changes nothing iff the lines still kept end in at most two carriage returns (one if the file had no header), or a result is generated or unreadable |
| LicenseFixpoint.ExchangeSettlesAtOnce | cmd/nrlicense/header.go:309-355 | if a header was found, the first application is already the last iff no content line ends in more than one carriage return, or the result is generated |
| LicenseFixpoint.ReturnsAreStripped | cmd/nrlicense/header.go:336-352 | each application to a file with the header in front strips one carriage return from every line's end |
| LicenseFixpoint.FixpointIff | cmd/nrlicense/header.go:336-352 | such a file is a fixpoint iff no line of its content ends in a carriage return |
| LicenseFixpoint.AcceptedUnlessShebangIsCode | cmd/nrlicense/header.go:387-426 | a file with the right header in front is rejected iff its shebang counts as code |
| LicenseVerdicts.Judged | cmd/nrlicense/header.go:387-426 | with a header in front and no code shebang a file is accepted iff holder and licence are what the status asks, for all three statuses; below a code shebang it is rejected |
| LicenseFixpoint.FixThenCheck | cmd/nrlicense/header.go:262-426 | what was fixed never fails the check for new and modified files, whatever carriage returns it holds |
| LicenseFixpoint.CodeShebangPilesUpHeaders | cmd/nrlicense/header.go:101-105 | below a shebang that counts as code each application adds a header |
| LicenseFixpoint.ContentSurvives | cmd/nrlicense/header.go:331-355 | the lines from the content's start on survive in order, each without one more carriage return, all of them iff no line is too long |
| LicenseFixpoint.OnlyTheHeaderIsDropped | cmd/nrlicense/header.go:339-347 | nothing but the header is dropped iff it comes first after the shebang, or there is none and no comment before the code |
| LicenseTemplates.GenerateHeader | cmd/nrlicense/header.go:153-164 | the loop comments a template line by line |
| LicenseTemplates.CommentedHeaderIsGood | cmd/nrlicense/header.go:141-183 | a template with a copyright first and a licence last is a good header in every file type |
| LicenseTemplates.ShebangIsCommentUnlessGo | cmd/nrlicense/header.go:186-198 | a shebang is a comment iff the file is neither Go nor protobuf |
| LicenseTemplates.TemplatesWork | cmd/nrlicense/header.go:262-426 | for files of any other type or without a shebang, such a header passes the check, and a third application changes nothing iff few carriage returns are left |
| LicenseTemplates.NewFileHeaderWorks | cmd/nrlicense/templates/newrelic-header-apache.txt:1-2 | in particular the header for new files |
| LicenseTemplates.ThirdApplicationChanges | cmd/nrlicense/header.go:262-356 | a Go file of one line that ends in two carriage returns, without a header, is changed by the third application |
| LicenseTemplates.OneApplicationIsEnough | cmd/nrlicense/header.go:262-356 | for a Go file of one short line of code one application is enough iff the line ends in no carriage return |
| LicenseVerdicts.TemplateJudged | cmd/nrlicense/header.go:387-426 | the same for commented templates in files of any type, in terms of the template's own holder, licence and lines |
| LicenseVerdicts.UpstreamFileJudged | cmd/nrlicense/header.go:398-421 | a Go file with the upstream project's header is accepted as unmodified and rejected as modified and as new |
| LicenseVerdicts.OwnFileJudged | cmd/nrlicense/header.go:398-421 | with New Relic's it is rejected as unmodified and accepted otherwise |
| LicenseVerdicts.OtherLicenseJudged | cmd/nrlicense/header.go:398-421 | with New Relic's copyright and another licence it is rejected for every status |
| LicenseVerdicts.NoticedExactly | cmd/nrlicense/header.go:473-482 | a licence is noticed iff one of the three phrases, in any case, ends within the first thousand characters |
| LicenseVerdicts.MarkShape | cmd/nrlicense/header.go:456-470 | a line marks a file as generated iff the notice comes after one to three characters and ends the line |
| LicenseVerdicts.GeneratedFilesAreLeftAlone | cmd/nrlicense/header.go:262-284 | such a file is left alone and accepted |
| LicenseBlocks.BlockFound | cmd/nrlicense/header.go:53-117 | the header in a Go block comment is found, with its holder and licence, and ends before the line that closes the comment |
| LicenseBlocks.BlockCommentIsTorn | cmd/nrlicense/header.go:309-355 | exchanging it leaves that line below the new header |
| LoadGenerator.StepConserves | testbed/testbed/load_generator.go:255-284 | every step keeps each item in exactly one place |
| LoadGenerator.StepNumbers | testbed/testbed/data_providers.go:66-91 | every step keeps the counters right and the numbers increasing |
| LoadGenerator.CountersBalance | testbed/testbed/load_generator.go:198-284 | in every interleaving sent is delivered plus permanent errors, abandoned, in flight and bypassed; nothing is in flight after the join |
| LoadGenerator.ItemsAreNumberedInOrder | testbed/testbed/data_providers.go:61-91 | the numbers handed out are 1 to sent, each once, iff no test bypassed the counter |
| LoadGenerator.NothingTwice | testbed/testbed/load_generator.go:264-283 | no item is delivered twice, or both delivered and given up |
| LoadGenerator.StepTraces | testbed/testbed/data_providers.go:61-91 | every step keeps each trace one batch, held by at most one worker, and full once it is let go |
| LoadGenerator.TracesAreBatches | testbed/testbed/data_providers.go:61-91 | in every interleaving the items of a trace are one full batch, unless a worker is still filling it |
| LoadGenerator.ErrorsAreCounted | testbed/testbed/load_generator.go:264-283 | in every interleaving the error counters are the failed attempts of their kind times the batch size |
| LoadGenerator.ProviderSender.GenerateTraces | testbed/testbed/data_providers.go:61-91 | a batch takes the next trace number and the next numbers of the shared counter |
| LoadGenerator.ProviderSender.ConsumeTraces | testbed/testbed/load_generator.go:264-283 | one attempt counts its error, and either ends with the batch where the answer says or leaves it with its worker |
| LoadGenerator.ProviderSender.GenerateTrace | testbed/testbed/load_generator.go:255-284 | one tick is a run of one worker's steps and ends in the place the last attempt decides |
| LogRetry.ConsumeLogs | internal/coreinternal/consumerretry/logs.go:40-121 | the calls form a chain in which each sends what the one before left, and the last one decides the result |
| LogRetry.Balance | internal/coreinternal/consumerretry/logs.go:63-120 | at every loop head accepted and pending records are the input plus what the consumer's answers misreport |
| LogRetry.DeliveredExactlyOnce | internal/coreinternal/consumerretry/logs.go:72-75 | after success a record was delivered as often as it was sent in iff the misreports cancel out |
| LogRetry.NothingLostOrDoubled | internal/coreinternal/consumerretry/logs.go:63-120 | with an honest consumer what was not delivered is exactly what was dropped, whatever the result |
| LogRetry.PlainErrorAfterTakingDoubles | internal/coreinternal/consumerretry/logs.go:86-88 | a call of the loop with a consumer that takes a batch and answers with a plain error delivers it twice |
| LogRetry.PlainErrorsMultiply | internal/coreinternal/consumerretry/logs.go:63-120 | with n plain errors after taking, and time for n retries, the loop succeeds and every record is delivered n + 1 times as often as it was sent in |
| LogRetry.OneByOne | internal/coreinternal/consumerretry/testutil.go:52-64 | with a consumer of one resource per call, call k sends the resources from k on |
| LogRetry.OneCallPerResource | internal/coreinternal/consumerretry/testutil.go:52-64 | unless stopped, n resources take n calls and arrive complete and in order |

## Left out

- Rounding, NaN and infinities of `float64`: values are reals. Conversion of an out-of-range float to `int64` is not part of the model.
- Go maps that are nil are empty maps. A group key, in the source the JSON text of its parts, is the tuple of those parts.
- Exemplars are opaque and are appended in order. Attributes, timestamps and flags are carried along.
- `useStartTime`, the aggregation and the map iteration orders are inputs. Filtering attributes and copying metric details have no part in the merge.
- The clock is an input, one time per evaluated resource; where the code reads it again within one evaluation, the model uses the same time. The random sweep, the context's cancellation and the answers of the next consumer are inputs too.
- A resource's identity, whether it is a zombie and whether it is on the include list are inputs; matching process names and paths is not modelled.
- Values of a resource's metrics are read as doubles; a histogram or summary is a metric of another kind.
- The details written to `process.atp`, the filtering summary, logging, statistics and tracing have no effect on verdicts and are left out, and so are loading, saving and storage paths. States with two value maps, as after a load, are covered by the theorems about runs.
- An input whose resources already carry a stage attribute is covered only as far as the contracts of `ProcessAllResources` say.
- SplitRoundTrip.RoundTripExactly: not for lists that hold both a double quote that is not escaped and a single quote; of those, SplitOfQuoted covers one direction.
- SplitStrings.RoundTrip: for fields without double quotes only; RoundTripExactly has the others.
- `ParseKeyValuePairs` and the other string helpers, which wrap library calls.
- Licence headers: characters beyond ASCII in case folding and trimming, file permissions, file status detection, the description line of the modified template (the laws hold for any template of the required shape).
- The load generator's 64-bit counters do not wrap in the model, and its senders, tick durations and the golden data provider are left out. Metrics and logs are numbered and sent by the same steps as traces.
- LoadGenerator.ProviderSender.GenerateTrace: the method is one tick that no other worker interrupts; the interleavings are those of the state machine, whose lemmas hold for all of them.
- LogRetry.ConsumeLogs: the backoff is the list of waits it allows, so a retry that never ends is covered only up to each of its loop heads.

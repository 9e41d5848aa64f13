# Canvas bin cleaning, target intersection and variant-filter defaults

This project is a Dafny model of three parts of the Canvas copy-number
pipeline and its shared workflow library.

**CanvasClean** takes the genomic bins of one sample and cleans them. A bin
is a window of a chromosome with a GC percentage and a read count. The
stages run in this order:
- point-outlier removal, a chi-squared test against same-chromosome
  neighbours;
- the size filter, which drops bins above the 98th percentile of bin size;
- local noise estimation, the FFPE measure: the standard deviation of count
  differences in windows of 20;
- GC correction, which is three steps: dropping bins whose GC bucket is too
  thinly populated, rescaling counts by their GC bucket's median, and, on
  very large inputs, variance stabilisation by GC bucket followed by a
  second median pass;
- the local noise filter.

The on-target selection restricts the statistics to the regions of a
targeted-sequencing manifest.

**CanvasRunner** contributes three pieces:
- the merge-join that clips partitioned bins to the manifest regions they
  overlap;
- the choice of the smallest alignment file;
- the concatenation of per-chromosome B-allele outputs under a single header
  line.

**VariantCallingFilterSettings** is the object that fills in the default
variant filters for a workflow and a variant caller.

The model follows the shape of the code:
- Bins are values (`Bins.Bin`).
- Stages that rewrite bins in place (`NormalizeByGC`, `NormalizeVarianceByGC`
  and the local-SD annotation) are methods over an `array<Bin>`. Their
  `ensures` tie the new array contents to a function of the old contents.
- Filters that build a new list are methods over sequences, each proved
  equal to a specification function.
- Properties of those functions are lemmas.
- The filter settings object is a class with the source's 27 fields. Its
  defaulting method is proved against a table (`FilterSettings.Defaulted`)
  that states the rule for every field.

Several things are passed in as parameters:
- The statistics helpers the pipeline calls but does not define: median,
  quartiles, weighted median and quantiles, standard deviation and MAD. They
  are carried as function values in `Bins.Stats`.
- The autosome test.
- File sizes.
- File contents, where a missing file is `None`.

Float and double arithmetic is modelled as exact `real` arithmetic.

### Where the code is followed

- **Size filter.** The cut is `sizes[(int)(0.98 * n)]`. For 100 bins of
  sizes 1..100 that is the size 99, so only the bin of size 100 is dropped
  (`Outliers.HundredBins`). Reading "98th percentile" as the size 98 would
  drop the bin of size 99 as well.
- **Variance stabilisation.** A count below the bucket median is reflected
  above it, because the second branch subtracts a negative deviation
  (`Variance.StabilizedAboveMedian`). It is not pulled towards the median
  from below, so the sign of the deviation is not preserved.
- **Local SD average.**
  - The loop stops two entries before the end of the window list.
  - A chromosome's value is recorded only when the chromosome changes, so
    the last run never contributes.
  - The value recorded per run is the MAD helper applied to that run.
  - When nothing is recorded, for example with a single chromosome,
    averaging the empty list throws (`LocalSd.SingleChromosomeHasNoAverage`).
  - The model returns `None` there, and the cleaning driver ends in
    `Crashed`.
- **Failures.** Empty inputs to the local-SD stages make the code fail
  (`new double[-1]`), and so does the quartile-list drift described under
  Findings. These are modelled as `None` or `Crashed` outcomes rather than
  as warnings.
- **Header de-duplication.** Only the first header line of the whole
  concatenation is kept, including further header lines of the first file
  (`RunnerHelpers.KeptHeaders`).

## Model

| member | source | states |
|---|---|---|
| OnTarget.SkipEnded | Src/Canvas/CanvasClean/CanvasClean.cs:86-89 | the region cursor only moves forward, every region skipped ends before the bin's 1-based start, and the region it stops at does not |
| OnTarget.Step | Src/Canvas/CanvasClean/CanvasClean.cs:72-89 | the cursor after a bin is consistent with the manifest and is on the bin's chromosome |
| OnTarget.Advance | Src/Canvas/CanvasClean/CanvasClean.cs:72-97 | the loop body moves the cursor as `Step` does and marks the bin off-target exactly when the cursor's region does not overlap it |
| OnTarget.GetOnTargetBins | Src/Canvas/CanvasClean/CanvasClean.cs:63-103 | the result is the scan's output: only bins of the input that overlap a manifest region, in input order; for sorted bins and a sorted manifest, exactly the overlapping bins |
| OnTarget.ScanStep | Src/Canvas/CanvasClean/CanvasClean.cs:70-101 | one pass of the loop: the bin at the cursor is yielded when its region overlaps it and the scan goes on from the cursor after it |
| OnTarget.OnTargetBinsMeaning | Src/Canvas/CanvasClean/CanvasClean.cs:63-103 | every selected bin overlaps a region and the selection is a subsequence; with sorted inputs it is the filter by overlap |
| OnTarget.ScanSound | Src/Canvas/CanvasClean/CanvasClean.cs:90-101 | every yielded bin is an input bin that overlaps a region |
| OnTarget.ScanIsSubseq | Src/Canvas/CanvasClean/CanvasClean.cs:70-101 | the scan only drops bins and keeps their order |
| OnTarget.StepDecides | Src/Canvas/CanvasClean/CanvasClean.cs:86-97 | with sorted regions and a cursor behind the bin, the bin is yielded if and only if it overlaps some region of its chromosome |
| OnTarget.ScanIsFilter | Src/Canvas/CanvasClean/CanvasClean.cs:63-103 | on sorted runs of bins and a sorted manifest the merge scan equals filtering by overlap |
| GcBuckets.Buckets | Src/Canvas/CanvasClean/CanvasClean.cs:113-118 | there is one count list per GC value, 101 in all |
| GcBuckets.GetCountsByGC | Src/Canvas/CanvasClean/CanvasClean.cs:111-130 | the per-GC lists and the global list hold the counts of the autosomal bins of the sample (on-target bins when there is a manifest), in order |
| GcBuckets.BucketAutosomal | Src/Canvas/CanvasClean/CanvasClean.cs:120-129 | the loop's lists are the buckets and counts of the autosomal bins of its source |
| GcBuckets.Tally | Src/Canvas/CanvasClean/CanvasClean.cs:122-128 | an autosomal bin adds its count to its own GC list and to the global list; any other bin changes nothing |
| GcBuckets.BucketSnoc | Src/Canvas/CanvasClean/CanvasClean.cs:125 | a new bin extends only the bucket of its own GC value |
| GcBuckets.BucketsSnoc | Src/Canvas/CanvasClean/CanvasClean.cs:125 | a new bin appends its count to exactly one bucket |
| GcBuckets.BucketsPartition | Src/Canvas/CanvasClean/CanvasClean.cs:120-129 | the bucket sizes add up to the sample size |
| GcBuckets.HalfPow | Src/Canvas/CanvasClean/CanvasClean.cs:218 | the weight at every radius lies in (0, 1] |
| GcBuckets.HalfPowIsInverse | Src/Canvas/CanvasClean/CanvasClean.cs:235 | the weight at radius r is exactly 1/2^r |
| GcBuckets.Tag | Src/Canvas/CanvasClean/CanvasClean.cs:227 | tagging a list with a weight keeps its length |
| GcBuckets.StopRadius | Src/Canvas/CanvasClean/CanvasClean.cs:219-223 | the loop stops at a radius no smaller than where it starts and at most 101, where the window is full or covers every bucket |
| GcBuckets.StopRadiusFirst | Src/Canvas/CanvasClean/CanvasClean.cs:219-223 | the loop stops at the first such radius |
| GcBuckets.GetWeightedCounts | Src/Canvas/CanvasClean/CanvasClean.cs:214-239 | the result is the window of buckets around `gcBin` out to the first radius where it holds 100 counts or covers every bucket |
| GcBuckets.Widen | Src/Canvas/CanvasClean/CanvasClean.cs:221-235 | one pass adds the buckets at distance `radius` on each side, tagged with weight 1/2^radius |
| GcBuckets.WindowStep | Src/Canvas/CanvasClean/CanvasClean.cs:221-235 | widening by one adds the upper bucket, then the lower one when it differs, each if it exists |
| GcBuckets.WindowHolds | Src/Canvas/CanvasClean/CanvasClean.cs:214-239 | every count of a bucket inside the radius is in the window, with the weight of its distance |
| GcBuckets.WindowOnlyNear | Src/Canvas/CanvasClean/CanvasClean.cs:214-239 | every entry of the window is a count of a bucket inside the radius, with the weight of its distance |
| GcBuckets.TargetFirst | Src/Canvas/CanvasClean/CanvasClean.cs:221-228 | the first pass adds the target bucket alone, with weight 1 |
| GcBuckets.WeightedCountsExhaustive | Src/Canvas/CanvasClean/CanvasClean.cs:219-223 | a result with fewer than 100 entries holds every count of every bucket |
| GcBuckets.StopsAtFirstRadius | Src/Canvas/CanvasClean/CanvasClean.cs:219-223 | before the stop radius the window holds fewer than 100 counts and some bucket at that radius exists |
| GcBuckets.WeightedCountsNonEmpty | Src/Canvas/CanvasClean/CanvasClean.cs:219-233 | the result is empty only when every bucket is empty |
| GcNormalize.GcMedianLocal | Src/Canvas/CanvasClean/CanvasClean.cs:259-270 | the median a GC bucket is divided by depends only on the buckets the fallback window reaches: two bucket tables that agree on every bucket closer than the stopping radius give the bucket the same median, its own median when it holds at least 100 counts and the weighted median of the same window otherwise |
| GcNormalize.Rescale | Src/Canvas/CanvasClean/CanvasClean.cs:274-278 | rescaling changes only the count, and leaves it alone when the median is missing or not positive |
| GcNormalize.Medians | Src/Canvas/CanvasClean/CanvasClean.cs:259-270 | there is one median per GC value |
| GcNormalize.DividedByMedians | Src/Canvas/CanvasClean/CanvasClean.cs:274-278 | the division keeps the number of bins |
| GcNormalize.NormalizedByGC | Src/Canvas/CanvasClean/CanvasClean.cs:246-281 | normalisation keeps the number of bins |
| GcNormalize.NormalizeByGC | Src/Canvas/CanvasClean/CanvasClean.cs:246-281 | the array afterwards is every bin rescaled by global median over the median of its GC bucket |
| GcNormalize.MediansByGC | Src/Canvas/CanvasClean/CanvasClean.cs:259-270 | the first loop fills the median table, one entry per GC value |
| GcNormalize.DivideByMedians | Src/Canvas/CanvasClean/CanvasClean.cs:273-278 | the second loop rewrites every bin as the division by its bucket median specifies |
| GcNormalize.MedianMapsToGlobal | Src/Canvas/CanvasClean/CanvasClean.cs:277-278 | a count equal to its bucket's positive median becomes the global median |
| GcNormalize.RescaleMonotone | Src/Canvas/CanvasClean/CanvasClean.cs:277-278 | within a bucket the rescaling keeps the order of counts |
| GcNormalize.DivideIdentity | Src/Canvas/CanvasClean/CanvasClean.cs:274-278 | dividing by medians that equal the global median, or are missing, changes nothing |
| GcNormalize.NormalizeIdentity | Src/Canvas/CanvasClean/CanvasClean.cs:246-281 | when every bucket median is the global median or missing, normalisation is the identity |
| GcNormalize.NormalizedKeepsSites | Src/Canvas/CanvasClean/CanvasClean.cs:246-281 | normalisation rewrites counts only: coordinates, GC and order are kept |
| GcNormalize.EffectiveThreshold | Src/Canvas/CanvasClean/CanvasClean.cs:310-311 | the threshold used never exceeds the requested one, and when lower it is at least `minW` and the average per bucket |
| GcNormalize.Histogram | Src/Canvas/CanvasClean/CanvasClean.cs:297-308 | the histogram has one entry per GC value |
| GcNormalize.CountByGC | Src/Canvas/CanvasClean/CanvasClean.cs:296-308 | the counting loop builds the histogram of the autosomal sample and its total |
| GcNormalize.KeepPopulated | Src/Canvas/CanvasClean/CanvasClean.cs:312-319 | the second loop keeps exactly the bins whose bucket count reaches the threshold, in order |
| GcNormalize.RemoveBinsWithExtremeGC | Src/Canvas/CanvasClean/CanvasClean.cs:292-322 | the result is a subsequence of the input and holds a bin if and only if its GC bucket in the sample reaches the effective threshold |
| GcNormalize.HistogramTotal | Src/Canvas/CanvasClean/CanvasClean.cs:296-311 | the histogram's entries are the bucket sizes and add up to the sample size |
| Variance.LocalIqr | Src/Canvas/CanvasClean/CanvasClean.cs:153-171 | the IQR of a non-empty bucket is never negative when the quartile helpers are ordered |
| Variance.LocalIqrs | Src/Canvas/CanvasClean/CanvasClean.cs:153-171 | there is one IQR per GC value |
| Variance.QuartileList | Src/Canvas/CanvasClean/CanvasClean.cs:153-171 | after `n` buckets the code's quartile list holds at most `n` entries |
| Variance.LocalTables | Src/Canvas/CanvasClean/CanvasClean.cs:153-171 | when built without failing, the tables hold one IQR per GC value |
| Variance.BuildLocalTables | Src/Canvas/CanvasClean/CanvasClean.cs:147-171 | the loop completes exactly when no read falls off the quartile list, and then yields the code's tables |
| Variance.TablesStep | Src/Canvas/CanvasClean/CanvasClean.cs:155-170 | one pass fails exactly at a populated bucket whose position is missing from the list, and otherwise appends as the code does |
| Variance.StabilizeBin | Src/Canvas/CanvasClean/CanvasClean.cs:186-196 | rescaling a bin keeps its coordinates, and fails only when its GC position is missing from the quartile list |
| Variance.StabilizeAll | Src/Canvas/CanvasClean/CanvasClean.cs:184-197 | the rescaling loop keeps the number of bins |
| Variance.StabilizeAllSites | Src/Canvas/CanvasClean/CanvasClean.cs:184-197 | the rescaling loop neither drops, adds nor moves a bin |
| Variance.StabilizeAllPointwise | Src/Canvas/CanvasClean/CanvasClean.cs:186-197 | after a complete run, every bin is rewritten as the one-bin rule says |
| Variance.StabilizeAllStep | Src/Canvas/CanvasClean/CanvasClean.cs:186-197 | a failing bin stops the loop with the rest unchanged, and a successful one moves into the rewritten prefix |
| Variance.VarianceFrom | Src/Canvas/CanvasClean/CanvasClean.cs:143-203 | a run that does not rescale leaves the bins as they were, and no run adds, drops or moves a bin |
| Variance.NormalizeVarianceByGC | Src/Canvas/CanvasClean/CanvasClean.cs:136-204 | the outcome and the new array are those of the specification on the sample's buckets |
| Variance.Rebalance | Src/Canvas/CanvasClean/CanvasClean.cs:145-203 | the body after bucketing matches the specification: tables, significance test, rescaling, and the failure outcome |
| Variance.Rescaled | Src/Canvas/CanvasClean/CanvasClean.cs:175-203 | once the tables are built, a run without a significant GC value leaves the bins as they were, and no run adds, drops or moves a bin |
| Variance.RescaleBins | Src/Canvas/CanvasClean/CanvasClean.cs:175-203 | the significance count and the rescaling loop leave the outcome and the bins that `Rescaled` specifies |
| Variance.CountSignificant | Src/Canvas/CanvasClean/CanvasClean.cs:175-181 | the counter is positive if and only if some GC value in 10..89 has an IQR above half the global IQR |
| Variance.StabilizeOne | Src/Canvas/CanvasClean/CanvasClean.cs:188-195 | the loop body rewrites one bin as the one-bin rule says, or reports the out-of-range read |
| Variance.StabilizeCounts | Src/Canvas/CanvasClean/CanvasClean.cs:186-197 | the array and the completion flag are those of the rescaling loop |
| Variance.StabilizedAboveMedian | Src/Canvas/CanvasClean/CanvasClean.cs:190-195 | both branches leave the count at or above the bucket median |
| Variance.StabilizedDistance | Src/Canvas/CanvasClean/CanvasClean.cs:189-195 | the distance to the median is divided by 0.8 times the IQR ratio |
| Variance.FixedQuartiles | Src/Canvas/CanvasClean/CanvasClean.cs:153-171 | the corrected table has one quartile entry per GC value |
| Variance.BuildLocalTablesFixed | Src/Canvas/CanvasClean/CanvasClean.cs:153-171 | the corrected loop yields the IQR table and one quartile entry per GC value |
| Variance.FixedTablesNeverThrow | Src/Canvas/CanvasClean/CanvasClean.cs:186-197 | with the corrected table the rescaling loop always completes |
| Variance.NoDriftWhenPopulated | Src/Canvas/CanvasClean/CanvasClean.cs:153-171 | when every bucket is empty or holds at least 100 counts, the code's list equals the corrected table |
| Variance.DriftThrows | Src/Canvas/CanvasClean/CanvasClean.cs:153-171 | a one-count bucket followed by a full bucket makes the code read past the end of its quartile list |
| LocalSd.CountDiffs | Src/Canvas/CanvasClean/CanvasClean.cs:362-368 | there is one difference per adjacent pair of bins |
| LocalSd.WindowCountMeaning | Src/Canvas/CanvasClean/CanvasClean.cs:376 | window k is processed if and only if its end lies strictly before the end of the differences |
| LocalSd.WindowSds | Src/Canvas/CanvasClean/CanvasClean.cs:376-380 | there is one SD per processed window |
| LocalSd.WindowSdsAt | Src/Canvas/CanvasClean/CanvasClean.cs:376-378 | window k's SD is the helper's SD over differences 20k to 20k+20 |
| LocalSd.NextWindow | Src/Canvas/CanvasClean/CanvasClean.cs:375-379 | a window whose end lies inside the differences is visited, and its SD extends the SD list |
| LocalSd.LocalSds | Src/Canvas/CanvasClean/CanvasClean.cs:374-380 | there is one SD per window the loop processes |
| LocalSd.WindowChroms | Src/Canvas/CanvasClean/CanvasClean.cs:374-380 | there is one chromosome label per window the loop processes |
| LocalSd.Annotated | Src/Canvas/CanvasClean/CanvasClean.cs:376-385 | annotation keeps the number of bins |
| LocalSd.WindowOfSpan | Src/Canvas/CanvasClean/CanvasClean.cs:376-384 | bin j belongs to window k if and only if it lies in [20k, 20k+20) |
| LocalSd.AnnotatedKeepsCounts | Src/Canvas/CanvasClean/CanvasClean.cs:376-385 | annotation changes neither sites nor counts |
| LocalSd.StampedInWindow | Src/Canvas/CanvasClean/CanvasClean.cs:381-384 | a bin inside window k carries window k's SD |
| LocalSd.StampRange | Src/Canvas/CanvasClean/CanvasClean.cs:381-384 | stamping a range keeps the number of bins |
| LocalSd.Stamp | Src/Canvas/CanvasClean/CanvasClean.cs:381-384 | the inner loop writes the SD into exactly the bins of the window |
| LocalSd.StampNextWindow | Src/Canvas/CanvasClean/CanvasClean.cs:378-384 | one pass of the outer loop returns window k's SD and stamps window k |
| LocalSd.StampWindows | Src/Canvas/CanvasClean/CanvasClean.cs:374-385 | the window loop leaves the annotated bins and returns the SD and chromosome lists |
| LocalSd.CountDiffsOf | Src/Canvas/CanvasClean/CanvasClean.cs:362-368 | the differences array is next count minus count |
| LocalSd.AnnotateLocalSd | Src/Canvas/CanvasClean/CanvasClean.cs:357-385 | on a non-empty array the bins are annotated and the window lists returned; an empty array is the failure case |
| LocalSd.SdScanCount | Src/Canvas/CanvasClean/CanvasClean.cs:334-345 | one value is recorded per chromosome change the loop sees |
| LocalSd.SdScanRun | Src/Canvas/CanvasClean/CanvasClean.cs:334-345 | the running list holds exactly the values since the last change of chromosome |
| LocalSd.LocalSdAverage | Src/Canvas/CanvasClean/CanvasClean.cs:328-347 | an average exists if and only if the list has at least two entries and the loop sees a change of chromosome |
| LocalSd.LocalStandardDeviation | Src/Canvas/CanvasClean/CanvasClean.cs:328-347 | the loop and the averaging compute the specified average |
| LocalSd.SingleChromosomeHasNoAverage | Src/Canvas/CanvasClean/CanvasClean.cs:328-347 | a single chromosome yields no average, where the code's averaging fails |
| LocalSd.GetLocalStandardDeviation | Src/Canvas/CanvasClean/CanvasClean.cs:357-390 | the estimate is the average over the window SDs, and a non-empty array is left annotated |
| LocalSd.KeepQuiet | Src/Canvas/CanvasClean/CanvasClean.cs:430-437 | the loop keeps exactly the bins that are not both noisy and in a noisy sample, in order |
| LocalSd.RemoveBinsWithExtremeLocalSD | Src/Canvas/CanvasClean/CanvasClean.cs:400-439 | the result is the annotated bins filtered by the noise rule, and the array is left annotated |
| LocalSd.QuietSampleKeepsAll | Src/Canvas/CanvasClean/CanvasClean.cs:433-435 | a sample with average local SD of at most 5 loses no bin |
| LocalSd.NoisySampleKeepsQuietBins | Src/Canvas/CanvasClean/CanvasClean.cs:433-436 | in a noisy sample a bin is kept if and only if its window SD is at most twice the threshold |
| LocalSd.LocalSdFilterKeepsSites | Src/Canvas/CanvasClean/CanvasClean.cs:400-439 | the filter's sites are a subsequence of its input's |
| Outliers.ChiSquaredClosedForm | Src/Canvas/CanvasClean/CanvasClean.cs:480-498 | the test is (a-b)^2/(a+b) > 6.635 |
| Outliers.SignificanceSymmetric | Src/Canvas/CanvasClean/CanvasClean.cs:480-498 | the test is symmetric in its arguments |
| Outliers.EqualCountsAgree | Src/Canvas/CanvasClean/CanvasClean.cs:480-498 | equal counts are never significantly different |
| Outliers.SignificanceExamples | Src/Canvas/CanvasClean/CanvasClean.cs:480-498 | 1000 against 10 differs; 100 against 105 does not |
| Outliers.KeptIndices | Src/Canvas/CanvasClean/CanvasClean.cs:509-527 | kept positions lie among the positions examined |
| Outliers.RemoveOutliers | Src/Canvas/CanvasClean/CanvasClean.cs:504-530 | the loop returns the specified selection of bins |
| Outliers.KeptPrefixPositions | Src/Canvas/CanvasClean/CanvasClean.cs:509-527 | the selection embeds at increasing positions, which are exactly the positions that pass the keep rule |
| Outliers.WithoutOutliersMeaning | Src/Canvas/CanvasClean/CanvasClean.cs:504-530 | the output is exactly the input bins that pass the keep rule, in order |
| Outliers.LoneBinDropped | Src/Canvas/CanvasClean/CanvasClean.cs:516-518 | an inner bin with another chromosome on both sides is dropped |
| Outliers.Sizes | Src/Canvas/CanvasClean/CanvasClean.cs:449-450 | the size list holds each bin's size in bin order |
| Outliers.Insert | Src/Canvas/CanvasClean/CanvasClean.cs:452 | insertion adds one element |
| Outliers.Sort | Src/Canvas/CanvasClean/CanvasClean.cs:452 | sorting keeps the length |
| Outliers.InsertKeepsOrder | Src/Canvas/CanvasClean/CanvasClean.cs:452 | inserting into an ascending list keeps it ascending |
| Outliers.InsertPermutes | Src/Canvas/CanvasClean/CanvasClean.cs:452 | insertion adds exactly the new element to the multiset |
| Outliers.SortIsSorted | Src/Canvas/CanvasClean/CanvasClean.cs:452 | the sorted sizes are ascending and a permutation of the sizes |
| Outliers.SortOfAscending | Src/Canvas/CanvasClean/CanvasClean.cs:452 | sorting an ascending list changes nothing |
| Outliers.RemoveBigBins | Src/Canvas/CanvasClean/CanvasClean.cs:445-472 | the method returns the specified size-filtered bins |
| Outliers.SizeCutExists | Src/Canvas/CanvasClean/CanvasClean.cs:454-461 | the percentile index is out of range only for an empty list |
| Outliers.BigBinsCut | Src/Canvas/CanvasClean/CanvasClean.cs:445-472 | the cut is one of the sizes; a bin survives if and only if its size is at most the cut; the output is a subsequence with at least index+1 bins |
| Outliers.Survivors | Src/Canvas/CanvasClean/CanvasClean.cs:454-470 | at least (int)(0.98n)+1 bins survive |
| Outliers.IncreasingSizesKeepPrefix | Src/Canvas/CanvasClean/CanvasClean.cs:445-472 | with strictly increasing sizes the filter keeps exactly the first (int)(0.98n)+1 bins |
| Outliers.KeepsPrefix | Src/Canvas/CanvasClean/CanvasClean.cs:464-470 | when exactly a prefix fits under the cut, the filter returns that prefix |
| Outliers.HundredBins | Src/Canvas/CanvasClean/CanvasClean.cs:445-472 | for sizes 1..100 the cut is 99 and the first 99 bins are kept |
| CleanPipeline.Clean | Src/Canvas/CanvasClean/CanvasClean.cs:580-632 | the driver runs the stages in the code's order and under the code's conditions, returning the specified outcome |
| CleanPipeline.CorrectGc | Src/Canvas/CanvasClean/CanvasClean.cs:600-623 | the GC block returns the specified correction: untouched when nothing survives the GC filter; variance stabilisation only above 500000 bins; a second median pass only after rescaling |
| CleanPipeline.NothingRequestedNothingChanges | Src/Canvas/CanvasClean/CanvasClean.cs:580-632 | with no stage switched on the bins come back unchanged |
| CleanPipeline.GcCorrectedKeepsSites | Src/Canvas/CanvasClean/CanvasClean.cs:600-623 | GC correction only drops bins: the output's sites are a subsequence of the input's |
| CleanPipeline.CleanedSitesSubseq | Src/Canvas/CanvasClean/CanvasClean.cs:580-632 | for any switches, a cleaned run only drops bins and never moves or re-sites one |
| CleanPipeline.FilteredSubseq | Src/Canvas/CanvasClean/CanvasClean.cs:580-584 | the two outlier filters together only drop bins |
| Intersect.Clip | Src/Canvas/Canvas/CanvasRunner.cs:386-391 | the clipped record lies within both the bin and the region, each end coming from one of them, and it is non-empty when they overlap |
| Intersect.Skip | Src/Canvas/Canvas/CanvasRunner.cs:370-374 | the cursor only moves forward, and stops at the end of the list or at the first region ending at or after the record's 1-based start |
| Intersect.SkipPasses | Src/Canvas/Canvas/CanvasRunner.cs:370-374 | every region the skip loop passes ends before the record's 1-based start |
| Intersect.RunEnd | Src/Canvas/Canvas/CanvasRunner.cs:383-397 | the write loop only moves forward, and stops at the end of the list or at a region starting after the record's end |
| Intersect.RunEndCovers | Src/Canvas/Canvas/CanvasRunner.cs:383-397 | every region the write loop passes starts at or before the record's end |
| Intersect.RunOverlaps | Src/Canvas/Canvas/CanvasRunner.cs:370-397 | in a sorted region list, every region after one that ends at or after a position also ends at or after it |
| Intersect.First | Src/Canvas/Canvas/CanvasRunner.cs:364-374 | the first region written lies within the chromosome's regions |
| Intersect.Last | Src/Canvas/Canvas/CanvasRunner.cs:383-397 | the write loop ends between the first region and the end of the list |
| Intersect.Advance | Src/Canvas/Canvas/CanvasRunner.cs:364-397 | the cursor after a record is consistent and on the record's chromosome |
| Intersect.PiecesOf | Src/Canvas/Canvas/CanvasRunner.cs:383-397 | one clipped record is written per region in the run, in region order |
| Intersect.ScanUpTo | Src/Canvas/Canvas/CanvasRunner.cs:354-397 | the cursor stays consistent with the manifest |
| Intersect.Records | Src/Canvas/Canvas/CanvasRunner.cs:390-394 | one line is written per piece |
| Intersect.IntersectBinsWithTargetedRegions | Src/Canvas/Canvas/CanvasRunner.cs:354-397 | the lines written are the specified intersection of the partitioned bins with the manifest |
| Intersect.IntersectOne | Src/Canvas/Canvas/CanvasRunner.cs:360-397 | one record advances the cursor as specified; it writes nothing on a chromosome absent from the manifest, and otherwise writes its clips against the run of overlapping regions |
| Intersect.SkipRegions | Src/Canvas/Canvas/CanvasRunner.cs:370-374 | the skip loop stops where `Skip` says |
| Intersect.WriteRun | Src/Canvas/Canvas/CanvasRunner.cs:383-397 | the write loop stops where `RunEnd` says and writes the run's clipped records |
| Intersect.PiecesProvenance | Src/Canvas/Canvas/CanvasRunner.cs:354-397 | every line written is an earlier record on a manifest chromosome, clipped to one of its regions that starts no later than the record ends |
| Intersect.RunOrder | Src/Canvas/Canvas/CanvasRunner.cs:354-397 | output comes in record order, and within a chromosome run in strictly increasing region order |
| Intersect.BinsBelow | Src/Canvas/Canvas/CanvasRunner.cs:354-397 | after n records every piece comes from one of those records |
| Intersect.PiecesOverlap | Src/Canvas/Canvas/CanvasRunner.cs:370-397 | with a sorted manifest every region written against ends at or after the record's 1-based start, so the two overlap |
| Intersect.CursorMoves | Src/Canvas/Canvas/CanvasRunner.cs:364-374 | the region index resets on a new chromosome and never moves back within a chromosome |
| Intersect.DroppedRecord | Src/Canvas/Canvas/CanvasRunner.cs:375-379 | a record writes nothing if and only if the cursor ran off the regions or the record ends before the next region starts |
| RunnerHelpers.SmallestFile | Src/Canvas/Canvas/CanvasRunner.cs:44-58 | no path exactly for an empty list; otherwise the first of the files of least size |
| RunnerHelpers.FirstSmallestUnique | Src/Canvas/Canvas/CanvasRunner.cs:51 | the strict comparison makes the chosen file unique |
| RunnerHelpers.ConcatenateResults | Src/Canvas/Canvas/CanvasRunner.cs:443-463 | the output is the existing files' lines concatenated, each header line dropped after the first |
| RunnerHelpers.CopyFile | Src/Canvas/Canvas/CanvasRunner.cs:453-463 | the reading loop extends the output and the header flag as the specification does over the lines so far |
| RunnerHelpers.KeptSnoc | Src/Canvas/Canvas/CanvasRunner.cs:455-462 | one more line: a header after the first is dropped, any other line is appended, and a header marks the header as written |
| RunnerHelpers.KeptBodies | Src/Canvas/Canvas/CanvasRunner.cs:457-462 | every non-header line is kept, in order |
| RunnerHelpers.KeptHeaders | Src/Canvas/Canvas/CanvasRunner.cs:457-461 | the output holds exactly one header line, the first one of the input, when the input has any |
| RunnerHelpers.KeptSubseq | Src/Canvas/Canvas/CanvasRunner.cs:443-463 | the output is a subsequence of the concatenated input |
| RunnerHelpers.NoHeadersKeptWhole | Src/Canvas/Canvas/CanvasRunner.cs:457-462 | input without header lines passes through unchanged |
| FilterSettings.VariantCallingFilterSettings.constructor | Src/Isas.Shared/VariantCallingFilterSettings.cs:10-40 | a new object holds the field initialisers |
| FilterSettings.VariantCallingFilterSettings.Copy | Src/Isas.Shared/VariantCallingFilterSettings.cs:43-46 | the copy holds the same values as the original |
| FilterSettings.VariantCallingFilterSettings.Clone | Src/Isas.Shared/VariantCallingFilterSettings.cs:43-46 | the clone is a new object with the same values |
| FilterSettings.VariantCallingFilterSettings.SetDefaultVariantFilters | Src/Isas.Shared/VariantCallingFilterSettings.cs:52-208 | each setting the method writes ends as its rule gives it from the old value and the callers; the settings after the throw point keep their old values when the caller is unknown, and `ok` says whether the run completed |
| FilterSettings.TableFromFields | Src/Isas.Shared/VariantCallingFilterSettings.cs:52-208 | new settings that follow every rule as the method promises, with the other fourteen settings unchanged, are exactly the defaulting table `Defaulted` |
| FilterSettings.CompletesForKnownCallers | Src/Isas.Shared/VariantCallingFilterSettings.cs:80-126 | the defaulting completes if and only if the caller is one of the four known ones |
| FilterSettings.UnknownCallerPartialState | Src/Isas.Shared/VariantCallingFilterSettings.cs:56-126 | an unknown caller leaves only the single-strand flag and, with a positive configured GQ, the GQ and indel cutoffs changed |
| FilterSettings.GqCutoffRule | Src/Isas.Shared/VariantCallingFilterSettings.cs:73-95 | the GQ cutoff is the configured one when positive, else 30 for Somatic and 0 for the others |
| FilterSettings.IndelRepeatRule | Src/Isas.Shared/VariantCallingFilterSettings.cs:97-111 | the indel repeat cutoff is the configured one when non-negative, else 8 for Somatic and 0 for the others |
| FilterSettings.SentinelGuarded | Src/Isas.Shared/VariantCallingFilterSettings.cs:128-185 | a guarded setting already non-negative is never overwritten, and a completed run leaves the frequency emit, QD and GQX cutoffs non-negative |
| FilterSettings.Overrides | Src/Isas.Shared/VariantCallingFilterSettings.cs:113-207 | a completed run sets the frequency filter, the minimum Q score and the region-of-interest flag whatever they were |
| FilterSettings.StrandSettings | Src/Isas.Shared/VariantCallingFilterSettings.cs:55-191 | strand bias ends at 10 for Starling, 0.5 for Somatic, unchanged otherwise; the single-strand filter follows the workflow's caller |
| FilterSettings.UntouchedFields | Src/Isas.Shared/VariantCallingFilterSettings.cs:10-40 | the fourteen settings the method does not mention keep their values |
| FilterSettings.Idempotent | Src/Isas.Shared/VariantCallingFilterSettings.cs:52-208 | defaulting twice with the same arguments gives the same result as once |
| FilterSettings.FreshStarling | Src/Isas.Shared/VariantCallingFilterSettings.cs:10-208 | a new object defaulted for Starling with nothing configured gets exactly the Starling defaults: strand bias 10, GQX 30, Q score 17, frequency emit 0.1, and zero GQ, indel, frequency filter and QD cutoffs |

## Left out

- Reading and writing files is not modelled: the text and gzip formats, tab splitting, `int.Parse`, and writing the local SD file. Bins and partitioned records are given already parsed, so a malformed line is not modelled. The local SD estimate is returned in the driver's outcome rather than written.
- `Outliers.Size`: a bin's genomic size is taken as `stop - start`, the length of its 0-based half-open interval. The bin class that defines `Size` is not part of this model; the size filter at Src/Canvas/CanvasClean/CanvasClean.cs:450 and :468 only reads it. A size defined as `stop - start + 1` would shift every size by one and keep the same bins, but the sizes in `Outliers.HundredBins` would then describe bins one base shorter.
- Option parsing, help text, input-file checks, the debug histogram dump and all warnings printed to the console are not modelled.
- The statistics helpers of the shared utilities library are not part of this model. Median, quartiles, weighted median and quantiles, standard deviation and MAD are parameters in `Bins.Stats`. The only property assumed of them is that quartile helpers return a first quartile no greater than the third.
- The autosome test of the genome metadata is a parameter. So is the manifest, a map from chromosome to region list; parsing the manifest is not modelled.
- Float and double arithmetic, including the `(float)` and `(int)` casts, is modelled as exact real arithmetic.
  - `Outliers.PercentileIndex` computes the 98th-percentile index as `(98 * n) / 100` in place of the double product `(int)(0.98 * n)`.
  - A zero global IQR, which makes the ratio infinite in floating point, is modelled by its limit: the count lands on the median.
- `GetOnTargetBins` is a lazy iterator in the code. It is modelled as the sequence it yields.
- A bin's GC value is typed 0..100. A GC value outside that range, which would index past the 101-entry tables in the code, is not modelled.
- `RunnerHelpers.SmallestFile`: file sizes come from the parameter `fileSize`. File-system errors are not modelled.
- `RunnerHelpers.ConcatenateResults`: a missing output file is `None`. The error message printed for it is not modelled.
- The rest of the runner is not modelled: launching the per-chromosome jobs, command lines and paths.
- `FilterSettings.VariantCallingFilterSettings.SetDefaultVariantFilters`:
  - The workflow object is reduced to its configured variant caller, the parameter `workflowCaller`.
  - An enum value outside the four named callers is `Other(code)`.
  - The thrown exception is the result `ok == false`, with the fields as the code leaves them at the throw.
  - Each `if` or `switch` block of the body is one rule function (`SingleStrandRule`, `QualityEmitRule`, `QdRule` and so on), applied by one assignment in the code's order. The two strand bias blocks are `StarlingBiasRule` and `SomaticBiasRule`; `StrandBiasRule` is their combined effect.

## Findings

| source | as written | input that shows it | evidently intended | confidence | as-written member | corrected member |
|---|---|---|---|---|---|---|
| Src/Canvas/CanvasClean/CanvasClean.cs:153-171 | the weighted branch adds an IQR but no quartile entry, so after a thinly populated bucket the quartile list's positions no longer match GC values; the read at line 163 (and later at line 192) goes past the end of the list or reads another bucket's entry | bucket 0 with one count, bucket 1 with 100 counts, all other buckets empty: line 163 reads position 1 of a one-entry list | one quartile entry per GC value, the weighted branch storing the weighted quartiles of its window | medium; not executed | Variance.DriftThrows | Variance.FixedTablesNeverThrow |

The as-written tables are `Variance.LocalTables` and `Variance.BuildLocalTables`. The corrected ones are `Variance.FixedQuartiles` and `Variance.BuildLocalTablesFixed`. `Variance.NoDriftWhenPopulated` shows the two agree when every bucket is empty or holds at least 100 counts.

The cleaning driver models the code as it stands: in the failing case `CleanPipeline.Clean` ends in `Crashed`.

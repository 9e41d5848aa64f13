/**
 * Simple GC normalisation, which rescales each count by the median of its GC
 * bucket, and the GC-population filter, which drops bins whose GC bucket is
 * too thinly populated for that median to be trusted.
 */
module GcNormalize {
  import opened Util
  import opened Bins
  import opened GcBuckets

  /** The median a bucket's counts are divided by: the bucket's own median
      when it holds enough samples, otherwise the weighted median of its
      fallback window (which the helper may leave undefined). */
  function GcMedian(buckets: seq<seq<real>>, g: int, stats: Stats): (m: Option<real>)
    requires 0 <= g < |buckets|
    ensures |buckets[g]| >= DefaultMinBinsPerGc ==> m == Some(stats.median(buckets[g]))
  {
    if |buckets[g]| >= DefaultMinBinsPerGc then Some(stats.median(buckets[g]))
    else stats.weightedMedian(WeightedCountsOf(buckets, g))
  }

  /** The median of bucket `g` depends only on the buckets the fallback
      window reaches: two tables that agree on every bucket closer to `g`
      than the stopping radius give `g` the same median, whether `g` is
      well populated or not. */
  lemma GcMedianLocal(a: seq<seq<real>>, b: seq<seq<real>>, g: int, stats: Stats)
    requires 0 <= g < |a| == |b|
    requires forall j :: 0 <= j < |a| && (if j >= g then j - g else g - j) < StopRadius(a, g, 0) ==> a[j] == b[j]
    ensures GcMedian(a, g, stats) == GcMedian(b, g, stats)
  {
    var R := StopRadius(a, g, 0);
    assert !Stops(a, g, 0);
    assert a[g] == b[g];
    StopRadiusAgree(a, b, g, 0);
    WindowsAgree(a, b, g, R);
  }

  /** One bin after normalisation: its count is scaled by
      globalMedian / median when that median exists and is positive. */
  function Rescale(b: Bin, globalMedian: real, median: Option<real>): (r: Bin)
    ensures SiteOf(r) == SiteOf(b) && r.madOfDiffs == b.madOfDiffs
    ensures median.None? || median.value <= 0.0 ==> r == b
  {
    if median.Some? && median.value > 0.0 then b.(count := globalMedian * b.count / median.value) else b
  }

  /** What NormalizeByGC leaves in the bins: every bin, autosomal or not,
      rescaled by the median of its own GC bucket. */
  function NormalizedByGC(bins: seq<Bin>, manifest: Option<Manifest>, isAutosome: string -> bool, stats: Stats): (r: seq<Bin>)
    ensures |r| == |bins|
  {
    var sample := StatsSample(bins, manifest, isAutosome);
    DividedByMedians(bins, stats.median(Counts(sample)), Medians(Buckets(sample), stats))
  }

  /** Every bin rescaled by the median of its own GC value. */
  function DividedByMedians(bins: seq<Bin>, globalMedian: real, medians: seq<Option<real>>): (r: seq<Bin>)
    requires |medians| == NumberOfGcBins
    ensures |r| == |bins|
  {
    seq(|bins|, i requires 0 <= i < |bins| => Rescale(bins[i], globalMedian, medians[bins[i].gc]))
  }

  /** The medians NormalizeByGC divides by, one per GC value. */
  function Medians(buckets: seq<seq<real>>, stats: Stats): (r: seq<Option<real>>)
    ensures |r| == |buckets|
  {
    seq(|buckets|, g requires 0 <= g < |buckets| => GcMedian(buckets, g, stats))
  }

  method NormalizeByGC(a: array<Bin>, manifest: Option<Manifest>, isAutosome: string -> bool, stats: Stats)
    modifies a
    ensures a[..] == NormalizedByGC(old(a[..]), manifest, isAutosome, stats)
  {
    var countsByGC, counts := GetCountsByGC(a[..], manifest, isAutosome);
    var globalMedian := stats.median(counts);
    var medians := MediansByGC(countsByGC, stats);
    DivideByMedians(a, globalMedian, medians);
  }

  /** The first loop of NormalizeByGC: a median for every GC value. */
  method MediansByGC(countsByGC: seq<seq<real>>, stats: Stats) returns (medians: array<Option<real>>)
    ensures fresh(medians)
    ensures medians[..] == Medians(countsByGC, stats)
  {
    medians := new Option<real>[|countsByGC|];
    for g := 0 to |countsByGC|
      invariant forall h :: 0 <= h < g ==> medians[h] == GcMedian(countsByGC, h, stats)
    {
      if |countsByGC[g]| >= DefaultMinBinsPerGc {
        medians[g] := Some(stats.median(countsByGC[g]));
      } else {
        var weightedCounts := GetWeightedCounts(countsByGC, g);
        medians[g] := stats.weightedMedian(weightedCounts);
      }
    }
  }

  /** The second loop of NormalizeByGC: every bin rescaled by the median of
      its GC value. */
  method DivideByMedians(a: array<Bin>, globalMedian: real, medians: array<Option<real>>)
    requires medians.Length == NumberOfGcBins
    modifies a
    ensures a[..] == DividedByMedians(old(a[..]), globalMedian, medians[..])
  {
    ghost var after := DividedByMedians(a[..], globalMedian, medians[..]);
    for i := 0 to a.Length
      invariant forall j :: 0 <= j < i ==> a[j] == after[j]
      invariant forall j :: i <= j < a.Length ==> a[j] == old(a[j])
    {
      var median := medians[a[i].gc];
      assert after[i] == Rescale(a[i], globalMedian, median);
      if median.Some? && median.value > 0.0 {
        a[i] := a[i].(count := globalMedian * a[i].count / median.value);
      }
      assert a[i] == after[i];
    }
  }

  /** A bin whose count is exactly its bucket's (positive) median ends up at
      the global median: normalisation maps every bucket's centre to the same
      value. */
  lemma MedianMapsToGlobal(b: Bin, globalMedian: real, median: real)
    requires median > 0.0 && b.count == median
    ensures Rescale(b, globalMedian, Some(median)).count == globalMedian
  {
    calc {
      Rescale(b, globalMedian, Some(median)).count;
      globalMedian * median / median;
      { assert median / median == 1.0; }
      globalMedian;
    }
  }

  /** Within one bucket the rescaling keeps the order of the counts when the
      global median is not negative. */
  lemma RescaleMonotone(b: Bin, c: Bin, globalMedian: real, median: Option<real>)
    requires b.count <= c.count && globalMedian >= 0.0
    ensures Rescale(b, globalMedian, median).count <= Rescale(c, globalMedian, median).count
  {
    if median.Some? && median.value > 0.0 {
      var m := median.value;
      assert globalMedian * b.count <= globalMedian * c.count;
      assert globalMedian * b.count / m <= globalMedian * c.count / m;
    }
  }

  /** Dividing by medians that all equal the global median (or are
      undefined) changes nothing. */
  lemma DivideIdentity(bins: seq<Bin>, globalMedian: real, medians: seq<Option<real>>)
    requires |medians| == NumberOfGcBins
    requires forall g :: 0 <= g < NumberOfGcBins ==> medians[g].None? || medians[g] == Some(globalMedian)
    ensures DividedByMedians(bins, globalMedian, medians) == bins
  {
    var r := DividedByMedians(bins, globalMedian, medians);
    forall i | 0 <= i < |bins|
      ensures r[i] == bins[i]
    {
      var m := medians[bins[i].gc];
      if m.Some? && m.value > 0.0 {
        assert globalMedian * bins[i].count / globalMedian == bins[i].count;
      }
    }
  }

  /** When every bucket median is the global median (or undefined), the
      normalisation changes nothing. */
  lemma NormalizeIdentity(bins: seq<Bin>, manifest: Option<Manifest>, isAutosome: string -> bool, stats: Stats)
    requires var sample := StatsSample(bins, manifest, isAutosome);
             forall g :: 0 <= g < NumberOfGcBins ==>
               Medians(Buckets(sample), stats)[g].None? ||
               Medians(Buckets(sample), stats)[g] == Some(stats.median(Counts(sample)))
    ensures NormalizedByGC(bins, manifest, isAutosome, stats) == bins
  {
    var sample := StatsSample(bins, manifest, isAutosome);
    DivideIdentity(bins, stats.median(Counts(sample)), Medians(Buckets(sample), stats));
  }

  /** Normalisation rewrites counts only: every bin keeps its place, its
      coordinates and its GC value. */
  lemma NormalizedKeepsSites(bins: seq<Bin>, manifest: Option<Manifest>, isAutosome: string -> bool, stats: Stats)
    ensures Sites(NormalizedByGC(bins, manifest, isAutosome, stats)) == Sites(bins)
  {
    var r := NormalizedByGC(bins, manifest, isAutosome, stats);
    forall i | 0 <= i < |bins| ensures SiteOf(r[i]) == SiteOf(bins[i]) {
    }
  }

  /** The effective population threshold: the requested one, lowered to the
      larger of `minW` and the average number of sampled bins per bucket. */
  function EffectiveThreshold(threshold: int, minW: int, total: nat): (t: int)
    ensures t <= threshold
    ensures t == threshold || (t >= minW && t >= total / NumberOfGcBins)
  {
    var averageCountPerGC := if minW >= total / NumberOfGcBins then minW else total / NumberOfGcBins;
    if threshold <= averageCountPerGC then threshold else averageCountPerGC
  }

  /** The number of sampled bins with each GC value. */
  function Histogram(sample: seq<Bin>): (h: seq<int>)
    ensures |h| == NumberOfGcBins
  {
    seq(NumberOfGcBins, g requires 0 <= g < NumberOfGcBins => |Bucket(sample, g)|)
  }

  /** The population test: a bin is kept when its GC bucket holds at least
      `threshold` sampled bins. */
  function WellPopulated(hist: seq<int>, threshold: int): Bin -> bool
  {
    (b: Bin) => b.gc < |hist| && hist[b.gc] >= threshold
  }

  /** The bins RemoveBinsWithExtremeGC keeps. */
  function PopulatedBins(bins: seq<Bin>, threshold: int, minW: int, manifest: Option<Manifest>, isAutosome: string -> bool): seq<Bin>
  {
    var sample := StatsSample(bins, manifest, isAutosome);
    Filter(bins, WellPopulated(Histogram(sample), EffectiveThreshold(threshold, minW, |sample|)))
  }

  method RemoveBinsWithExtremeGC(bins: seq<Bin>, threshold: int, minW: int, manifest: Option<Manifest>, isAutosome: string -> bool)
    returns (stripped: seq<Bin>)
    ensures stripped == PopulatedBins(bins, threshold, minW, manifest, isAutosome)
    ensures IsSubseq(stripped, bins)
    ensures var sample := StatsSample(bins, manifest, isAutosome);
            forall b :: b in stripped <==>
              b in bins && |Bucket(sample, b.gc)| >= EffectiveThreshold(threshold, minW, |sample|)
  {
    var source := bins;
    if manifest.Some? {
      source := OnTarget.GetOnTargetBins(bins, manifest.value);
    }
    var counts, totalCount := CountByGC(source, isAutosome);
    var averageCountPerGC := if minW >= totalCount / NumberOfGcBins then minW else totalCount / NumberOfGcBins;
    var thresh := if threshold <= averageCountPerGC then threshold else averageCountPerGC;
    stripped := KeepPopulated(bins, counts, thresh);
    ghost var populated := WellPopulated(counts[..], thresh);
    FilterIsSubseq(bins, populated);
    forall b ensures b in stripped <==> b in bins && populated(b) {
      FilterMembership(bins, populated, b);
    }
  }

  /** The histogram loop of RemoveBinsWithExtremeGC: how many autosomal bins
      of `source` carry each GC value, and how many there are in all. */
  method CountByGC(source: seq<Bin>, isAutosome: string -> bool) returns (counts: array<int>, totalCount: int)
    ensures fresh(counts)
    ensures counts[..] == Histogram(Filter(source, Autosomal(isAutosome)))
    ensures totalCount == |Filter(source, Autosomal(isAutosome))|
  {
    ghost var keep := Autosomal(isAutosome);
    counts := new int[NumberOfGcBins](g => 0);
    totalCount := 0;
    for i := 0 to |source|
      invariant forall g :: 0 <= g < NumberOfGcBins ==> counts[g] == |Bucket(Filter(source[..i], keep), g)|
      invariant totalCount == |Filter(source[..i], keep)|
    {
      var bin := source[i];
      TallyStep(source, isAutosome, i);
      if !isAutosome(bin.chrom) {
        continue;
      }
      counts[bin.gc] := counts[bin.gc] + 1;
      totalCount := totalCount + 1;
    }
    assert source[..|source|] == source;
  }

  /** One more source bin: an autosomal one joins the sample and its GC
      bucket, any other changes nothing. */
  lemma TallyStep(source: seq<Bin>, isAutosome: string -> bool, i: nat)
    requires i < |source|
    ensures !isAutosome(source[i].chrom) ==>
              Filter(source[..i + 1], Autosomal(isAutosome)) == Filter(source[..i], Autosomal(isAutosome))
    ensures isAutosome(source[i].chrom) ==>
              Filter(source[..i + 1], Autosomal(isAutosome)) == Filter(source[..i], Autosomal(isAutosome)) + [source[i]]
    ensures forall g :: 0 <= g < NumberOfGcBins ==>
              |Bucket(Filter(source[..i], Autosomal(isAutosome)) + [source[i]], g)| ==
              |Bucket(Filter(source[..i], Autosomal(isAutosome)), g)| + (if source[i].gc == g then 1 else 0)
  {
    var keep, seen, bin := Autosomal(isAutosome), Filter(source[..i], Autosomal(isAutosome)), source[i];
    assert source[..i + 1] == source[..i] + [bin];
    FilterSnoc(source[..i], bin, keep);
    assert keep(bin) == isAutosome(bin.chrom);
    forall g | 0 <= g < NumberOfGcBins
      ensures |Bucket(seen + [bin], g)| == |Bucket(seen, g)| + (if bin.gc == g then 1 else 0)
    {
      BucketSnoc(seen, bin, g);
    }
  }

  /** The filtering loop of RemoveBinsWithExtremeGC. */
  method KeepPopulated(bins: seq<Bin>, counts: array<int>, thresh: int) returns (stripped: seq<Bin>)
    ensures stripped == Filter(bins, WellPopulated(counts[..], thresh))
  {
    ghost var populated := WellPopulated(counts[..], thresh);
    stripped := [];
    for i := 0 to |bins|
      invariant stripped == Filter(bins[..i], populated)
    {
      var bin := bins[i];
      assert bins[..i + 1] == bins[..i] + [bin];
      FilterSnoc(bins[..i], bin, populated);
      if bin.gc >= counts.Length || counts[bin.gc] < thresh { continue; }
      stripped := stripped + [bin];
    }
    assert bins[..|bins|] == bins;
  }

  /** The sampled bins are spread over the buckets: the histogram adds up to
      the sample size that the average per bucket is taken from. */
  lemma HistogramTotal(sample: seq<Bin>)
    ensures SumSizes(Buckets(sample)) == |sample|
    ensures forall g :: 0 <= g < NumberOfGcBins ==> Histogram(sample)[g] == |Buckets(sample)[g]|
  {
    BucketsPartition(sample);
  }
}

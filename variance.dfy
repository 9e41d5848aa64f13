/**
 * Variance stabilisation by GC bucket: buckets whose interquartile range is
 * large against the genome-wide one have their counts pulled towards the
 * bucket median.
 *
 * The quartile table is modelled as the code builds it, entries skipped for
 * thinly populated buckets included, so GC values and list positions can
 * drift apart; a corrected table, one entry per GC value, is modelled beside
 * it.
 */
module Variance {
  import opened Util
  import opened Bins
  import opened GcBuckets

  /** The placeholder entries the code stores for an empty bucket. */
  const NoQuartiles := Quartiles(-1.0, -1.0, -1.0)

  /** The local IQR of bucket `g`: -1 when it is empty, the IQR of its own
      quartiles when it is well populated, and otherwise the IQR of the
      weighted quartiles of its fallback window. */
  function LocalIqr(buckets: seq<seq<real>>, g: int, stats: Stats): (iqr: real)
    requires 0 <= g < |buckets|
    ensures stats.Ordered() && |buckets[g]| > 0 ==> iqr >= 0.0
  {
    if |buckets[g]| == 0 then -1.0
    else if |buckets[g]| >= DefaultMinBinsPerGc then stats.quartiles(buckets[g]).q3 - stats.quartiles(buckets[g]).q1
    else
      var q := stats.weightedQuartiles(WeightedCountsOf(buckets, g));
      q.q3 - q.q1
  }

  function LocalIqrs(buckets: seq<seq<real>>, stats: Stats): (r: seq<real>)
    ensures |r| == |buckets|
  {
    seq(|buckets|, g requires 0 <= g < |buckets| => LocalIqr(buckets, g, stats))
  }

  /** The quartile list after the code has looked at buckets[..n]: an entry
      for each empty or well-populated bucket, none for the others. */
  function QuartileList(buckets: seq<seq<real>>, n: nat, stats: Stats): (r: seq<Quartiles>)
    requires n <= |buckets|
    ensures |r| <= n
  {
    if n == 0 then []
    else
      var bucket := buckets[n - 1];
      QuartileList(buckets, n - 1, stats)
      + (if |bucket| == 0 then [NoQuartiles]
         else if |bucket| >= DefaultMinBinsPerGc then [stats.quartiles(bucket)]
         else [])
  }

  /** At a well-populated bucket `g` the code reads list position `g` right
      after appending; that position is missing once an earlier bucket was
      skipped. */
  predicate ThrowsAt(buckets: seq<seq<real>>, g: int, stats: Stats)
    requires 0 <= g < |buckets|
  {
    |buckets[g]| >= DefaultMinBinsPerGc && |QuartileList(buckets, g, stats)| < g
  }

  /** The per-GC tables the rescaling reads. */
  datatype Tables = Tables(iqr: seq<real>, quartiles: seq<Quartiles>)

  /** The tables as the code builds them, or None when building them runs
      off the end of the quartile list. */
  function LocalTables(buckets: seq<seq<real>>, stats: Stats): (t: Option<Tables>)
    ensures t.Some? ==> |t.value.iqr| == |buckets|
  {
    if exists g :: 0 <= g < |buckets| && ThrowsAt(buckets, g, stats) then None
    else Some(Tables(LocalIqrs(buckets, stats), QuartileList(buckets, |buckets|, stats)))
  }

  /** The tables loop of NormalizeVarianceByGC. `ok` is false when the code
      throws. */
  method BuildLocalTables(countsByGC: seq<seq<real>>, stats: Stats)
    returns (ok: bool, localIQR: seq<real>, localQuartiles: seq<Quartiles>)
    ensures ok <==> LocalTables(countsByGC, stats).Some?
    ensures ok ==> LocalTables(countsByGC, stats) == Some(Tables(localIQR, localQuartiles))
  {
    localIQR := [];
    localQuartiles := [];
    for i := 0 to |countsByGC|
      invariant |localIQR| == i
      invariant forall g :: 0 <= g < i ==> localIQR[g] == LocalIqr(countsByGC, g, stats)
      invariant localQuartiles == QuartileList(countsByGC, i, stats)
      invariant forall g :: 0 <= g < i ==> !ThrowsAt(countsByGC, g, stats)
    {
      var iqr, throws;
      iqr, localQuartiles, throws := TablesStep(countsByGC, i, stats, localQuartiles);
      if throws {
        return false, localIQR, localQuartiles;
      }
      localIQR := localIQR + [iqr];
    }
    ok := true;
    assert localIQR == LocalIqrs(countsByGC, stats);
  }

  /** One pass of the tables loop: the IQR entry for bucket `i` and the
      quartile list after it, or `throws` when the read at position `i`
      falls off the list. */
  method TablesStep(countsByGC: seq<seq<real>>, i: nat, stats: Stats, quartiles0: seq<Quartiles>)
    returns (iqr: real, localQuartiles: seq<Quartiles>, throws: bool)
    requires i < |countsByGC| && quartiles0 == QuartileList(countsByGC, i, stats)
    ensures throws == ThrowsAt(countsByGC, i, stats)
    ensures !throws ==> iqr == LocalIqr(countsByGC, i, stats) && localQuartiles == QuartileList(countsByGC, i + 1, stats)
  {
    localQuartiles := quartiles0;
    throws := false;
    if |countsByGC[i]| == 0 {
      iqr := -1.0;
      localQuartiles := localQuartiles + [NoQuartiles];
    } else if |countsByGC[i]| >= DefaultMinBinsPerGc {
      localQuartiles := localQuartiles + [stats.quartiles(countsByGC[i])];
      if i >= |localQuartiles| {
        return 0.0, localQuartiles, true;
      }
      iqr := localQuartiles[i].q3 - localQuartiles[i].q1;
    } else {
      var weightedCounts := GetWeightedCounts(countsByGC, i);
      var quartiles := stats.weightedQuartiles(weightedCounts);
      iqr := quartiles.q3 - quartiles.q1;
    }
  }

  /** Whether some GC value in 10..89 has a local IQR above half the global
      one; only then are counts rescaled. */
  predicate Significant(iqr: seq<real>, globalIqr: real)
    requires |iqr| >= 90
  {
    exists i :: 10 <= i < 90 && globalIqr < iqr[i] * 2.0
  }

  /** The count of bin with GC bucket median `median` after stabilisation.
      A count above the median is pulled towards it, a count below it is
      reflected above it; with a zero global IQR the ratio is infinite in
      floating point and the count lands on the median. */
  function Stabilized(count: real, median: real, localIqr: real, globalIqr: real): real
    requires 0.0 <= globalIqr < localIqr * 0.8
  {
    if globalIqr == 0.0 then median
    else
      var ratioIQR := localIqr / globalIqr;
      if count > median then median + (count - median) / (ratioIQR * 0.8)
      else median - (count - median) / (ratioIQR * 0.8)
  }

  /** One bin through the rescaling loop, or None when the code reads past
      the end of the quartile list. */
  function StabilizeBin(b: Bin, t: Tables, globalIqr: real): (r: Option<Bin>)
    requires |t.iqr| == NumberOfGcBins && globalIqr >= 0.0
    ensures r.Some? ==> SiteOf(r.value) == SiteOf(b) && r.value.madOfDiffs == b.madOfDiffs
    ensures r.None? ==> b.gc >= |t.quartiles|
  {
    if globalIqr < t.iqr[b.gc] * 0.8 then
      if b.gc < |t.quartiles| then
        Some(b.(count := Stabilized(b.count, t.quartiles[b.gc].median, t.iqr[b.gc], globalIqr)))
      else None
    else Some(b)
  }

  /** The outcome of the rescaling loop: whether it ran to the end, and the
      bins as it left them. */
  datatype Run = Run(ok: bool, bins: seq<Bin>)

  /** The rescaling loop from the front: every bin rewritten until the first
      one that reads past the quartile list, which stops the loop. */
  function StabilizeAll(bins: seq<Bin>, t: Tables, globalIqr: real): (run: Run)
    requires |t.iqr| == NumberOfGcBins && globalIqr >= 0.0
    ensures |run.bins| == |bins|
  {
    if |bins| == 0 then Run(true, [])
    else
      match StabilizeBin(bins[0], t, globalIqr)
      case None => Run(false, bins)
      case Some(b) =>
        var rest := StabilizeAll(bins[1..], t, globalIqr);
        Run(rest.ok, [b] + rest.bins)
  }

  /** The rescaling loop neither drops, adds nor moves a bin. */
  lemma {:induction false} StabilizeAllSites(bins: seq<Bin>, t: Tables, globalIqr: real)
    requires |t.iqr| == NumberOfGcBins && globalIqr >= 0.0
    ensures Sites(StabilizeAll(bins, t, globalIqr).bins) == Sites(bins)
  {
    if |bins| > 0 && StabilizeBin(bins[0], t, globalIqr).Some? {
      var b := StabilizeBin(bins[0], t, globalIqr).value;
      var rest := StabilizeAll(bins[1..], t, globalIqr);
      StabilizeAllSites(bins[1..], t, globalIqr);
      assert Sites([b] + rest.bins) == [SiteOf(b)] + Sites(rest.bins);
      assert Sites(bins) == [SiteOf(bins[0])] + Sites(bins[1..]);
    }
  }

  /** The outcome of NormalizeVarianceByGC: whether it rescaled, or the
      out-of-range read that the drifting quartile list causes. */
  datatype VarianceOutcome = Normalized(rescaled: bool) | IndexOutOfRange

  /** What NormalizeVarianceByGC returns and leaves in the bins, given the
      GC buckets and the counts of its statistics sample. A run that does
      not rescale changes nothing; no run adds, drops or moves a bin. */
  function VarianceFrom(bins: seq<Bin>, buckets: seq<seq<real>>, counts: seq<real>, stats: Stats): (r: (VarianceOutcome, seq<Bin>))
    requires |buckets| == NumberOfGcBins && stats.Ordered()
    ensures r.0 == Normalized(false) ==> r.1 == bins
    ensures Sites(r.1) == Sites(bins)
  {
    match LocalTables(buckets, stats)
    case None => (IndexOutOfRange, bins)
    case Some(t) => Rescaled(bins, t, stats.quartiles(counts).q3 - stats.quartiles(counts).q1)
  }

  /** What NormalizeVarianceByGC does once its tables are built: nothing
      when no GC value in 10..89 is significant, the rescaling loop
      otherwise. */
  function Rescaled(bins: seq<Bin>, t: Tables, globalIqr: real): (r: (VarianceOutcome, seq<Bin>))
    requires |t.iqr| == NumberOfGcBins && globalIqr >= 0.0
    ensures r.0 == Normalized(false) ==> r.1 == bins
    ensures Sites(r.1) == Sites(bins)
  {
    if !Significant(t.iqr, globalIqr) then (Normalized(false), bins)
    else
      var run := StabilizeAll(bins, t, globalIqr);
      StabilizeAllSites(bins, t, globalIqr);
      (if run.ok then Normalized(true) else IndexOutOfRange, run.bins)
  }

  /** What NormalizeVarianceByGC returns and leaves in the bins. */
  function VarianceResult(bins: seq<Bin>, manifest: Option<Manifest>, isAutosome: string -> bool, stats: Stats): (VarianceOutcome, seq<Bin>)
    requires stats.Ordered()
  {
    var sample := StatsSample(bins, manifest, isAutosome);
    VarianceFrom(bins, Buckets(sample), Counts(sample), stats)
  }

  method NormalizeVarianceByGC(a: array<Bin>, manifest: Option<Manifest>, isAutosome: string -> bool, stats: Stats)
    returns (outcome: VarianceOutcome)
    requires stats.Ordered()
    modifies a
    ensures (outcome, a[..]) == VarianceResult(old(a[..]), manifest, isAutosome, stats)
  {
    var countsByGC, counts := GetCountsByGC(a[..], manifest, isAutosome);
    outcome := Rebalance(a, countsByGC, counts, stats);
  }

  /** NormalizeVarianceByGC once the sample has been bucketed. */
  method Rebalance(a: array<Bin>, countsByGC: seq<seq<real>>, counts: seq<real>, stats: Stats)
    returns (outcome: VarianceOutcome)
    requires |countsByGC| == NumberOfGcBins && stats.Ordered()
    modifies a
    ensures (outcome, a[..]) == VarianceFrom(old(a[..]), countsByGC, counts, stats)
  {
    var globalQuartiles := stats.quartiles(counts);
    var ok, localIQR, localQuartiles := BuildLocalTables(countsByGC, stats);
    if !ok {
      return IndexOutOfRange;
    }
    var globalIQR := globalQuartiles.q3 - globalQuartiles.q1;
    outcome := RescaleBins(a, Tables(localIQR, localQuartiles), globalIQR);
  }

  /** The significance count and, when it is positive, the rescaling loop. */
  method RescaleBins(a: array<Bin>, t: Tables, globalIQR: real) returns (outcome: VarianceOutcome)
    requires |t.iqr| == NumberOfGcBins && globalIQR >= 0.0
    modifies a
    ensures (outcome, a[..]) == Rescaled(old(a[..]), t, globalIQR)
  {
    var significantIQRcounter := CountSignificant(t.iqr, globalIQR);
    if significantIQRcounter > 0 {
      var done := StabilizeCounts(a, t, globalIQR);
      if !done {
        return IndexOutOfRange;
      }
    }
    outcome := Normalized(significantIQRcounter > 0);
  }

  /** The count of GC values in 10..89 whose local IQR exceeds half the
      global one. */
  method CountSignificant(localIQR: seq<real>, globalIQR: real) returns (significantIQRcounter: nat)
    requires |localIQR| >= 90
    ensures significantIQRcounter > 0 <==> Significant(localIQR, globalIQR)
  {
    significantIQRcounter := 0;
    for i := 10 to 90
      invariant significantIQRcounter > 0 <==> exists k :: 10 <= k < i && globalIQR < localIQR[k] * 2.0
    {
      if globalIQR < localIQR[i] * 2.0 {
        significantIQRcounter := significantIQRcounter + 1;
      }
    }
  }

  /** One bin through the rescaling loop. */
  method StabilizeOne(bin: Bin, t: Tables, globalIQR: real) returns (ok: bool, rescaled: Bin)
    requires |t.iqr| == NumberOfGcBins && globalIQR >= 0.0
    ensures ok == StabilizeBin(bin, t, globalIQR).Some?
    ensures ok ==> rescaled == StabilizeBin(bin, t, globalIQR).value
  {
    rescaled := bin;
    ok := true;
    var gc := bin.gc;
    if globalIQR < t.iqr[gc] * 0.8 {
      if gc >= |t.quartiles| {
        return false, bin;
      }
      var median := t.quartiles[gc].median;
      var count := bin.count;
      if globalIQR == 0.0 {
        count := median;
      } else {
        var ratioIQR := t.iqr[gc] / globalIQR;
        if count > median {
          count := median + (count - median) / (ratioIQR * 0.8);
        } else {
          count := median - (count - median) / (ratioIQR * 0.8);
        }
      }
      rescaled := bin.(count := count);
    }
  }

  /** The rescaling loop of NormalizeVarianceByGC. */
  method StabilizeCounts(a: array<Bin>, t: Tables, globalIQR: real) returns (ok: bool)
    requires |t.iqr| == NumberOfGcBins && globalIQR >= 0.0
    modifies a
    ensures Run(ok, a[..]) == StabilizeAll(old(a[..]), t, globalIQR)
  {
    ghost var s := a[..];
    for i := 0 to a.Length
      invariant a[i..] == s[i..]
      invariant StabilizeAll(s, t, globalIQR) == Glue(a[..i], StabilizeAll(s[i..], t, globalIQR))
    {
      var bin := a[i];
      ghost var prefix := a[..i];
      var done, rescaled := StabilizeOne(bin, t, globalIQR);
      StabilizeGlueStep(s, t, globalIQR, i, prefix);
      if !done {
        assert a[..] == prefix + s[i..];
        return false;
      }
      a[i] := rescaled;
      assert a[..i + 1] == prefix + [rescaled];
      assert a[i + 1..] == s[i + 1..];
    }
    assert a[..] == a[..a.Length] && s[a.Length..] == [];
    ok := true;
  }

  /** The rescaling loop's outcome with an already rewritten prefix put in
      front of it. */
  function Glue(prefix: seq<Bin>, run: Run): Run
  {
    Run(run.ok, prefix + run.bins)
  }

  /** The loop's invariant carried over position `i`: a rewritten bin joins
      the prefix, and a failing bin stops the loop with the rest unchanged. */
  lemma StabilizeGlueStep(s: seq<Bin>, t: Tables, globalIqr: real, i: int, prefix: seq<Bin>)
    requires |t.iqr| == NumberOfGcBins && globalIqr >= 0.0 && 0 <= i < |s|
    requires StabilizeAll(s, t, globalIqr) == Glue(prefix, StabilizeAll(s[i..], t, globalIqr))
    ensures StabilizeBin(s[i], t, globalIqr).None? ==> StabilizeAll(s, t, globalIqr) == Run(false, prefix + s[i..])
    ensures StabilizeBin(s[i], t, globalIqr).Some? ==>
              StabilizeAll(s, t, globalIqr) ==
              Glue(prefix + [StabilizeBin(s[i], t, globalIqr).value], StabilizeAll(s[i + 1..], t, globalIqr))
  {
    assert s[i..][0] == s[i] && s[i..][1..] == s[i + 1..];
    StabilizeAllStep(s[i..], t, globalIqr, prefix);
  }

  /** Rewriting the first bin of the rest moves it into the prefix, or stops
      the loop with the rest unchanged. */
  lemma StabilizeAllStep(rest: seq<Bin>, t: Tables, globalIqr: real, prefix: seq<Bin>)
    requires |t.iqr| == NumberOfGcBins && globalIqr >= 0.0 && |rest| > 0
    ensures StabilizeBin(rest[0], t, globalIqr).None? ==>
              Glue(prefix, StabilizeAll(rest, t, globalIqr)) == Run(false, prefix + rest)
    ensures StabilizeBin(rest[0], t, globalIqr).Some? ==>
              Glue(prefix, StabilizeAll(rest, t, globalIqr)) ==
              Glue(prefix + [StabilizeBin(rest[0], t, globalIqr).value], StabilizeAll(rest[1..], t, globalIqr))
  {
    if StabilizeBin(rest[0], t, globalIqr).Some? {
      var b := StabilizeBin(rest[0], t, globalIqr).value;
      assert prefix + ([b] + StabilizeAll(rest[1..], t, globalIqr).bins) == (prefix + [b]) + StabilizeAll(rest[1..], t, globalIqr).bins;
    }
  }

  /** Both branches of the rescaling leave the count at or above the bucket
      median. */
  lemma StabilizedAboveMedian(count: real, median: real, localIqr: real, globalIqr: real)
    requires 0.0 <= globalIqr < localIqr * 0.8
    ensures Stabilized(count, median, localIqr, globalIqr) >= median
  {
    if globalIqr != 0.0 {
      var k := localIqr / globalIqr * 0.8;
      assert k > 0.0 by {
        assert localIqr > 0.0;
      }
      if count > median {
        assert (count - median) / k > 0.0;
      } else {
        assert (median - count) / k >= 0.0;
        assert -(count - median) / k == (median - count) / k;
      }
    }
  }

  /** The rescaling shrinks the distance to the median by the factor
      0.8 * localIqr / globalIqr. */
  lemma StabilizedDistance(count: real, median: real, localIqr: real, globalIqr: real)
    requires 0.0 < globalIqr < localIqr * 0.8
    ensures var d := Stabilized(count, median, localIqr, globalIqr) - median;
            var k := 0.8 * (localIqr / globalIqr);
            d * k == (if count >= median then count - median else median - count)
  {
    var k := localIqr / globalIqr * 0.8;
    assert k > 0.0 by {
      assert localIqr > 0.0;
    }
    if count > median {
      assert ((count - median) / k) * k == count - median;
    } else {
      assert (-(count - median) / k) * k == median - count;
    }
  }

  /** A run that went through leaves every bin as StabilizeBin rewrites it. */
  lemma {:induction false} StabilizeAllPointwise(bins: seq<Bin>, t: Tables, globalIqr: real, i: int)
    requires |t.iqr| == NumberOfGcBins && globalIqr >= 0.0
    requires StabilizeAll(bins, t, globalIqr).ok && 0 <= i < |bins|
    ensures StabilizeBin(bins[i], t, globalIqr) == Some(StabilizeAll(bins, t, globalIqr).bins[i])
  {
    if i > 0 {
      StabilizeAllPointwise(bins[1..], t, globalIqr, i - 1);
    }
  }

  /** The entry the corrected table holds for bucket `g`: the bucket's own
      quartiles, the weighted quartiles of its fallback window, or the
      placeholder for an empty bucket. */
  function BucketQuartiles(buckets: seq<seq<real>>, g: int, stats: Stats): Quartiles
    requires 0 <= g < |buckets|
  {
    if |buckets[g]| == 0 then NoQuartiles
    else if |buckets[g]| >= DefaultMinBinsPerGc then stats.quartiles(buckets[g])
    else stats.weightedQuartiles(WeightedCountsOf(buckets, g))
  }

  /** The corrected quartile table: one entry per GC value. */
  function FixedQuartiles(buckets: seq<seq<real>>, stats: Stats): (r: seq<Quartiles>)
    ensures |r| == |buckets|
  {
    seq(|buckets|, g requires 0 <= g < |buckets| => BucketQuartiles(buckets, g, stats))
  }

  /** The corrected tables loop: the weighted branch also appends its
      quartiles, so list position and GC value agree. */
  method BuildLocalTablesFixed(countsByGC: seq<seq<real>>, stats: Stats)
    returns (localIQR: seq<real>, localQuartiles: seq<Quartiles>)
    ensures localIQR == LocalIqrs(countsByGC, stats)
    ensures localQuartiles == FixedQuartiles(countsByGC, stats)
  {
    localIQR := [];
    localQuartiles := [];
    for i := 0 to |countsByGC|
      invariant |localIQR| == |localQuartiles| == i
      invariant forall g :: 0 <= g < i ==> localIQR[g] == LocalIqr(countsByGC, g, stats)
      invariant forall g :: 0 <= g < i ==> localQuartiles[g] == BucketQuartiles(countsByGC, g, stats)
    {
      if |countsByGC[i]| == 0 {
        localIQR := localIQR + [-1.0];
        localQuartiles := localQuartiles + [NoQuartiles];
      } else if |countsByGC[i]| >= DefaultMinBinsPerGc {
        localQuartiles := localQuartiles + [stats.quartiles(countsByGC[i])];
        localIQR := localIQR + [localQuartiles[i].q3 - localQuartiles[i].q1];
      } else {
        var weightedCounts := GetWeightedCounts(countsByGC, i);
        var quartiles := stats.weightedQuartiles(weightedCounts);
        localQuartiles := localQuartiles + [quartiles];
        localIQR := localIQR + [quartiles.q3 - quartiles.q1];
      }
    }
    assert localIQR == LocalIqrs(countsByGC, stats);
  }

  /** With the corrected tables the rescaling loop always runs to the end
      and every bin is measured against its own bucket's median. */
  lemma {:induction false} FixedTablesNeverThrow(bins: seq<Bin>, buckets: seq<seq<real>>, stats: Stats, globalIqr: real)
    requires |buckets| == NumberOfGcBins && globalIqr >= 0.0
    ensures StabilizeAll(bins, Tables(LocalIqrs(buckets, stats), FixedQuartiles(buckets, stats)), globalIqr).ok
  {
    if |bins| > 0 {
      FixedTablesNeverThrow(bins[1..], buckets, stats, globalIqr);
    }
  }

  /** When every bucket is empty or well populated, the code's table is the
      corrected one: nothing throws and nothing drifts. */
  lemma {:induction false} NoDriftWhenPopulated(buckets: seq<seq<real>>, n: nat, stats: Stats)
    requires n <= |buckets|
    requires forall g :: 0 <= g < |buckets| ==> |buckets[g]| == 0 || |buckets[g]| >= DefaultMinBinsPerGc
    ensures QuartileList(buckets, n, stats) == FixedQuartiles(buckets, stats)[..n]
  {
    if n > 0 {
      NoDriftWhenPopulated(buckets, n - 1, stats);
    }
  }

  /** A bucket with one sample followed by a well-populated one makes the
      code read past the end of its quartile list. */
  lemma DriftThrows(stats: Stats)
    ensures var buckets := [[1.0], seq(DefaultMinBinsPerGc, i => 1.0)] + seq(NumberOfGcBins - 2, i => []);
            LocalTables(buckets, stats).None?
  {
    var buckets := [[1.0], seq(DefaultMinBinsPerGc, i => 1.0)] + seq(NumberOfGcBins - 2, i => []);
    assert buckets[1] == seq(DefaultMinBinsPerGc, i => 1.0);
    assert QuartileList(buckets, 1, stats) == [];
    assert ThrowsAt(buckets, 1, stats);
  }
}

/**
 * GC bucketing of autosomal counts, and the weighted fallback window that
 * stands in for a bucket with too few samples of its own.
 */
module GcBuckets {
  import opened Util
  import opened Bins
  import OnTarget

  /** The bins the GC statistics are computed from: the on-target bins when
      a manifest is given, otherwise all bins; autosomal ones only. */
  function StatsSample(bins: seq<Bin>, manifest: Option<Manifest>, isAutosome: string -> bool): seq<Bin>
  {
    var source := if manifest.None? then bins else OnTarget.OnTargetBins(bins, manifest.value);
    Filter(source, Autosomal(isAutosome))
  }

  /** The sample test: a bin is used when its chromosome is an autosome. */
  function Autosomal(isAutosome: string -> bool): Bin -> bool
  {
    (b: Bin) => isAutosome(b.chrom)
  }

  function Counts(s: seq<Bin>): (r: seq<real>)
    ensures |r| == |s|
  {
    seq(|s|, i requires 0 <= i < |s| => s[i].count)
  }

  /** The counts of the bins of `s` with GC value `g`, in order. */
  function Bucket(s: seq<Bin>, g: int): seq<real>
  {
    Counts(Filter(s, (b: Bin) => b.gc == g))
  }

  function Buckets(s: seq<Bin>): (r: seq<seq<real>>)
    ensures |r| == NumberOfGcBins
  {
    seq(NumberOfGcBins, g => Bucket(s, g))
  }

  lemma BucketSnoc(s: seq<Bin>, b: Bin, g: int)
    ensures Bucket(s + [b], g) == Bucket(s, g) + (if b.gc == g then [b.count] else [])
  {
    FilterSnoc(s, b, (x: Bin) => x.gc == g);
  }

  lemma BucketsSnoc(s: seq<Bin>, b: Bin)
    ensures Buckets(s + [b]) == Buckets(s)[b.gc := Buckets(s)[b.gc] + [b.count]]
  {
    forall g | 0 <= g < NumberOfGcBins
      ensures Buckets(s + [b])[g] == Buckets(s)[b.gc := Buckets(s)[b.gc] + [b.count]][g]
    {
      BucketSnoc(s, b, g);
    }
  }

  method GetCountsByGC(bins: seq<Bin>, manifest: Option<Manifest>, isAutosome: string -> bool)
    returns (countsByGC: seq<seq<real>>, counts: seq<real>)
    ensures countsByGC == Buckets(StatsSample(bins, manifest, isAutosome))
    ensures counts == Counts(StatsSample(bins, manifest, isAutosome))
  {
    var source := bins;
    if manifest.Some? {
      source := OnTarget.GetOnTargetBins(bins, manifest.value);
    }
    countsByGC, counts := BucketAutosomal(source, isAutosome);
  }

  /** The loop of GetCountsByGC over the bins it reads. */
  method BucketAutosomal(source: seq<Bin>, isAutosome: string -> bool)
    returns (countsByGC: seq<seq<real>>, counts: seq<real>)
    ensures countsByGC == Buckets(Filter(source, Autosomal(isAutosome)))
    ensures counts == Counts(Filter(source, Autosomal(isAutosome)))
  {
    countsByGC := seq(NumberOfGcBins, g => []);
    counts := [];
    ghost var keep := Autosomal(isAutosome);
    assert countsByGC == Buckets([]);
    for i := 0 to |source|
      invariant countsByGC == Buckets(Filter(source[..i], keep))
      invariant counts == Counts(Filter(source[..i], keep))
    {
      assert source[..i + 1] == source[..i] + [source[i]];
      FilterSnoc(source[..i], source[i], keep);
      countsByGC, counts := Tally(countsByGC, counts, Filter(source[..i], keep), source[i], isAutosome);
    }
    assert source[..|source|] == source;
  }

  /** One pass of the loop in GetCountsByGC: an autosomal bin's count is
      appended to its GC bucket and to the flat list. */
  method Tally(countsByGC0: seq<seq<real>>, counts0: seq<real>, ghost seen: seq<Bin>, bin: Bin, isAutosome: string -> bool)
    returns (countsByGC: seq<seq<real>>, counts: seq<real>)
    requires countsByGC0 == Buckets(seen) && counts0 == Counts(seen)
    ensures var next := seen + (if Autosomal(isAutosome)(bin) then [bin] else []);
            countsByGC == Buckets(next) && counts == Counts(next)
  {
    countsByGC, counts := countsByGC0, counts0;
    assert Autosomal(isAutosome)(bin) == isAutosome(bin.chrom);
    if !isAutosome(bin.chrom) {
      assert seen + [] == seen;
      return;
    }
    BucketsSnoc(seen, bin);
    assert Counts(seen + [bin]) == counts + [bin.count];
    countsByGC := countsByGC[bin.gc := countsByGC[bin.gc] + [bin.count]];
    counts := counts + [bin.count];
  }

  function SumSizes(buckets: seq<seq<real>>): nat
  {
    if |buckets| == 0 then 0 else SumSizes(buckets[..|buckets| - 1]) + |buckets[|buckets| - 1]|
  }

  lemma {:induction false} SumSizesUpdate(buckets: seq<seq<real>>, g: nat, x: real)
    requires g < |buckets|
    ensures SumSizes(buckets[g := buckets[g] + [x]]) == SumSizes(buckets) + 1
  {
    var n := |buckets|;
    var upd := buckets[g := buckets[g] + [x]];
    if g < n - 1 {
      assert upd[..n - 1] == buckets[..n - 1][g := buckets[g] + [x]];
      SumSizesUpdate(buckets[..n - 1], g, x);
    } else {
      assert upd[..n - 1] == buckets[..n - 1];
    }
  }

  /** Bucketing is a partition: every sampled count lands in exactly one
      bucket, so the bucket sizes add up to the sample size. */
  lemma {:induction false} BucketsPartition(s: seq<Bin>)
    ensures SumSizes(Buckets(s)) == |s|
  {
    if |s| == 0 {
      assert Buckets(s) == seq(NumberOfGcBins, g => []);
      assert forall k :: 0 <= k <= NumberOfGcBins ==> SumSizes(Buckets(s)[..k]) == 0 by {
        forall k | 0 <= k <= NumberOfGcBins ensures SumSizes(Buckets(s)[..k]) == 0 {
          EmptySum(Buckets(s)[..k]);
        }
      }
      assert Buckets(s)[..NumberOfGcBins] == Buckets(s);
    } else {
      var init, last := s[..|s| - 1], s[|s| - 1];
      assert s == init + [last];
      BucketsPartition(init);
      BucketsSnoc(init, last);
      SumSizesUpdate(Buckets(init), last.gc, last.count);
    }
  }

  lemma {:induction false} EmptySum(buckets: seq<seq<real>>)
    requires forall k :: 0 <= k < |buckets| ==> buckets[k] == []
    ensures SumSizes(buckets) == 0
  {
    if |buckets| > 0 {
      EmptySum(buckets[..|buckets| - 1]);
    }
  }

  /** 1/2^r, the weight of a bucket at distance r from the target bucket. */
  function HalfPow(r: nat): (w: real)
    ensures 0.0 < w <= 1.0
  {
    if r == 0 then 1.0 else HalfPow(r - 1) / 2.0
  }

  function Pow2(r: nat): nat
  {
    if r == 0 then 1 else 2 * Pow2(r - 1)
  }

  lemma {:induction false} HalfPowIsInverse(r: nat)
    ensures HalfPow(r) * (Pow2(r) as real) == 1.0
  {
    if r > 0 {
      HalfPowIsInverse(r - 1);
    }
  }

  /** The values of one bucket, each carrying weight `w`. */
  function Tag(values: seq<real>, w: real): (r: seq<Weighted>)
    ensures |r| == |values|
  {
    seq(|values|, i requires 0 <= i < |values| => Weighted(values[i], w))
  }

  /** What radius `r` contributes: the upper bucket, then the lower one,
      both at weight 1/2^r; at radius 0 the target bucket once. */
  function Ring(buckets: seq<seq<real>>, g: int, r: nat): seq<Weighted>
  {
    (if 0 <= g + r < |buckets| then Tag(buckets[g + r], HalfPow(r)) else [])
    + (if r != 0 && 0 <= g - r < |buckets| then Tag(buckets[g - r], HalfPow(r)) else [])
  }

  /** The weighted list after radii 0 .. R-1. */
  function Window(buckets: seq<seq<real>>, g: int, R: nat): seq<Weighted>
  {
    if R == 0 then [] else Window(buckets, g, R - 1) + Ring(buckets, g, R - 1)
  }

  /** The number of values the window holds after radii 0 .. R-1. */
  function WindowSize(buckets: seq<seq<real>>, g: int, R: nat): nat
  {
    if R == 0 then 0
    else
      var r := R - 1;
      WindowSize(buckets, g, r)
      + (if 0 <= g + r < |buckets| then |buckets[g + r]| else 0)
      + (if r != 0 && 0 <= g - r < |buckets| then |buckets[g - r]| else 0)
  }

  lemma {:induction false} WindowSizeIsLength(buckets: seq<seq<real>>, g: int, R: nat)
    ensures |Window(buckets, g, R)| == WindowSize(buckets, g, R)
  {
    if R > 0 {
      WindowSizeIsLength(buckets, g, R - 1);
    }
  }

  /** The window stops growing at radius R once it holds enough values or
      reaches past both ends of the bucket range. */
  predicate Stops(buckets: seq<seq<real>>, g: int, R: nat)
  {
    WindowSize(buckets, g, R) >= DefaultMinBinsPerGc || (g + R >= |buckets| && g - R < 0)
  }

  /** The first radius from `r` on at which the window stops. */
  function StopRadius(buckets: seq<seq<real>>, g: int, r: nat): (R: nat)
    requires 0 <= g < |buckets| && r <= |buckets|
    decreases |buckets| - r
    ensures r <= R <= |buckets| && Stops(buckets, g, R)
  {
    if Stops(buckets, g, r) then r else StopRadius(buckets, g, r + 1)
  }

  /** No radius from `r` up to the stopping radius stops the window. */
  lemma {:induction false} StopRadiusFirst(buckets: seq<seq<real>>, g: int, r: nat, q: nat)
    requires 0 <= g < |buckets| && r <= |buckets|
    requires r <= q < StopRadius(buckets, g, r)
    ensures !Stops(buckets, g, q)
    decreases |buckets| - r
  {
    if q > r {
      StopRadiusFirst(buckets, g, r + 1, q);
    }
  }

  /** The weighted sample the fallback estimators see for bucket `g`. */
  function WeightedCountsOf(buckets: seq<seq<real>>, g: int): seq<Weighted>
    requires 0 <= g < |buckets|
  {
    Window(buckets, g, StopRadius(buckets, g, 0))
  }

  method GetWeightedCounts(countsByGC: seq<seq<real>>, gcBin: int) returns (weightedCounts: seq<Weighted>)
    requires 0 <= gcBin < |countsByGC|
    ensures weightedCounts == WeightedCountsOf(countsByGC, gcBin)
  {
    ghost var stop := StopRadius(countsByGC, gcBin, 0);
    weightedCounts := [];
    var radius := 0;
    var weight := 1.0;
    while |weightedCounts| < DefaultMinBinsPerGc
      invariant radius <= |countsByGC| && StopRadius(countsByGC, gcBin, radius) == stop
      invariant weight == HalfPow(radius)
      invariant weightedCounts == Window(countsByGC, gcBin, radius)
      invariant |weightedCounts| == WindowSize(countsByGC, gcBin, radius)
      decreases |countsByGC| - radius
    {
      if gcBin + radius >= |countsByGC| && gcBin - radius < 0 {
        break;
      }
      weightedCounts := Widen(countsByGC, gcBin, radius, weight, weightedCounts);
      radius := radius + 1;
      weight := weight / 2.0;
    }
  }

  /** One pass of the loop in GetWeightedCounts: append the bucket above the
      target at distance `radius`, then the one below, at weight `weight`. */
  method Widen(countsByGC: seq<seq<real>>, gcBin: int, radius: nat, weight: real, weightedCounts0: seq<Weighted>)
    returns (weightedCounts: seq<Weighted>)
    requires 0 <= gcBin < |countsByGC| && radius < |countsByGC|
    requires weightedCounts0 == Window(countsByGC, gcBin, radius) && weight == HalfPow(radius)
    ensures weightedCounts == Window(countsByGC, gcBin, radius + 1)
    ensures |weightedCounts| == WindowSize(countsByGC, gcBin, radius + 1)
  {
    WindowSizeIsLength(countsByGC, gcBin, radius + 1);
    var gcWindowEnd := gcBin + radius;
    var gcWindowStart := gcBin - radius;
    WindowStep(countsByGC, gcBin, radius);
    weightedCounts := weightedCounts0;
    if gcWindowEnd < |countsByGC| {
      weightedCounts := weightedCounts + Tag(countsByGC[gcWindowEnd], weight);
    }
    if gcWindowStart != gcWindowEnd && gcWindowStart >= 0 {
      weightedCounts := weightedCounts + Tag(countsByGC[gcWindowStart], weight);
    }
  }

  /** One pass of the loop in GetWeightedCounts, in the terms it uses. */
  lemma WindowStep(buckets: seq<seq<real>>, g: int, r: nat)
    requires 0 <= g < |buckets| && r < |buckets|
    ensures Window(buckets, g, r + 1) ==
      Window(buckets, g, r)
      + (if g + r < |buckets| then Tag(buckets[g + r], HalfPow(r)) else [])
      + (if g - r != g + r && g - r >= 0 then Tag(buckets[g - r], HalfPow(r)) else [])
  {
  }

  /** Every value of every bucket closer than R to `g` is in the window, at
      weight 1/2^distance. */
  lemma {:induction false} WindowHolds(buckets: seq<seq<real>>, g: int, R: nat, j: int, k: int)
    requires 0 <= j < |buckets| && 0 <= k < |buckets[j]|
    requires (if j >= g then j - g else g - j) < R
    ensures Weighted(buckets[j][k], HalfPow(if j >= g then j - g else g - j)) in Window(buckets, g, R)
  {
    var d := if j >= g then j - g else g - j;
    if d < R - 1 {
      WindowHolds(buckets, g, R - 1, j, k);
    } else {
      assert Tag(buckets[j], HalfPow(d))[k] == Weighted(buckets[j][k], HalfPow(d));
      assert Weighted(buckets[j][k], HalfPow(d)) in Ring(buckets, g, R - 1);
    }
  }

  /** Conversely, everything in the window is a value of a bucket closer
      than R to `g`, at weight 1/2^distance. */
  lemma {:induction false} WindowOnlyNear(buckets: seq<seq<real>>, g: int, R: nat, w: Weighted)
    requires w in Window(buckets, g, R)
    ensures exists j :: 0 <= j < |buckets| && (if j >= g then j - g else g - j) < R
              && w.value in buckets[j] && w.weight == HalfPow(if j >= g then j - g else g - j)
  {
    var r := R - 1;
    if w in Window(buckets, g, r) {
      WindowOnlyNear(buckets, g, r, w);
    } else {
      RingOnlyNear(buckets, g, r, w);
    }
  }

  /** What radius `r` contributes is a value of bucket g + r or g - r, at
      weight 1/2^r. */
  lemma RingOnlyNear(buckets: seq<seq<real>>, g: int, r: nat, w: Weighted)
    requires w in Ring(buckets, g, r)
    ensures exists j :: 0 <= j < |buckets| && (if j >= g then j - g else g - j) == r
              && w.value in buckets[j] && w.weight == HalfPow(r)
  {
    var j := if 0 <= g + r < |buckets| && w in Tag(buckets[g + r], HalfPow(r)) then g + r else g - r;
    assert 0 <= j < |buckets| && w in Tag(buckets[j], HalfPow(r));
    var t := Tag(buckets[j], HalfPow(r));
    var i :| 0 <= i < |t| && t[i] == w;
    assert w.value == buckets[j][i];
  }

  /** Two bucket tables that agree on every bucket closer than R to `g`
      give `g` the same window up to radius R. */
  lemma {:induction false} WindowsAgree(a: seq<seq<real>>, b: seq<seq<real>>, g: int, R: nat)
    requires |a| == |b|
    requires forall j :: 0 <= j < |a| && (if j >= g then j - g else g - j) < R ==> a[j] == b[j]
    ensures Window(a, g, R) == Window(b, g, R) && WindowSize(a, g, R) == WindowSize(b, g, R)
  {
    if R > 0 {
      WindowsAgree(a, b, g, R - 1);
      var r := R - 1;
      if 0 <= g + r < |a| {
        assert a[g + r] == b[g + r];
      }
      if r != 0 && 0 <= g - r < |a| {
        assert a[g - r] == b[g - r];
      }
    }
  }

  /** Such tables also stop the window at the same radius. */
  lemma {:induction false} StopRadiusAgree(a: seq<seq<real>>, b: seq<seq<real>>, g: int, r: nat)
    requires 0 <= g < |a| == |b| && r <= |a|
    requires forall j :: 0 <= j < |a| && (if j >= g then j - g else g - j) < StopRadius(a, g, r) ==> a[j] == b[j]
    ensures StopRadius(b, g, r) == StopRadius(a, g, r)
    decreases |a| - r
  {
    WindowsAgree(a, b, g, r);
    if !Stops(a, g, r) {
      StopRadiusAgree(a, b, g, r + 1);
    }
  }

  /** The target bucket comes first, once, at weight 1. */
  lemma TargetFirst(buckets: seq<seq<real>>, g: int)
    requires 0 <= g < |buckets|
    ensures Window(buckets, g, 1) == Tag(buckets[g], 1.0)
  {
  }

  /** When the window ran past both ends, it holds every value of every
      bucket. */
  lemma WeightedCountsExhaustive(buckets: seq<seq<real>>, g: int, j: int, k: int)
    requires 0 <= g < |buckets| && 0 <= j < |buckets| && 0 <= k < |buckets[j]|
    requires |WeightedCountsOf(buckets, g)| < DefaultMinBinsPerGc
    ensures Weighted(buckets[j][k], HalfPow(if j >= g then j - g else g - j)) in WeightedCountsOf(buckets, g)
  {
    WindowSizeIsLength(buckets, g, StopRadius(buckets, g, 0));
    WindowHolds(buckets, g, StopRadius(buckets, g, 0), j, k);
  }

  /** The window grows only while it is short: at every radius before the
      stopping one it held fewer than DefaultMinBinsPerGc values and had not
      yet run past both ends of the bucket range. */
  lemma StopsAtFirstRadius(buckets: seq<seq<real>>, g: int, q: nat)
    requires 0 <= g < |buckets| && q < StopRadius(buckets, g, 0)
    ensures |Window(buckets, g, q)| < DefaultMinBinsPerGc
    ensures g + q < |buckets| || g - q >= 0
  {
    StopRadiusFirst(buckets, g, 0, q);
    WindowSizeIsLength(buckets, g, q);
  }

  /** The fallback sample is never empty while some bucket has a value, so
      a bucket with no samples of its own still gets a statistic. */
  lemma WeightedCountsNonEmpty(buckets: seq<seq<real>>, g: int, j: int)
    requires 0 <= g < |buckets| && 0 <= j < |buckets| && |buckets[j]| > 0
    ensures |WeightedCountsOf(buckets, g)| > 0
  {
    if |WeightedCountsOf(buckets, g)| < DefaultMinBinsPerGc {
      WeightedCountsExhaustive(buckets, g, j, 0);
    }
  }
}

/**
 * The two outlier filters of the cleaning stage: a chi-squared comparison
 * of each bin's count with its same-chromosome neighbours, and a cut of
 * the genomically largest bins at the 98th percentile of bin sizes.
 */
module Outliers {
  import opened Util
  import opened Bins

  /** The 99th percentile of the chi-squared distribution with one degree
      of freedom. */
  const ChiSquaredCutoff: real := 6.635

  /** Whether two Poisson counts are unlikely to come from one distribution:
      the chi-squared statistic of the pair against their mean exceeds the
      cutoff. A pair summing to zero is never different. */
  function SignificantlyDifferent(a: real, b: real): bool
  {
    var mu := (a + b) / 2.0;
    if a + b == 0.0 then false
    else
      var da := a - mu;
      var db := b - mu;
      (da * da + db * db) / mu > ChiSquaredCutoff
  }

  /** The statistic in closed form: (a - b)^2 / (a + b). */
  lemma ChiSquaredClosedForm(a: real, b: real)
    requires a + b != 0.0
    ensures SignificantlyDifferent(a, b) <==> (a - b) * (a - b) / (a + b) > ChiSquaredCutoff
  {
    var mu := (a + b) / 2.0;
    var da, db := a - mu, b - mu;
    assert da == (a - b) / 2.0 && db == -(a - b) / 2.0;
    assert da * da + db * db == (a - b) * (a - b) / 2.0;
    assert ((a - b) * (a - b) / 2.0) / mu == (a - b) * (a - b) / (a + b);
  }

  /** The test does not depend on the order of its arguments. */
  lemma SignificanceSymmetric(a: real, b: real)
    ensures SignificantlyDifferent(a, b) == SignificantlyDifferent(b, a)
  {
    if a + b != 0.0 {
      ChiSquaredClosedForm(a, b);
      ChiSquaredClosedForm(b, a);
      assert (a - b) * (a - b) == (b - a) * (b - a);
    }
  }

  /** Equal counts are never significantly different. */
  lemma EqualCountsAgree(a: real)
    ensures !SignificantlyDifferent(a, a)
  {
    if a + a != 0.0 {
      ChiSquaredClosedForm(a, a);
    }
  }

  /** Two instances of the test: 1000 against 10 differs, 100 against 105
      does not. */
  lemma SignificanceExamples()
    ensures SignificantlyDifferent(1000.0, 10.0)
    ensures !SignificantlyDifferent(100.0, 105.0)
  {
    ChiSquaredClosedForm(1000.0, 10.0);
    ChiSquaredClosedForm(100.0, 105.0);
  }

  /** Bin `j` is a neighbour of bin `i` on the same chromosome whose count
      is not significantly different from bin `i`'s. */
  predicate CalmNeighbour(bins: seq<Bin>, i: int, j: int)
    requires 0 <= i < |bins|
  {
    0 <= j < |bins| && bins[j].chrom == bins[i].chrom && !SignificantlyDifferent(bins[i].count, bins[j].count)
  }

  /** Bin `i` survives point-outlier removal: it is the only bin, or a
      neighbour on its chromosome agrees with it. */
  predicate Kept(bins: seq<Bin>, i: int)
    requires 0 <= i < |bins|
  {
    |bins| == 1 || CalmNeighbour(bins, i, i - 1) || CalmNeighbour(bins, i, i + 1)
  }

  /** The surviving bins among the first `n`, in input order. */
  function KeptPrefix(bins: seq<Bin>, n: nat): seq<Bin>
    requires n <= |bins|
  {
    if n == 0 then [] else KeptPrefix(bins, n - 1) + (if Kept(bins, n - 1) then [bins[n - 1]] else [])
  }

  /** The positions of the surviving bins among the first `n`. */
  function KeptIndices(bins: seq<Bin>, n: nat): (r: seq<int>)
    requires n <= |bins|
    ensures forall k :: 0 <= k < |r| ==> 0 <= r[k] < n
  {
    if n == 0 then [] else KeptIndices(bins, n - 1) + (if Kept(bins, n - 1) then [n - 1] else [])
  }

  function WithoutOutliers(bins: seq<Bin>): seq<Bin>
  {
    KeptPrefix(bins, |bins|)
  }

  method RemoveOutliers(bins: seq<Bin>) returns (stripped: seq<Bin>)
    ensures stripped == WithoutOutliers(bins)
  {
    stripped := [];
    for binIndex := 0 to |bins|
      invariant stripped == KeptPrefix(bins, binIndex)
    {
      var hasPreviousBin := binIndex > 0;
      var hasNextBin := binIndex < |bins| - 1;
      var currentBinChromosome := bins[binIndex].chrom;
      var previousBinChromosome := if hasPreviousBin then Some(bins[binIndex - 1].chrom) else None;
      var nextBinChromosome := if hasNextBin then Some(bins[binIndex + 1].chrom) else None;
      if (hasPreviousBin && Some(currentBinChromosome) != previousBinChromosome)
         && (hasNextBin && Some(currentBinChromosome) != nextBinChromosome)
      {
        continue;
      }
      if (hasPreviousBin && Some(currentBinChromosome) == previousBinChromosome
          && !SignificantlyDifferent(bins[binIndex].count, bins[binIndex - 1].count))
         || (hasNextBin && Some(currentBinChromosome) == nextBinChromosome
          && !SignificantlyDifferent(bins[binIndex].count, bins[binIndex + 1].count))
         || (!hasPreviousBin && !hasNextBin)
      {
        stripped := stripped + [bins[binIndex]];
      }
    }
  }

  /** The output is the input at the surviving positions, in increasing
      order, and a position survives exactly when its bin is kept. */
  lemma {:induction false} KeptPrefixPositions(bins: seq<Bin>, n: nat)
    requires n <= |bins|
    ensures Embeds(KeptIndices(bins, n), KeptPrefix(bins, n), bins)
    ensures forall i :: i in KeptIndices(bins, n) <==> 0 <= i < n && Kept(bins, i)
  {
    if n > 0 {
      KeptPrefixPositions(bins, n - 1);
      var f, xs, j := KeptIndices(bins, n - 1), KeptPrefix(bins, n - 1), n - 1;
      if Kept(bins, j) {
        assert KeptIndices(bins, n) == f + [j] && KeptPrefix(bins, n) == xs + [bins[j]];
        assert Embeds(f + [j], xs + [bins[j]], bins);
      } else {
        assert KeptIndices(bins, n) == f && KeptPrefix(bins, n) == xs;
      }
    }
  }

  /** Point-outlier removal only drops bins, and drops exactly those that
      are not kept. */
  lemma WithoutOutliersMeaning(bins: seq<Bin>)
    ensures Embeds(KeptIndices(bins, |bins|), WithoutOutliers(bins), bins)
    ensures forall i :: i in KeptIndices(bins, |bins|) <==> 0 <= i < |bins| && Kept(bins, i)
    ensures IsSubseq(WithoutOutliers(bins), bins)
  {
    KeptPrefixPositions(bins, |bins|);
  }

  /** A bin between two bins of other chromosomes is always dropped. */
  lemma LoneBinDropped(bins: seq<Bin>, i: int)
    requires 0 < i < |bins| - 1
    requires bins[i - 1].chrom != bins[i].chrom && bins[i + 1].chrom != bins[i].chrom
    ensures !Kept(bins, i) && i !in KeptIndices(bins, |bins|)
  {
    KeptPrefixPositions(bins, |bins|);
  }

  /** The size of a bin in bases. */
  function Size(b: Bin): int
  {
    b.stop - b.start
  }

  function Sizes(bins: seq<Bin>): (r: seq<int>)
    ensures |r| == |bins|
    ensures forall i :: 0 <= i < |bins| ==> r[i] == Size(bins[i])
  {
    if |bins| == 0 then [] else Sizes(bins[..|bins| - 1]) + [Size(bins[|bins| - 1])]
  }

  predicate Ascending(s: seq<int>)
  {
    forall i, j :: 0 <= i < j < |s| ==> s[i] <= s[j]
  }

  /** `x` placed into the ascending `s` after every element not above it. */
  function Insert(s: seq<int>, x: int): (r: seq<int>)
    ensures |r| == |s| + 1
  {
    if |s| == 0 || s[|s| - 1] <= x then s + [x]
    else Insert(s[..|s| - 1], x) + [s[|s| - 1]]
  }

  /** The library sort of the sizes list, as an insertion sort. */
  function Sort(s: seq<int>): (r: seq<int>)
    ensures |r| == |s|
  {
    if |s| == 0 then [] else Insert(Sort(s[..|s| - 1]), s[|s| - 1])
  }

  /** Insertion keeps a bound every element and `x` respect. */
  lemma {:induction false} InsertBounded(s: seq<int>, x: int, m: int)
    requires x <= m && forall i :: 0 <= i < |s| ==> s[i] <= m
    ensures forall i :: 0 <= i < |s| + 1 ==> Insert(s, x)[i] <= m
  {
    if |s| > 0 && s[|s| - 1] > x {
      InsertBounded(s[..|s| - 1], x, m);
    }
  }

  lemma {:induction false} InsertKeepsOrder(s: seq<int>, x: int)
    requires Ascending(s)
    ensures Ascending(Insert(s, x))
  {
    if |s| > 0 && s[|s| - 1] > x {
      var init, last := s[..|s| - 1], s[|s| - 1];
      InsertKeepsOrder(init, x);
      forall i | 0 <= i < |init| ensures init[i] <= last {
        assert init[i] == s[i];
      }
      InsertBounded(init, x, last);
      var r := Insert(init, x);
      assert Insert(s, x) == r + [last];
      forall i, j | 0 <= i < j < |r| + 1 ensures (r + [last])[i] <= (r + [last])[j] {
        if j < |r| {
          assert (r + [last])[i] == r[i] && (r + [last])[j] == r[j];
        }
      }
    } else {
      forall i, j | 0 <= i < j < |s| + 1 ensures (s + [x])[i] <= (s + [x])[j] {
        if j < |s| {
          assert (s + [x])[i] == s[i] && (s + [x])[j] == s[j];
        } else if |s| > 0 {
          assert s[i] <= s[|s| - 1];
        }
      }
    }
  }

  lemma {:induction false} InsertPermutes(s: seq<int>, x: int)
    ensures multiset(Insert(s, x)) == multiset(s) + multiset{x}
  {
    if |s| > 0 && s[|s| - 1] > x {
      var init, last := s[..|s| - 1], s[|s| - 1];
      InsertPermutes(init, x);
      assert s == init + [last];
    }
  }

  /** The sort yields an ascending permutation of its input. */
  lemma {:induction false} SortIsSorted(s: seq<int>)
    ensures Ascending(Sort(s))
    ensures multiset(Sort(s)) == multiset(s)
  {
    if |s| > 0 {
      var init := s[..|s| - 1];
      SortIsSorted(init);
      InsertKeepsOrder(Sort(init), s[|s| - 1]);
      InsertPermutes(Sort(init), s[|s| - 1]);
      assert s == init + [s[|s| - 1]];
    }
  }

  /** An ascending list is its own sort. */
  lemma {:induction false} SortOfAscending(s: seq<int>)
    requires Ascending(s)
    ensures Sort(s) == s
  {
    if |s| > 0 {
      var init := s[..|s| - 1];
      SortOfAscending(init);
      assert s == init + [s[|s| - 1]];
    }
  }

  /** The position of the 98th percentile in a sorted list of `n` sizes. */
  function PercentileIndex(n: nat): nat
  {
    (98 * n) / 100
  }

  /** The size cut: None where there are too few bins to take it. */
  function SizeCut(bins: seq<Bin>): Option<int>
  {
    var index := PercentileIndex(|bins|);
    if index >= |bins| then None else Some(Sort(Sizes(bins))[index])
  }

  function FitsUnder(thresh: int): Bin -> bool
  {
    b => Size(b) <= thresh
  }

  /** What RemoveBigBins returns. */
  function WithoutBigBins(bins: seq<Bin>): seq<Bin>
  {
    match SizeCut(bins)
    case None => bins
    case Some(thresh) => Filter(bins, FitsUnder(thresh))
  }

  method RemoveBigBins(bins: seq<Bin>) returns (stripped: seq<Bin>)
    ensures stripped == WithoutBigBins(bins)
  {
    var sizes := [];
    for i := 0 to |bins|
      invariant sizes == Sizes(bins[..i])
    {
      assert bins[..i + 1][..i] == bins[..i];
      sizes := sizes + [Size(bins[i])];
    }
    assert bins[..|bins|] == bins;
    sizes := Sort(sizes);
    var index := (98 * |bins|) / 100;
    if index >= |sizes| {
      return bins;
    }
    var thresh := sizes[index];
    stripped := [];
    for i := 0 to |bins|
      invariant stripped == Filter(bins[..i], FitsUnder(thresh))
    {
      assert bins[..i + 1] == bins[..i] + [bins[i]];
      FilterSnoc(bins[..i], bins[i], FitsUnder(thresh));
      if Size(bins[i]) <= thresh {
        stripped := stripped + [bins[i]];
      }
    }
    assert bins[..|bins|] == bins;
  }

  /** The percentile position lies inside every non-empty list, so the
      too-few-bins branch is taken only for the empty list. */
  lemma SizeCutExists(bins: seq<Bin>)
    ensures SizeCut(bins).None? <==> |bins| == 0
  {
  }

  function AtMost(thresh: int): int -> bool
  {
    x => x <= thresh
  }

  lemma {:induction false} CountSizes(bins: seq<Bin>, thresh: int)
    ensures CountIf(bins, FitsUnder(thresh)) == CountIf(Sizes(bins), AtMost(thresh))
  {
    if |bins| > 0 {
      CountSizes(bins[..|bins| - 1], thresh);
      assert Sizes(bins)[..|bins| - 1] == Sizes(bins[..|bins| - 1]);
    }
  }

  lemma {:induction false} CountInsert(s: seq<int>, x: int, p: int -> bool)
    ensures CountIf(Insert(s, x), p) == CountIf(s, p) + (if p(x) then 1 else 0)
  {
    if |s| > 0 && s[|s| - 1] > x {
      CountInsert(s[..|s| - 1], x, p);
      var r := Insert(s, x);
      assert r[..|r| - 1] == Insert(s[..|s| - 1], x);
    } else {
      assert (s + [x])[..|s|] == s;
    }
  }

  lemma {:induction false} CountSort(s: seq<int>, p: int -> bool)
    ensures CountIf(Sort(s), p) == CountIf(s, p)
  {
    if |s| > 0 {
      CountSort(s[..|s| - 1], p);
      CountInsert(Sort(s[..|s| - 1]), s[|s| - 1], p);
    }
  }

  lemma {:induction false} CountPrefix(s: seq<int>, p: int -> bool, k: nat)
    requires k <= |s| && forall i :: 0 <= i < k ==> p(s[i])
    ensures CountIf(s, p) >= k
  {
    if |s| > 0 {
      var init := s[..|s| - 1];
      if k == |s| {
        CountPrefix(init, p, k - 1);
      } else {
        CountPrefix(init, p, k);
      }
    }
  }

  /** The size cut keeps every bin no larger than the 98th-percentile size
      and drops every larger one, in input order; the threshold is the size
      of some input bin, and at least index + 1 bins survive. */
  lemma BigBinsCut(bins: seq<Bin>)
    requires |bins| > 0
    ensures SizeCut(bins).Some?
    ensures SizeCut(bins).value in Sizes(bins)
    ensures forall b :: b in WithoutBigBins(bins) <==> b in bins && Size(b) <= SizeCut(bins).value
    ensures IsSubseq(WithoutBigBins(bins), bins)
    ensures |WithoutBigBins(bins)| >= PercentileIndex(|bins|) + 1
  {
    var thresh := SizeCut(bins).value;
    SortIsSorted(Sizes(bins));
    assert Sort(Sizes(bins))[PercentileIndex(|bins|)] in multiset(Sort(Sizes(bins)));
    forall b ensures b in WithoutBigBins(bins) <==> b in bins && Size(b) <= thresh {
      FilterMembership(bins, FitsUnder(thresh), b);
    }
    FilterIsSubseq(bins, FitsUnder(thresh));
    Survivors(bins);
  }

  lemma Survivors(bins: seq<Bin>)
    requires |bins| > 0
    ensures |WithoutBigBins(bins)| >= PercentileIndex(|bins|) + 1
  {
    var thresh := SizeCut(bins).value;
    var sorted := Sort(Sizes(bins));
    var index := PercentileIndex(|bins|);
    assert thresh == sorted[index];
    SortIsSorted(Sizes(bins));
    forall i | 0 <= i < index + 1 ensures AtMost(thresh)(sorted[i]) {
      if i < index {
        assert sorted[i] <= sorted[index];
      }
    }
    CountPrefix(sorted, AtMost(thresh), index + 1);
    CountSort(Sizes(bins), AtMost(thresh));
    CountSizes(bins, thresh);
    FilterLength(bins, FitsUnder(thresh));
  }

  /** When the sizes strictly increase, the cut keeps exactly the first
      index + 1 bins. */
  lemma IncreasingSizesKeepPrefix(bins: seq<Bin>)
    requires |bins| > 0
    requires forall i, j :: 0 <= i < j < |bins| ==> Size(bins[i]) < Size(bins[j])
    ensures WithoutBigBins(bins) == bins[..PercentileIndex(|bins|) + 1]
  {
    var index := PercentileIndex(|bins|);
    SortOfAscending(Sizes(bins));
    var thresh := Size(bins[index]);
    assert SizeCut(bins) == Some(thresh);
    KeepsPrefix(bins, thresh, index + 1);
  }

  lemma {:induction false} KeepsPrefix(bins: seq<Bin>, thresh: int, k: nat)
    requires k <= |bins|
    requires forall i :: 0 <= i < |bins| ==> (Size(bins[i]) <= thresh <==> i < k)
    ensures Filter(bins, FitsUnder(thresh)) == bins[..k]
  {
    if |bins| > 0 {
      var init := bins[..|bins| - 1];
      if k == |bins| {
        FilterAll(bins, FitsUnder(thresh));
      } else {
        KeepsPrefix(init, thresh, k);
        assert init[..k] == bins[..k];
      }
    }
  }

  /** One hundred bins of sizes 1 to 100: the threshold is 99 and only the
      bin of size 100 is dropped. */
  lemma HundredBins(bins: seq<Bin>)
    requires |bins| == 100
    requires forall i :: 0 <= i < 100 ==> Size(bins[i]) == i + 1
    ensures SizeCut(bins) == Some(99)
    ensures WithoutBigBins(bins) == bins[..99]
  {
    IncreasingSizesKeepPrefix(bins);
    SortOfAscending(Sizes(bins));
  }
}

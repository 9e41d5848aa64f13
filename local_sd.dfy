/**
 * The FFPE noise metric: the standard deviation of consecutive count
 * differences over windows of 20 bins, stamped on the bins of each window,
 * averaged per chromosome, and the filter that drops noisy bins with it.
 */
module LocalSd {
  import opened Util
  import opened Bins

  const WindowSize: int := 20

  /** The first position of window `k`, `WindowSize * k`; the factor is a
      literal so that the solver sees linear arithmetic. */
  function WindowStart(k: int): int
  {
    20 * k
  }

  /** The average local SD above which noisy bins are dropped. */
  const NoisySampleCutoff: real := 5.0

  /** Differences of consecutive counts. */
  function CountDiffs(bins: seq<Bin>): (d: seq<real>)
    requires |bins| > 0
    ensures |d| == |bins| - 1
  {
    seq(|bins| - 1, i requires 0 <= i < |bins| - 1 => bins[i + 1].count - bins[i].count)
  }

  /** How many windows the loop visits over `n` differences: window `k`
      spans [20k, 20k + 20) and is visited only when its end lies strictly
      inside the differences. */
  function WindowCount(n: nat): nat
  {
    if n == 0 then 0 else (n - 1) / WindowSize
  }

  /** Exactly the windows whose end lies strictly inside the differences
      are visited. */
  lemma WindowCountMeaning(n: nat, k: nat)
    ensures k < WindowCount(n) <==> WindowStart(k) + WindowSize < n
  {
  }

  /** The SDs of the first `k` windows of the differences. */
  function WindowSds(diffs: seq<real>, k: nat, stats: Stats): (sds: seq<real>)
    ensures |sds| == k
  {
    if k == 0 then []
    else WindowSds(diffs, k - 1, stats) + [stats.standardDeviation(diffs, WindowStart(k - 1), WindowStart(k - 1) + WindowSize)]
  }

  /** Entry `k` of the window SDs is the SD of window `k`. */
  lemma {:induction false} WindowSdsAt(diffs: seq<real>, n: nat, stats: Stats, k: nat)
    requires k < n
    ensures WindowSds(diffs, n, stats)[k] == stats.standardDeviation(diffs, WindowStart(k), WindowStart(k) + WindowSize)
  {
    if k < n - 1 {
      WindowSdsAt(diffs, n - 1, stats, k);
    }
  }

  /** The SD of each visited window. */
  function LocalSds(bins: seq<Bin>, stats: Stats): (sds: seq<real>)
    requires |bins| > 0
    ensures |sds| == WindowCount(|bins| - 1)
  {
    WindowSds(CountDiffs(bins), WindowCount(|bins| - 1), stats)
  }

  /** The chromosomes of the first bins of the first `k` windows. */
  function WindowChromsUpTo(bins: seq<Bin>, k: nat): (cs: seq<string>)
    requires WindowStart(k) <= |bins|
    ensures |cs| == k
  {
    if k == 0 then [] else WindowChromsUpTo(bins, k - 1) + [bins[WindowStart(k - 1)].chrom]
  }

  /** The chromosome of the first bin of each visited window. */
  function WindowChroms(bins: seq<Bin>): (cs: seq<string>)
    requires |bins| > 0
    ensures |cs| == WindowCount(|bins| - 1)
  {
    var w := WindowCount(|bins| - 1);
    if w == 0 then []
    else
      WindowCountMeaning(|bins| - 1, w - 1);
      WindowChromsUpTo(bins, w)
  }

  /** The bins after the window loop: each bin of a visited window carries
      that window's SD; bins past the last window keep their old value. */
  function Annotated(bins: seq<Bin>, stats: Stats): (r: seq<Bin>)
    requires |bins| > 0
    ensures |r| == |bins|
  {
    var sds := LocalSds(bins, stats);
    seq(|bins|, j requires 0 <= j < |bins| => Stamped(bins[j], j, sds))
  }

  /** Bin `b` at position `j` after the window loop has stamped the SDs
      `sds` on their windows. */
  function Stamped(b: Bin, j: int, sds: seq<real>): Bin
  {
    if 0 <= j && WindowOf(j) < |sds| then b.(madOfDiffs := sds[WindowOf(j)]) else b
  }

  /** The window position `j` falls in: `j / WindowSize`, counted out. */
  function WindowOf(j: nat): nat
  {
    if j < WindowSize then 0 else WindowOf(j - WindowSize) + 1
  }

  /** Window `k` spans positions [20k, 20k + 20). */
  lemma {:induction false} WindowOfSpan(j: nat, k: nat)
    ensures WindowOf(j) == k <==> WindowStart(k) <= j < WindowStart(k) + WindowSize
  {
    if j >= WindowSize && k > 0 {
      WindowOfSpan(j - WindowSize, k - 1);
    }
  }

  /** The window loop changes no site and no count. */
  lemma AnnotatedKeepsCounts(bins: seq<Bin>, stats: Stats)
    requires |bins| > 0
    ensures Sites(Annotated(bins, stats)) == Sites(bins)
    ensures forall j :: 0 <= j < |bins| ==> Annotated(bins, stats)[j].count == bins[j].count
  {
    var r := Annotated(bins, stats);
    forall j | 0 <= j < |bins|
      ensures SiteOf(r[j]) == SiteOf(bins[j]) && r[j].count == bins[j].count
    {
    }
  }

  /** The difference and window loops shared by getLocalStandardDeviation
      and RemoveBinsWithExtremeLocalSD. `ok` is false for an empty bin list,
      where the code fails allocating the differences array. */
  method AnnotateLocalSd(a: array<Bin>, stats: Stats)
    returns (ok: bool, localSDs: seq<real>, chromosomeBin: seq<string>)
    modifies a
    ensures ok == (a.Length > 0)
    ensures !ok ==> a[..] == old(a[..])
    ensures ok ==> a[..] == Annotated(old(a[..]), stats)
    ensures ok ==> localSDs == LocalSds(old(a[..]), stats) && chromosomeBin == WindowChroms(old(a[..]))
  {
    if a.Length == 0 {
      return false, [], [];
    }
    var countsDiffs := CountDiffsOf(a);
    localSDs, chromosomeBin := StampWindows(a, countsDiffs[..], stats);
    ok := true;
  }

  /** The window loop: the SD of each window's differences, stamped on the
      window's bins. */
  method StampWindows(a: array<Bin>, countsDiffs: seq<real>, stats: Stats)
    returns (localSDs: seq<real>, chromosomeBin: seq<string>)
    requires a.Length > 0 && countsDiffs == CountDiffs(a[..])
    modifies a
    ensures a[..] == Annotated(old(a[..]), stats)
    ensures localSDs == LocalSds(old(a[..]), stats) && chromosomeBin == WindowChroms(old(a[..]))
  {
    ghost var s := a[..];
    ghost var sds := LocalSds(s, stats);
    assert sds == WindowSds(countsDiffs, WindowCount(|countsDiffs|), stats);
    PartialStart(s, sds);
    localSDs := [];
    chromosomeBin := [];
    var windowStart, windowEnd := 0, WindowSize;
    ghost var k := 0;
    while windowEnd < |countsDiffs|
      invariant k <= |sds| && windowStart == WindowStart(k) && windowEnd == windowStart + WindowSize
      invariant localSDs == WindowSds(countsDiffs, k, stats)
      invariant chromosomeBin == WindowChromsUpTo(s, k)
      invariant a[..] == Partial(s, sds, k)
      decreases |countsDiffs| - windowEnd
    {
      localSDs, chromosomeBin := StampNextWindow(a, countsDiffs, stats, windowStart, localSDs, chromosomeBin, s, sds, k);
      windowStart, windowEnd := windowStart + WindowSize, windowEnd + WindowSize;
      k := k + 1;
    }
    WindowCountMeaning(|s| - 1, k);
    PartialDone(s, stats);
  }

  /** Window `k` is visited when its end lies inside the differences; its
      SD extends the SDs of the windows before it. */
  lemma NextWindow(countsDiffs: seq<real>, stats: Stats, k: nat, sds: seq<real>)
    requires sds == WindowSds(countsDiffs, WindowCount(|countsDiffs|), stats)
    requires WindowStart(k) + WindowSize < |countsDiffs|
    ensures k < |sds| && sds[k] == stats.standardDeviation(countsDiffs, WindowStart(k), WindowStart(k) + WindowSize)
    ensures WindowSds(countsDiffs, k + 1, stats) == WindowSds(countsDiffs, k, stats) + [sds[k]]
  {
    WindowCountMeaning(|countsDiffs|, k);
    WindowSdsAt(countsDiffs, |sds|, stats, k);
  }

  /** One pass of the window loop: window `k`'s SD, stamped on its bins,
      and the chromosome of its first bin, read before the stamping, each
      appended to the lists of the windows before it. */
  method StampNextWindow(a: array<Bin>, countsDiffs: seq<real>, stats: Stats, windowStart: int,
                         localSDs0: seq<real>, chromosomeBin0: seq<string>,
                         ghost s: seq<Bin>, ghost sds: seq<real>, ghost k: nat)
    returns (localSDs: seq<real>, chromosomeBin: seq<string>)
    requires |s| == |countsDiffs| + 1 && sds == WindowSds(countsDiffs, WindowCount(|countsDiffs|), stats)
    requires windowStart == WindowStart(k) && windowStart + WindowSize < |countsDiffs|
    requires localSDs0 == WindowSds(countsDiffs, k, stats) && chromosomeBin0 == WindowChromsUpTo(s, k)
    requires k <= |sds| && |s| == a.Length && a[..] == Partial(s, sds, k)
    modifies a
    ensures k < |sds| && a[..] == Partial(s, sds, k + 1)
    ensures localSDs == WindowSds(countsDiffs, k + 1, stats) && chromosomeBin == WindowChromsUpTo(s, k + 1)
  {
    NextWindow(countsDiffs, stats, k, sds);
    var localSD := stats.standardDeviation(countsDiffs, windowStart, windowStart + WindowSize);
    assert a[windowStart] == Partial(s, sds, k)[windowStart];
    var chrom := a[windowStart].chrom;
    PartialStep(s, sds, k);
    Stamp(a, windowStart, windowStart + WindowSize, localSD);
    localSDs := localSDs0 + [localSD];
    chromosomeBin := chromosomeBin0 + [chrom];
  }

  /** The bins once the first `k` windows are stamped. */
  function Partial(s: seq<Bin>, sds: seq<real>, k: nat): (r: seq<Bin>)
    requires k <= |sds|
    ensures |r| == |s|
  {
    seq(|s|, j requires 0 <= j < |s| => if j < WindowStart(k) then Stamped(s[j], j, sds) else s[j])
  }

  /** `s` with the bins in [lo, hi) given local SD `sd`. */
  function StampRange(s: seq<Bin>, lo: int, hi: int, sd: real): (r: seq<Bin>)
    ensures |r| == |s|
  {
    seq(|s|, j requires 0 <= j < |s| => if lo <= j < hi then s[j].(madOfDiffs := sd) else s[j])
  }

  lemma PartialStart(s: seq<Bin>, sds: seq<real>)
    ensures Partial(s, sds, 0) == s
  {
  }

  /** Stamping window `k` extends the stamped prefix by one window. */
  lemma PartialStep(s: seq<Bin>, sds: seq<real>, k: nat)
    requires k < |sds|
    ensures StampRange(Partial(s, sds, k), WindowStart(k), WindowStart(k) + WindowSize, sds[k]) == Partial(s, sds, k + 1)
  {
    forall j | 0 <= j < |s| && WindowStart(k) <= j < WindowStart(k) + WindowSize
      ensures Stamped(s[j], j, sds) == s[j].(madOfDiffs := sds[k])
    {
      StampedInWindow(s[j], j, sds, k);
    }
  }

  /** With every window stamped, the bins are the annotated ones. */
  lemma PartialDone(s: seq<Bin>, stats: Stats)
    requires |s| > 0
    ensures Partial(s, LocalSds(s, stats), |LocalSds(s, stats)|) == Annotated(s, stats)
  {
    var sds := LocalSds(s, stats);
    forall j | 0 <= j < |s| && WindowStart(|sds|) <= j
      ensures Stamped(s[j], j, sds) == s[j]
    {
      WindowOfSpan(j, WindowOf(j));
    }
  }

  /** The differences loop. */
  method CountDiffsOf(a: array<Bin>) returns (countsDiffs: array<real>)
    requires a.Length > 0
    ensures fresh(countsDiffs)
    ensures countsDiffs[..] == CountDiffs(a[..])
  {
    countsDiffs := new real[a.Length - 1];
    ghost var diffs := CountDiffs(a[..]);
    for binIndex := 0 to a.Length - 1
      invariant forall i :: 0 <= i < binIndex ==> countsDiffs[i] == diffs[i]
    {
      countsDiffs[binIndex] := a[binIndex + 1].count - a[binIndex].count;
    }
  }

  /** Every bin of a visited window carries that window's SD. */
  lemma StampedInWindow(b: Bin, j: int, sds: seq<real>, k: nat)
    requires k < |sds| && WindowStart(k) <= j < WindowStart(k) + WindowSize
    ensures Stamped(b, j, sds) == b.(madOfDiffs := sds[k])
  {
    WindowOfSpan(j, k);
  }

  /** The inner loop of the window loop: the window's bins take its SD. */
  method Stamp(a: array<Bin>, windowStart: int, windowEnd: int, localSD: real)
    requires 0 <= windowStart <= windowEnd <= a.Length
    modifies a
    ensures a[..] == StampRange(old(a[..]), windowStart, windowEnd, localSD)
  {
    for binIndex := windowStart to windowEnd
      invariant a[..] == StampRange(old(a[..]), windowStart, binIndex, localSD)
    {
      a[binIndex] := a[binIndex].(madOfDiffs := localSD);
    }
  }

  /** The state of LocalStandardDeviation's loop after `n` iterations: the
      SDs collected so far and the values of the current chromosome run. */
  datatype RunState = RunState(sds: seq<real>, temp: seq<real>)

  /** The chromosome does not change between positions `q` and `q + 1`. */
  predicate Continues(chromosome: seq<string>, q: int)
    requires 0 <= q < |chromosome| - 1
  {
    chromosome[q] == chromosome[q + 1]
  }

  function SdScan(list: seq<real>, chromosome: seq<string>, n: nat, stats: Stats): RunState
    requires |chromosome| == |list| && n <= Iterations(list)
  {
    if n == 0 then RunState([], [])
    else
      var prev := SdScan(list, chromosome, n - 1, stats);
      var it := n - 1;
      if Continues(chromosome, it) then RunState(prev.sds, prev.temp + [list[it]])
      else RunState(prev.sds + [stats.mad(prev.temp, 1, |prev.temp|)], [])
  }

  /** The number of iterations of LocalStandardDeviation's loop. */
  function Iterations(list: seq<real>): nat
  {
    if |list| < 2 then 0 else |list| - 2
  }

  /** How many positions before `n` start a new chromosome at the next one. */
  function Changes(chromosome: seq<string>, n: nat): nat
    requires n == 0 || n < |chromosome|
  {
    if n == 0 then 0
    else Changes(chromosome, n - 1) + (if Continues(chromosome, n - 1) then 0 else 1)
  }

  /** One SD is collected per chromosome change the loop has seen. */
  lemma {:induction false} SdScanCount(list: seq<real>, chromosome: seq<string>, n: nat, stats: Stats)
    requires |chromosome| == |list| && n <= Iterations(list)
    ensures |SdScan(list, chromosome, n, stats).sds| == Changes(chromosome, n)
  {
    if n > 0 {
      SdScanCount(list, chromosome, n - 1, stats);
    }
  }

  /** `temp` holds the values since the last chromosome change; the value
      just before a change belongs to no run. */
  lemma {:induction false} SdScanRun(list: seq<real>, chromosome: seq<string>, n: nat, stats: Stats)
    requires |chromosome| == |list| && n <= Iterations(list)
    ensures var t := SdScan(list, chromosome, n, stats).temp;
            && |t| <= n
            && t == list[n - |t|..n]
            && (forall q :: n - |t| <= q < n ==> Continues(chromosome, q))
            && (n - |t| == 0 || !Continues(chromosome, n - |t| - 1))
  {
    if n > 0 {
      SdScanRun(list, chromosome, n - 1, stats);
      var t := SdScan(list, chromosome, n - 1, stats).temp;
      var start := n - 1 - |t|;
      if Continues(chromosome, n - 1) {
        var t' := t + [list[n - 1]];
        assert SdScan(list, chromosome, n, stats).temp == t';
        assert n - |t'| == start;
        assert t' == list[start..n] by {
          assert t == list[start..n - 1];
          assert list[start..n] == list[start..n - 1] + [list[n - 1]];
        }
        forall q | start <= q < n
          ensures Continues(chromosome, q)
        {
        }
      } else {
        assert SdScan(list, chromosome, n, stats).temp == [];
      }
    }
  }

  function Sum(xs: seq<real>): real
  {
    if |xs| == 0 then 0.0 else Sum(xs[..|xs| - 1]) + xs[|xs| - 1]
  }

  /** The result of LocalStandardDeviation: the mean of the per-chromosome
      SDs, or None when there are none, where averaging the empty list
      fails in the code. */
  function LocalSdAverage(list: seq<real>, chromosome: seq<string>, stats: Stats): (r: Option<real>)
    requires |chromosome| == |list|
    ensures r.Some? <==> (|list| >= 2 && Changes(chromosome, Iterations(list)) > 0)
  {
    var sds := SdScan(list, chromosome, Iterations(list), stats).sds;
    SdScanCount(list, chromosome, Iterations(list), stats);
    if |sds| == 0 then None else Some(Sum(sds) / (|sds| as real))
  }

  method LocalStandardDeviation(list: seq<real>, chromosome: seq<string>, stats: Stats) returns (average: Option<real>)
    requires |chromosome| == |list|
    ensures average == LocalSdAverage(list, chromosome, stats)
  {
    var standardDeviations: seq<real> := [];
    var temp: seq<real> := [];
    for it := 0 to Iterations(list)
      invariant RunState(standardDeviations, temp) == SdScan(list, chromosome, it, stats)
    {
      if chromosome[it] == chromosome[it + 1] {
        temp := temp + [list[it]];
      } else {
        standardDeviations := standardDeviations + [stats.mad(temp, 1, |temp|)];
        temp := [];
      }
    }
    if |standardDeviations| == 0 {
      return None;
    }
    var total := 0.0;
    for i := 0 to |standardDeviations|
      invariant total == Sum(standardDeviations[..i])
    {
      assert standardDeviations[..i + 1][..i] == standardDeviations[..i];
      total := total + standardDeviations[i];
    }
    assert standardDeviations[..|standardDeviations|] == standardDeviations;
    average := Some(total / (|standardDeviations| as real));
  }

  /** A list from a single chromosome yields no SD at all, so the code's
      average fails. */
  lemma SingleChromosomeHasNoAverage(list: seq<real>, chromosome: seq<string>, stats: Stats)
    requires |chromosome| == |list|
    requires forall i :: 0 <= i < |chromosome| ==> chromosome[i] == chromosome[0]
    ensures LocalSdAverage(list, chromosome, stats).None?
  {
    if |list| >= 2 {
      NoChanges(chromosome, Iterations(list));
    }
  }

  lemma {:induction false} NoChanges(chromosome: seq<string>, n: nat)
    requires n == 0 || n < |chromosome|
    requires forall i :: 0 <= i < |chromosome| ==> chromosome[i] == chromosome[0]
    ensures Changes(chromosome, n) == 0
  {
    if n > 0 {
      NoChanges(chromosome, n - 1);
    }
  }

  /** What getLocalStandardDeviation returns for `bins`: None where the code
      fails, on an empty list or when the windows span a single chromosome. */
  function LocalSdOf(bins: seq<Bin>, stats: Stats): Option<real>
  {
    if |bins| == 0 then None else LocalSdAverage(LocalSds(bins, stats), WindowChroms(bins), stats)
  }

  method GetLocalStandardDeviation(a: array<Bin>, stats: Stats) returns (localSDaverage: Option<real>)
    modifies a
    ensures localSDaverage == LocalSdOf(old(a[..]), stats)
    ensures a.Length > 0 ==> a[..] == Annotated(old(a[..]), stats)
    ensures a.Length == 0 ==> a[..] == old(a[..])
  {
    var ok, localSDs, chromosomeBin := AnnotateLocalSd(a, stats);
    if !ok {
      return None;
    }
    localSDaverage := LocalStandardDeviation(localSDs, chromosomeBin, stats);
  }

  /** A bin survives the local SD filter unless both its window SD exceeds
      twice the threshold and the sample's average local SD is noisy. */
  function KeepsLocalSd(threshold: real, localSDaverage: real): Bin -> bool
  {
    (b: Bin) => !(b.madOfDiffs > threshold * 2.0 && localSDaverage > NoisySampleCutoff)
  }

  /** What RemoveBinsWithExtremeLocalSD returns, None for the empty list the
      code fails on. */
  function LocalSdFiltered(bins: seq<Bin>, localSDaverage: real, threshold: real, stats: Stats): Option<seq<Bin>>
  {
    if |bins| == 0 then None else Some(Filter(Annotated(bins, stats), KeepsLocalSd(threshold, localSDaverage)))
  }

  method RemoveBinsWithExtremeLocalSD(a: array<Bin>, localSDaverage: real, threshold: real, stats: Stats)
    returns (strippedBins: Option<seq<Bin>>)
    modifies a
    ensures strippedBins == LocalSdFiltered(old(a[..]), localSDaverage, threshold, stats)
    ensures a.Length > 0 ==> a[..] == Annotated(old(a[..]), stats)
    ensures a.Length == 0 ==> a[..] == old(a[..])
  {
    var ok, localSDs, chromosomeBin := AnnotateLocalSd(a, stats);
    if !ok {
      return None;
    }
    var stripped := KeepQuiet(a[..], localSDaverage, threshold);
    strippedBins := Some(stripped);
  }

  /** The filtering loop of RemoveBinsWithExtremeLocalSD. */
  method KeepQuiet(bins: seq<Bin>, localSDaverage: real, threshold: real) returns (strippedBins: seq<Bin>)
    ensures strippedBins == Filter(bins, KeepsLocalSd(threshold, localSDaverage))
  {
    ghost var keep := KeepsLocalSd(threshold, localSDaverage);
    strippedBins := [];
    for i := 0 to |bins|
      invariant strippedBins == Filter(bins[..i], keep)
    {
      var bin := bins[i];
      assert bins[..i + 1] == bins[..i] + [bin];
      FilterSnoc(bins[..i], bin, keep);
      assert keep(bin) == !(bin.madOfDiffs > threshold * 2.0 && localSDaverage > 5.0);
      if bin.madOfDiffs > threshold * 2.0 && localSDaverage > 5.0 {
        continue;
      }
      strippedBins := strippedBins + [bin];
    }
    assert bins[..|bins|] == bins;
  }

  /** A sample whose average local SD is not noisy loses no bin. */
  lemma QuietSampleKeepsAll(bins: seq<Bin>, localSDaverage: real, threshold: real, stats: Stats)
    requires |bins| > 0 && localSDaverage <= NoisySampleCutoff
    ensures LocalSdFiltered(bins, localSDaverage, threshold, stats) == Some(Annotated(bins, stats))
  {
    FilterAll(Annotated(bins, stats), KeepsLocalSd(threshold, localSDaverage));
  }

  /** In a noisy sample exactly the bins whose window SD is at most twice
      the threshold survive, in order. */
  lemma NoisySampleKeepsQuietBins(bins: seq<Bin>, localSDaverage: real, threshold: real, stats: Stats, b: Bin)
    requires |bins| > 0 && localSDaverage > NoisySampleCutoff
    ensures var out := LocalSdFiltered(bins, localSDaverage, threshold, stats).value;
            b in out <==> b in Annotated(bins, stats) && b.madOfDiffs <= threshold * 2.0
  {
    var annotated := Annotated(bins, stats);
    FilterMembership(annotated, KeepsLocalSd(threshold, localSDaverage), b);
    assert KeepsLocalSd(threshold, localSDaverage)(b) == (b.madOfDiffs <= threshold * 2.0);
  }

  /** The local SD filter only drops bins: the sites of its output are a
      subsequence of the sites of its input. */
  lemma LocalSdFilterKeepsSites(bins: seq<Bin>, localSDaverage: real, threshold: real, stats: Stats)
    requires |bins| > 0
    ensures IsSubseq(Sites(LocalSdFiltered(bins, localSDaverage, threshold, stats).value), Sites(bins))
  {
    var annotated := Annotated(bins, stats);
    var out := Filter(annotated, KeepsLocalSd(threshold, localSDaverage));
    FilterIsSubseq(annotated, KeepsLocalSd(threshold, localSDaverage));
    SitesSubseq(out, annotated);
    AnnotatedKeepsCounts(bins, stats);
  }
}

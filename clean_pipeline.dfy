/**
 * The cleaning driver: which stages run, in which order, on which list.
 * Point-outlier removal, then the size filter, then the local SD estimate
 * (on the bins as they are before GC correction), then GC correction, and
 * last the local SD filter, which uses that earlier estimate.
 */
module CleanPipeline {
  import opened Util
  import opened Bins
  import opened GcBuckets
  import opened GcNormalize
  import opened Variance
  import opened LocalSd
  import opened Outliers

  /** The local SD stages are skipped on data with fewer bins than this. */
  const MinBinsForFfpe: int := 50000

  /** Variance stabilisation runs only on data with more bins than this. */
  const MinBinsForVariance: int := 500000

  /** The local SD threshold of the final filter. */
  const LocalSdThreshold: real := 20.0

  /** The command-line switches. `ffpeOutliers` stands for the presence of
      the local SD output path; `minW` is the -w value. */
  datatype Flags = Flags(
    doOutlierRemoval: bool,
    doSizeFilter: bool,
    ffpeOutliers: bool,
    doGCnorm: bool,
    minW: int)

  /** The default switches: no stage requested, -w left at 100. */
  const NoStages := Flags(false, false, false, false, DefaultMinBinsPerGc)

  /** The cleaned bins, with the local SD average written beside them when
      it was estimated; or a run that stops on an exception. */
  datatype Outcome = Cleaned(bins: seq<Bin>, localSd: Option<real>) | Crashed

  /** The bins after the two outlier filters. */
  function Filtered(bins: seq<Bin>, flags: Flags): seq<Bin>
  {
    var afterOutliers := if flags.doOutlierRemoval then WithoutOutliers(bins) else bins;
    if flags.doSizeFilter then WithoutBigBins(afterOutliers) else afterOutliers
  }

  /** The GC correction stage: None where variance stabilisation fails. */
  function GcCorrected(bins: seq<Bin>, minW: int, manifest: Option<Manifest>, isAutosome: string -> bool, stats: Stats): Option<seq<Bin>>
    requires stats.Ordered()
  {
    var stripped := PopulatedBins(bins, DefaultMinBinsPerGc, minW, manifest, isAutosome);
    if |stripped| == 0 then Some(bins)
    else
      var normalized := NormalizedByGC(stripped, manifest, isAutosome, stats);
      if |normalized| <= MinBinsForVariance then Some(normalized)
      else
        var (outcome, stabilized) := VarianceResult(normalized, manifest, isAutosome, stats);
        match outcome
        case IndexOutOfRange => None
        case Normalized(rescaled) =>
          Some(if rescaled then NormalizedByGC(stabilized, None, isAutosome, stats) else stabilized)
  }

  function GcStage(bins: seq<Bin>, flags: Flags, manifest: Option<Manifest>, isAutosome: string -> bool, stats: Stats): Option<seq<Bin>>
    requires stats.Ordered()
  {
    if flags.doGCnorm then GcCorrected(bins, flags.minW, manifest, isAutosome, stats) else Some(bins)
  }

  /** What the cleaning run produces from the input bins. */
  function CleanResult(input: seq<Bin>, flags: Flags, manifest: Option<Manifest>, isAutosome: string -> bool, stats: Stats): Outcome
    requires stats.Ordered()
  {
    AfterFilters(Filtered(input, flags), flags, manifest, isAutosome, stats)
  }

  /** The local SD stages run only on data with enough bins. */
  predicate Ffpe(bins: seq<Bin>, flags: Flags)
  {
    flags.ffpeOutliers && |bins| >= MinBinsForFfpe
  }

  /** The rest of the run once the outlier filters are done. */
  function AfterFilters(bins: seq<Bin>, flags: Flags, manifest: Option<Manifest>, isAutosome: string -> bool, stats: Stats): Outcome
    requires stats.Ordered()
  {
    if !Ffpe(bins, flags) then
      match GcStage(bins, flags, manifest, isAutosome, stats)
      case None => Crashed
      case Some(corrected) => Cleaned(corrected, None)
    else
      match LocalSdOf(bins, stats)
      case None => Crashed
      case Some(localSd) => LocalSdStage(GcStage(Annotated(bins, stats), flags, manifest, isAutosome, stats), localSd, stats)
  }

  /** The final local SD filter, on the GC-corrected bins, with the
      average estimated before GC correction. */
  function LocalSdStage(corrected: Option<seq<Bin>>, localSd: real, stats: Stats): Outcome
  {
    match corrected
    case None => Crashed
    case Some(bins) =>
      match LocalSdFiltered(bins, localSd, LocalSdThreshold, stats)
      case None => Crashed
      case Some(out) => Cleaned(out, Some(localSd))
  }

  /** A fresh array holding `s`. */
  method ToArray(s: seq<Bin>) returns (a: array<Bin>)
    ensures fresh(a) && a[..] == s
  {
    a := new Bin[|s|](i requires 0 <= i < |s| => s[i]);
  }

  method Clean(input: seq<Bin>, flags: Flags, manifest: Option<Manifest>, isAutosome: string -> bool, stats: Stats)
    returns (outcome: Outcome)
    requires stats.Ordered()
    ensures outcome == CleanResult(input, flags, manifest, isAutosome, stats)
  {
    var bins := input;
    if flags.doOutlierRemoval {
      bins := RemoveOutliers(bins);
    }
    if flags.doSizeFilter {
      bins := RemoveBigBins(bins);
    }
    ghost var filtered := bins;
    assert filtered == Filtered(input, flags);
    var ffpe := flags.ffpeOutliers;
    if ffpe && |bins| < MinBinsForFfpe {
      ffpe := false;
    }
    assert ffpe == Ffpe(filtered, flags);
    var localSD: real := -1.0;
    if ffpe {
      var a := ToArray(bins);
      var estimate := GetLocalStandardDeviation(a, stats);
      if estimate.None? {
        return Crashed;
      }
      localSD := estimate.value;
      bins := a[..];
    }
    ghost var gc := GcStage(bins, flags, manifest, isAutosome, stats);
    assert ffpe ==> AfterFilters(filtered, flags, manifest, isAutosome, stats) == LocalSdStage(gc, localSD, stats);
    if flags.doGCnorm {
      var corrected := CorrectGc(bins, flags.minW, manifest, isAutosome, stats);
      if corrected.None? {
        return Crashed;
      }
      bins := corrected.value;
    }
    assert gc == Some(bins);
    if ffpe {
      var a := ToArray(bins);
      var stripped := RemoveBinsWithExtremeLocalSD(a, localSD, LocalSdThreshold, stats);
      if stripped.None? {
        return Crashed;
      }
      return Cleaned(stripped.value, Some(localSD));
    }
    return Cleaned(bins, None);
  }

  /** The GC correction block of the driver. */
  method CorrectGc(bins: seq<Bin>, minW: int, manifest: Option<Manifest>, isAutosome: string -> bool, stats: Stats)
    returns (corrected: Option<seq<Bin>>)
    requires stats.Ordered()
    ensures corrected == GcCorrected(bins, minW, manifest, isAutosome, stats)
  {
    var strippedBins := RemoveBinsWithExtremeGC(bins, DefaultMinBinsPerGc, minW, manifest, isAutosome);
    if |strippedBins| == 0 {
      return Some(bins);
    }
    var a := ToArray(strippedBins);
    NormalizeByGC(a, manifest, isAutosome, stats);
    if a.Length > MinBinsForVariance {
      var outcome := NormalizeVarianceByGC(a, manifest, isAutosome, stats);
      if outcome.IndexOutOfRange? {
        return None;
      }
      if outcome.rescaled {
        NormalizeByGC(a, None, isAutosome, stats);
      }
    }
    return Some(a[..]);
  }

  /** With no stage requested the bins come back untouched. */
  lemma NothingRequestedNothingChanges(input: seq<Bin>, manifest: Option<Manifest>, isAutosome: string -> bool, stats: Stats)
    requires stats.Ordered()
    ensures CleanResult(input, NoStages, manifest, isAutosome, stats) == Cleaned(input, None)
  {
  }

  /** GC correction never adds or moves a bin and never changes a site. */
  lemma GcCorrectedKeepsSites(bins: seq<Bin>, minW: int, manifest: Option<Manifest>, isAutosome: string -> bool, stats: Stats)
    requires stats.Ordered()
    requires GcCorrected(bins, minW, manifest, isAutosome, stats).Some?
    ensures IsSubseq(Sites(GcCorrected(bins, minW, manifest, isAutosome, stats).value), Sites(bins))
  {
    var stripped := PopulatedBins(bins, DefaultMinBinsPerGc, minW, manifest, isAutosome);
    if |stripped| == 0 {
      SubseqRefl(Sites(bins));
    } else {
      var sample := StatsSample(bins, manifest, isAutosome);
      FilterIsSubseq(bins, WellPopulated(Histogram(sample), EffectiveThreshold(DefaultMinBinsPerGc, minW, |sample|)));
      SitesSubseq(stripped, bins);
      var normalized := NormalizedByGC(stripped, manifest, isAutosome, stats);
      NormalizedKeepsSites(stripped, manifest, isAutosome, stats);
      var result := GcCorrected(bins, minW, manifest, isAutosome, stats).value;
      if |normalized| <= MinBinsForVariance {
        assert result == normalized;
      } else {
        var r := VarianceResult(normalized, manifest, isAutosome, stats);
        assert Sites(r.1) == Sites(normalized);
        if r.0 == Normalized(true) {
          NormalizedKeepsSites(r.1, None, isAutosome, stats);
          assert result == NormalizedByGC(r.1, None, isAutosome, stats);
        } else {
          assert result == r.1;
        }
      }
      assert Sites(result) == Sites(stripped);
    }
  }

  /** Cleaning only drops bins: the sites of the output are a subsequence
      of the sites of the input, whatever the switches. */
  lemma CleanedSitesSubseq(input: seq<Bin>, flags: Flags, manifest: Option<Manifest>, isAutosome: string -> bool, stats: Stats)
    requires stats.Ordered()
    requires CleanResult(input, flags, manifest, isAutosome, stats).Cleaned?
    ensures IsSubseq(Sites(CleanResult(input, flags, manifest, isAutosome, stats).bins), Sites(input))
  {
    var bins := Filtered(input, flags);
    FilteredSubseq(input, flags);
    SitesSubseq(bins, input);
    AfterFiltersKeepsSites(bins, flags, manifest, isAutosome, stats);
    SubseqTrans(Sites(AfterFilters(bins, flags, manifest, isAutosome, stats).bins), Sites(bins), Sites(input));
  }

  lemma AfterFiltersKeepsSites(bins: seq<Bin>, flags: Flags, manifest: Option<Manifest>, isAutosome: string -> bool, stats: Stats)
    requires stats.Ordered()
    requires AfterFilters(bins, flags, manifest, isAutosome, stats).Cleaned?
    ensures IsSubseq(Sites(AfterFilters(bins, flags, manifest, isAutosome, stats).bins), Sites(bins))
  {
    if !Ffpe(bins, flags) {
      GcStageKeepsSites(bins, flags, manifest, isAutosome, stats);
    } else {
      var start := Annotated(bins, stats);
      AnnotatedKeepsCounts(bins, stats);
      GcStageKeepsSites(start, flags, manifest, isAutosome, stats);
      var corrected := GcStage(start, flags, manifest, isAutosome, stats).value;
      var localSd := LocalSdOf(bins, stats).value;
      LocalSdFilterKeepsSites(corrected, localSd, LocalSdThreshold, stats);
      SubseqTrans(Sites(LocalSdFiltered(corrected, localSd, LocalSdThreshold, stats).value), Sites(corrected), Sites(start));
    }
  }

  lemma GcStageKeepsSites(bins: seq<Bin>, flags: Flags, manifest: Option<Manifest>, isAutosome: string -> bool, stats: Stats)
    requires stats.Ordered()
    requires GcStage(bins, flags, manifest, isAutosome, stats).Some?
    ensures IsSubseq(Sites(GcStage(bins, flags, manifest, isAutosome, stats).value), Sites(bins))
  {
    if flags.doGCnorm {
      GcCorrectedKeepsSites(bins, flags.minW, manifest, isAutosome, stats);
    } else {
      SubseqRefl(Sites(bins));
    }
  }

  lemma FilteredSubseq(input: seq<Bin>, flags: Flags)
    ensures IsSubseq(Filtered(input, flags), input)
  {
    var afterOutliers := if flags.doOutlierRemoval then WithoutOutliers(input) else input;
    if flags.doOutlierRemoval {
      OutliersSubseq(input);
    } else {
      SubseqRefl(input);
    }
    if flags.doSizeFilter {
      BigBinsSubseq(afterOutliers);
      SubseqTrans(WithoutBigBins(afterOutliers), afterOutliers, input);
    }
  }

  lemma OutliersSubseq(bins: seq<Bin>)
    ensures IsSubseq(WithoutOutliers(bins), bins)
  {
    WithoutOutliersMeaning(bins);
  }

  lemma BigBinsSubseq(bins: seq<Bin>)
    ensures IsSubseq(WithoutBigBins(bins), bins)
  {
    match SizeCut(bins)
    case None => SubseqRefl(bins);
    case Some(thresh) => FilterIsSubseq(bins, FitsUnder(thresh));
  }
}

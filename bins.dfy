/**
 * The records the cleaning pipeline works on: genomic bins with their read
 * counts, targeted-sequencing manifest regions, and the statistics helpers
 * the pipeline calls but does not define.
 */
module Bins {
  import opened Util

  /** GC content is bucketed into the integer percentages 0..100. */
  const NumberOfGcBins: int := 101

  /** Samples a GC bucket needs before its own statistics are trusted. */
  const DefaultMinBinsPerGc: int := 100

  type GcValue = g: int | 0 <= g < 101

  /** A bin: a 0-based half-open window `[start, stop)` of one chromosome,
      its GC percentage, its (possibly normalised) read count, and the local
      noise annotation written by the local-SD stage. */
  datatype Bin = Bin(chrom: string, start: int, stop: int, gc: GcValue, count: real, madOfDiffs: real)

  /** What a stage that only rescales or annotates must leave alone. */
  datatype Site = Site(chrom: string, start: int, stop: int, gc: GcValue)

  function SiteOf(b: Bin): Site { Site(b.chrom, b.start, b.stop, b.gc) }

  function Sites(bins: seq<Bin>): (r: seq<Site>)
    ensures |r| == |bins|
  {
    seq(|bins|, i requires 0 <= i < |bins| => SiteOf(bins[i]))
  }

  /** A stage that only drops bins drops their sites and nothing else. */
  lemma SitesSubseq(xs: seq<Bin>, ys: seq<Bin>)
    requires IsSubseq(xs, ys)
    ensures IsSubseq(Sites(xs), Sites(ys))
  {
    var f :| Embeds(f, xs, ys);
    assert Embeds(f, Sites(xs), Sites(ys));
  }

  /** A manifest region, 1-based with both ends inclusive. */
  datatype Region = Region(start: int, end: int)

  /** Manifest regions grouped by chromosome. */
  type Manifest = map<string, seq<Region>>

  /** Regions are well formed, sorted by start and pairwise disjoint. */
  ghost predicate SortedRegions(rs: seq<Region>)
  {
    && (forall k :: 0 <= k < |rs| ==> rs[k].start <= rs[k].end)
    && (forall k, l :: 0 <= k < l < |rs| ==> rs[k].end < rs[l].start)
  }

  ghost predicate SortedManifest(m: Manifest)
  {
    forall c :: c in m ==> SortedRegions(m[c])
  }

  /** Within each run of one chromosome, bins come in order of start. */
  ghost predicate SortedRuns(bins: seq<Bin>)
  {
    forall i :: 0 <= i < |bins| - 1 && bins[i].chrom == bins[i + 1].chrom ==> bins[i].start <= bins[i + 1].start
  }

  /** A count paired with the weight it carries in a weighted statistic. */
  datatype Weighted = Weighted(value: real, weight: real)

  datatype Quartiles = Quartiles(q1: real, median: real, q3: real)

  /** The statistics helpers of the surrounding library, taken as given.
      `weightedQuartiles` gives the weighted quantiles at 0.25, 0.5 and 0.75;
      `standardDeviation` and `mad` receive the array and the index bounds
      exactly as the pipeline passes them. */
  datatype Stats = Stats(
    median: seq<real> -> real,
    quartiles: seq<real> -> Quartiles,
    weightedMedian: seq<Weighted> -> Option<real>,
    weightedQuartiles: seq<Weighted> -> Quartiles,
    standardDeviation: (seq<real>, int, int) -> real,
    mad: (seq<real>, int, int) -> real)
  {
    /** Quartile helpers never return a first quartile above the third. */
    ghost predicate Ordered()
    {
      && (forall s :: quartiles(s).q1 <= quartiles(s).q3)
      && (forall w :: weightedQuartiles(w).q1 <= weightedQuartiles(w).q3)
    }
  }
}

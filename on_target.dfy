/**
 * The on-target filter: a merge-join of the bin stream against the
 * manifest, with one forward-moving region cursor per chromosome run.
 */
module OnTarget {
  import opened Util
  import opened Bins

  /** A 1-based inclusive region overlaps a 0-based half-open bin. */
  predicate Overlaps(b: Bin, r: Region)
  {
    r.start <= b.stop && r.end >= b.start + 1
  }

  /** The reference notion: some manifest region of the bin's chromosome
      overlaps it. */
  predicate IsOnTarget(b: Bin, m: Manifest)
  {
    b.chrom in m && exists j :: 0 <= j < |m[b.chrom]| && Overlaps(b, m[b.chrom][j])
  }

  /** The loop's state between two bins: the chromosome seen last, that
      chromosome's regions (None when it has none), and the region index. */
  datatype Cursor = Cursor(chrom: Option<string>, regions: Option<seq<Region>>, index: int)

  const Start := Cursor(None, None, -1)

  ghost predicate Consistent(c: Cursor, m: Manifest)
  {
    && (c.chrom.None? ==> c.regions.None?)
    && (c.chrom.Some? ==>
          && (c.regions.Some? <==> c.chrom.value in m)
          && (c.regions.Some? ==> c.regions.value == m[c.chrom.value] && 0 <= c.index <= |c.regions.value|))
  }

  /** Every region the cursor has passed ends before bin `b` begins. */
  ghost predicate Behind(c: Cursor, b: Bin)
  {
    c.chrom == Some(b.chrom) && c.regions.Some? ==>
      forall k :: 0 <= k < c.index <= |c.regions.value| ==> c.regions.value[k].end < b.start + 1
  }

  /** The region index after skipping every region that ends before the
      1-based position `from`. */
  function SkipEnded(rs: seq<Region>, i: nat, from: int): (r: nat)
    requires i <= |rs|
    decreases |rs| - i
    ensures i <= r <= |rs|
    ensures forall k :: i <= k < r ==> rs[k].end < from
    ensures r < |rs| ==> rs[r].end >= from
  {
    if i == |rs| || rs[i].end >= from then i else SkipEnded(rs, i + 1, from)
  }

  /** The cursor after the loop has looked at bin `b`. */
  function Step(c: Cursor, b: Bin, m: Manifest): (d: Cursor)
    requires Consistent(c, m)
    ensures Consistent(d, m) && d.chrom == Some(b.chrom)
  {
    var c1 :=
      if c.chrom != Some(b.chrom) then
        if b.chrom !in m then Cursor(Some(b.chrom), None, c.index)
        else Cursor(Some(b.chrom), Some(m[b.chrom]), 0)
      else c;
    if c1.regions.Some? then c1.(index := SkipEnded(c1.regions.value, c1.index, b.start + 1)) else c1
  }

  /** Whether the loop yields bin `b`, judged on the cursor after Step. */
  predicate Yields(d: Cursor, b: Bin)
  {
    d.regions.Some? && 0 <= d.index < |d.regions.value| && d.regions.value[d.index].start <= b.stop
  }

  /** What the loop yields for `bins` when it starts from cursor `c`. */
  function Scan(bins: seq<Bin>, m: Manifest, c: Cursor): (r: seq<Bin>)
    requires Consistent(c, m)
    decreases |bins|
  {
    if |bins| == 0 then []
    else
      var d := Step(c, bins[0], m);
      (if Yields(d, bins[0]) then [bins[0]] else []) + Scan(bins[1..], m, d)
  }

  /** The on-target bins, in input order, as the merge-join finds them. */
  function OnTargetBins(bins: seq<Bin>, m: Manifest): seq<Bin>
  {
    Scan(bins, m, Start)
  }

  method GetOnTargetBins(bins: seq<Bin>, manifest: Manifest) returns (out: seq<Bin>)
    ensures out == OnTargetBins(bins, manifest)
    ensures forall b :: b in out ==> b in bins && IsOnTarget(b, manifest)
    ensures IsSubseq(out, bins)
    ensures SortedRuns(bins) && SortedManifest(manifest) ==>
              out == Filter(bins, b => IsOnTarget(b, manifest))
  {
    var currChrom: Option<string> := None;
    var regions: Option<seq<Region>> := None;
    var regionIndex := -1;
    out := [];
    for i := 0 to |bins|
      invariant Consistent(Cursor(currChrom, regions, regionIndex), manifest)
      invariant out + Scan(bins[i..], manifest, Cursor(currChrom, regions, regionIndex)) == OnTargetBins(bins, manifest)
    {
      var bin := bins[i];
      ScanStep(bins, manifest, Cursor(currChrom, regions, regionIndex), i, out);
      var offTarget;
      currChrom, regions, regionIndex, offTarget := Advance(currChrom, regions, regionIndex, bin, manifest);
      if offTarget { continue; }
      out := out + [bin];
    }
    OnTargetBinsMeaning(bins, manifest);
  }

  /** The scan from position `i` looks at `bins[i]` and goes on from the
      cursor after it; `out` is what the earlier positions yielded. */
  lemma ScanStep(bins: seq<Bin>, m: Manifest, c: Cursor, i: nat, out: seq<Bin>)
    requires Consistent(c, m) && i < |bins|
    ensures Yields(Step(c, bins[i], m), bins[i]) ==>
              out + Scan(bins[i..], m, c) == (out + [bins[i]]) + Scan(bins[i + 1..], m, Step(c, bins[i], m))
    ensures !Yields(Step(c, bins[i], m), bins[i]) ==>
              out + Scan(bins[i..], m, c) == out + Scan(bins[i + 1..], m, Step(c, bins[i], m))
  {
    var d := Step(c, bins[i], m);
    var x := if Yields(d, bins[i]) then [bins[i]] else [];
    var rest := Scan(bins[i + 1..], m, d);
    ScanUnfold(bins, m, c, i);
    AppendAssoc(out, x, rest);
  }

  lemma ScanUnfold(bins: seq<Bin>, m: Manifest, c: Cursor, i: nat)
    requires Consistent(c, m) && i < |bins|
    ensures Scan(bins[i..], m, c) ==
              (if Yields(Step(c, bins[i], m), bins[i]) then [bins[i]] else []) + Scan(bins[i + 1..], m, Step(c, bins[i], m))
  {
    assert bins[i..][0] == bins[i] && bins[i..][1..] == bins[i + 1..];
  }

  /** What the merge-join's output means: on-target input bins, in input
      order, and under the sortedness it relies on exactly the on-target
      ones. */
  lemma OnTargetBinsMeaning(bins: seq<Bin>, manifest: Manifest)
    ensures forall b :: b in OnTargetBins(bins, manifest) ==> b in bins && IsOnTarget(b, manifest)
    ensures IsSubseq(OnTargetBins(bins, manifest), bins)
    ensures SortedRuns(bins) && SortedManifest(manifest) ==>
              OnTargetBins(bins, manifest) == Filter(bins, b => IsOnTarget(b, manifest))
  {
    ScanSound(bins, manifest, Start);
    ScanIsSubseq(bins, manifest, Start);
    if SortedRuns(bins) && SortedManifest(manifest) {
      ScanIsFilter(bins, manifest, Start);
    }
  }

  /** One pass of the loop body: switch chromosome if needed, skip the
      regions that end before the bin, and decide whether it is off target. */
  method Advance(currChrom0: Option<string>, regions0: Option<seq<Region>>, regionIndex0: int, bin: Bin, manifest: Manifest)
    returns (currChrom: Option<string>, regions: Option<seq<Region>>, regionIndex: int, offTarget: bool)
    requires Consistent(Cursor(currChrom0, regions0, regionIndex0), manifest)
    ensures Cursor(currChrom, regions, regionIndex) == Step(Cursor(currChrom0, regions0, regionIndex0), bin, manifest)
    ensures offTarget == !Yields(Cursor(currChrom, regions, regionIndex), bin)
  {
    currChrom, regions, regionIndex := currChrom0, regions0, regionIndex0;
    if currChrom != Some(bin.chrom) {
      currChrom := Some(bin.chrom);
      offTarget := true;
      if bin.chrom !in manifest {
        regions := None;
      } else {
        regions := Some(manifest[bin.chrom]);
        regionIndex := 0;
      }
    }
    ghost var skipFrom := regionIndex;
    while regions.Some? && regionIndex < |regions.value| && regions.value[regionIndex].end < bin.start + 1
      invariant regions.None? ==> regionIndex == skipFrom
      invariant regions.Some? ==> 0 <= skipFrom <= regionIndex <= |regions.value|
      invariant regions.Some? ==> SkipEnded(regions.value, regionIndex, bin.start + 1) == SkipEnded(regions.value, skipFrom, bin.start + 1)
      decreases if regions.Some? then |regions.value| - regionIndex else 0
    {
      regionIndex := regionIndex + 1;
    }
    if regions.Some? && regionIndex < |regions.value| && regions.value[regionIndex].start <= bin.stop {
      offTarget := false;
    } else {
      offTarget := true;
    }
  }

  /** Everything the scan yields is an on-target input bin. */
  lemma {:induction false} ScanSound(bins: seq<Bin>, m: Manifest, c: Cursor)
    requires Consistent(c, m)
    ensures forall b :: b in Scan(bins, m, c) ==> b in bins && IsOnTarget(b, m)
    decreases |bins|
  {
    if |bins| > 0 {
      var d := Step(c, bins[0], m);
      ScanSound(bins[1..], m, d);
      if Yields(d, bins[0]) {
        assert Overlaps(bins[0], m[bins[0].chrom][d.index]);
      }
      forall b | b in bins[1..] ensures b in bins { }
    }
  }

  lemma {:induction false} ScanIsSubseq(bins: seq<Bin>, m: Manifest, c: Cursor)
    requires Consistent(c, m)
    ensures IsSubseq(Scan(bins, m, c), bins)
    decreases |bins|
  {
    if |bins| == 0 {
      assert Embeds([], Scan(bins, m, c), bins);
    } else {
      var d := Step(c, bins[0], m);
      ScanIsSubseq(bins[1..], m, d);
      var tail := Scan(bins[1..], m, d);
      SubseqCons(tail, bins[1..], bins[0], Yields(d, bins[0]));
      assert [bins[0]] + bins[1..] == bins;
      if Yields(d, bins[0]) {
        assert Scan(bins, m, c) == [bins[0]] + tail;
      } else {
        assert Scan(bins, m, c) == tail;
      }
    }
  }

  /** With the cursor behind `b`, the step keeps the cursor behind `b` and
      yields `b` exactly when it is on target. */
  lemma StepDecides(c: Cursor, b: Bin, m: Manifest)
    requires Consistent(c, m) && Behind(c, b) && SortedManifest(m)
    ensures Behind(Step(c, b, m), b)
    ensures Yields(Step(c, b, m), b) <==> IsOnTarget(b, m)
  {
    var d := Step(c, b, m);
    if IsOnTarget(b, m) {
      var rs := m[b.chrom];
      var j :| 0 <= j < |rs| && Overlaps(b, rs[j]);
      assert d.regions == Some(rs);
      assert j >= d.index;
      if j > d.index {
        assert rs[d.index].start <= rs[d.index].end < rs[j].start;
      }
    }
  }

  /** Under the sortedness the merge-join relies on, the scan is exactly the
      filter by the reference notion of being on target. */
  lemma {:induction false} ScanIsFilter(bins: seq<Bin>, m: Manifest, c: Cursor)
    requires Consistent(c, m) && SortedRuns(bins) && SortedManifest(m)
    requires |bins| > 0 ==> Behind(c, bins[0])
    ensures Scan(bins, m, c) == Filter(bins, b => IsOnTarget(b, m))
    decreases |bins|
  {
    if |bins| > 0 {
      var d := Step(c, bins[0], m);
      StepDecides(c, bins[0], m);
      var rest := bins[1..];
      assert SortedRuns(rest) by {
        forall i | 0 <= i < |rest| - 1 && rest[i].chrom == rest[i + 1].chrom
          ensures rest[i].start <= rest[i + 1].start
        {
          assert rest[i] == bins[i + 1] && rest[i + 1] == bins[i + 2];
        }
      }
      if |rest| > 0 {
        assert bins[1] == rest[0];
        if bins[0].chrom == bins[1].chrom {
          assert bins[0].start <= bins[1].start;
        }
      }
      ScanIsFilter(rest, m, d);
      FilterCons(bins[0], rest, b => IsOnTarget(b, m));
      assert [bins[0]] + rest == bins;
    }
  }
}

/**
 * The clipping of partitioned bins to targeted regions: a merge-join of the
 * bin records against the manifest regions of each chromosome, writing one
 * clipped record per (bin, region) intersection the region cursor meets.
 * Bins are 0-based half-open BED intervals, regions 1-based inclusive.
 */
module Intersect {
  import opened Util
  import opened Bins

  /** One line of the partitioned file: chromosome, 0-based inclusive start,
      0-based exclusive end, and the remaining columns. */
  datatype BedRecord = BedRecord(chrom: string, start: int, end: int, rest: seq<string>)

  /** One written line, with the input line it came from and the index of
      the region it was clipped to. */
  datatype Piece = Piece(bin: nat, regionIndex: nat, record: BedRecord)

  /** The loop's cursor: the chromosome seen last and the region index. */
  datatype Cursor = Cursor(chrom: Option<string>, index: nat)

  function Max(a: int, b: int): int { if a >= b then a else b }

  function Min(a: int, b: int): int { if a <= b then a else b }

  /** A bin clipped to a region, converted to 1-based inclusive coordinates,
      intersected, and converted back. */
  function Clip(rec: BedRecord, r: Region): (out: BedRecord)
    ensures out.chrom == rec.chrom && out.rest == rec.rest
    ensures rec.start <= out.start && r.start - 1 <= out.start
    ensures out.start == rec.start || out.start == r.start - 1
    ensures out.end <= rec.end && out.end <= r.end
    ensures out.end == rec.end || out.end == r.end
    ensures rec.start < rec.end && r.start <= r.end && r.start <= rec.end && rec.start + 1 <= r.end ==>
              out.start < out.end
  {
    rec.(start := Max(rec.start + 1, r.start) - 1, end := Min(rec.end, r.end))
  }

  /** The region index after skipping every region that ends before the
      1-based position `from`. */
  function Skip(rs: seq<Region>, i: nat, from: int): (r: nat)
    requires i <= |rs|
    decreases |rs| - i
    ensures i <= r <= |rs|
    ensures r < |rs| ==> rs[r].end >= from
  {
    if i == |rs| || rs[i].end >= from then i else Skip(rs, i + 1, from)
  }

  /** Every region skipped ends before `from`. */
  lemma {:induction false} SkipPasses(rs: seq<Region>, i: nat, from: int, k: nat)
    requires i <= |rs| && i <= k < Skip(rs, i, from)
    decreases |rs| - i
    ensures rs[k].end < from
  {
    if k > i {
      SkipPasses(rs, i + 1, from, k);
    }
  }

  /** The end of the run of regions, from `i`, that start at or before the
      1-based position `to`. */
  function RunEnd(rs: seq<Region>, i: nat, to: int): (r: nat)
    requires i <= |rs|
    decreases |rs| - i
    ensures i <= r <= |rs|
    ensures r < |rs| ==> rs[r].start > to
  {
    if i == |rs| || rs[i].start > to then i else RunEnd(rs, i + 1, to)
  }

  /** Every region of the run starts at or before `to`. */
  lemma {:induction false} RunEndCovers(rs: seq<Region>, i: nat, to: int, k: nat)
    requires i <= |rs| && i <= k < RunEnd(rs, i, to)
    decreases |rs| - i
    ensures rs[k].start <= to
  {
    if k > i {
      RunEndCovers(rs, i + 1, to, k);
    }
  }

  /** The region index once the cursor has looked at a record of `chrom`:
      reset to 0 on a change of chromosome. */
  function Entry(c: Cursor, chrom: string): nat
  {
    if c.chrom == Some(chrom) then c.index else 0
  }

  predicate Consistent(c: Cursor, m: Manifest)
  {
    && (c.chrom.None? ==> c.index == 0)
    && (c.chrom.Some? && c.chrom.value in m ==> c.index <= |m[c.chrom.value]|)
    && (c.chrom.Some? && c.chrom.value !in m ==> c.index == 0)
  }

  /** The first region index the record is clipped to. */
  function First(c: Cursor, rec: BedRecord, m: Manifest): (lo: nat)
    requires Consistent(c, m) && rec.chrom in m
    ensures lo <= |m[rec.chrom]|
  {
    Skip(m[rec.chrom], Entry(c, rec.chrom), rec.start + 1)
  }

  /** One past the last region index the record is clipped to. */
  function Last(c: Cursor, rec: BedRecord, m: Manifest): (hi: nat)
    requires Consistent(c, m) && rec.chrom in m
    ensures First(c, rec, m) <= hi <= |m[rec.chrom]|
  {
    RunEnd(m[rec.chrom], First(c, rec, m), rec.end)
  }

  /** The cursor after the record: past every region it was clipped to. */
  function Advance(c: Cursor, rec: BedRecord, m: Manifest): (d: Cursor)
    requires Consistent(c, m)
    ensures Consistent(d, m) && d.chrom == Some(rec.chrom)
  {
    if rec.chrom !in m then Cursor(Some(rec.chrom), Entry(c, rec.chrom))
    else Cursor(Some(rec.chrom), Last(c, rec, m))
  }

  /** Record `rec`, input line `bin`, clipped to regions [lo, hi) of `rs`. */
  function PiecesOf(bin: nat, rec: BedRecord, rs: seq<Region>, lo: nat, hi: nat): (ps: seq<Piece>)
    requires lo <= hi <= |rs|
    ensures |ps| == hi - lo
    ensures forall k :: 0 <= k < |ps| ==> ps[k] == Piece(bin, lo + k, Clip(rec, rs[lo + k]))
    decreases hi - lo
  {
    if hi == lo then [] else PiecesOf(bin, rec, rs, lo, hi - 1) + [Piece(bin, hi - 1, Clip(rec, rs[hi - 1]))]
  }

  datatype State = State(cursor: Cursor, pieces: seq<Piece>)

  /** The cursor and the written pieces after the first `n` records. */
  function ScanUpTo(records: seq<BedRecord>, m: Manifest, n: nat): (st: State)
    requires n <= |records|
    ensures Consistent(st.cursor, m)
  {
    if n == 0 then State(Cursor(None, 0), [])
    else
      var prev := ScanUpTo(records, m, n - 1);
      var rec := records[n - 1];
      var c := prev.cursor;
      if rec.chrom !in m then State(Advance(c, rec, m), prev.pieces)
      else State(Advance(c, rec, m), prev.pieces + PiecesOf(n - 1, rec, m[rec.chrom], First(c, rec, m), Last(c, rec, m)))
  }

  function Records(ps: seq<Piece>): (r: seq<BedRecord>)
    ensures |r| == |ps|
  {
    if |ps| == 0 then [] else Records(ps[..|ps| - 1]) + [ps[|ps| - 1].record]
  }

  /** The lines written for the whole input. */
  function Intersected(records: seq<BedRecord>, m: Manifest): seq<BedRecord>
  {
    Records(ScanUpTo(records, m, |records|).pieces)
  }

  method IntersectBinsWithTargetedRegions(records: seq<BedRecord>, manifest: Manifest) returns (written: seq<BedRecord>)
    ensures written == Intersected(records, manifest)
  {
    var currentChrom: Option<string> := None;
    var manifestRegionIdx: nat := 0;
    written := [];
    for i := 0 to |records|
      invariant Cursor(currentChrom, manifestRegionIdx) == ScanUpTo(records, manifest, i).cursor
      invariant written == Records(ScanUpTo(records, manifest, i).pieces)
    {
      ghost var prev := ScanUpTo(records, manifest, i);
      var lines;
      currentChrom, manifestRegionIdx, lines := IntersectOne(records[i], currentChrom, manifestRegionIdx, manifest, i);
      if records[i].chrom in manifest {
        var c := prev.cursor;
        RecordsAppend(prev.pieces, PiecesOf(i, records[i], manifest[records[i].chrom], First(c, records[i], manifest), Last(c, records[i], manifest)));
      }
      written := written + lines;
    }
  }

  /** One pass of the outer loop: switch chromosome if needed, skip the
      regions ending before the bin, then write the bin clipped to each
      region that starts before it ends. */
  method IntersectOne(record: BedRecord, currentChrom0: Option<string>, manifestRegionIdx0: nat, manifest: Manifest, ghost bin: nat)
    returns (currentChrom: Option<string>, manifestRegionIdx: nat, lines: seq<BedRecord>)
    requires Consistent(Cursor(currentChrom0, manifestRegionIdx0), manifest)
    ensures Cursor(currentChrom, manifestRegionIdx) == Advance(Cursor(currentChrom0, manifestRegionIdx0), record, manifest)
    ensures record.chrom !in manifest ==> lines == []
    ensures record.chrom in manifest ==>
              lines == Records(PiecesOf(bin, record, manifest[record.chrom],
                                        First(Cursor(currentChrom0, manifestRegionIdx0), record, manifest),
                                        Last(Cursor(currentChrom0, manifestRegionIdx0), record, manifest)))
  {
    currentChrom, manifestRegionIdx := currentChrom0, manifestRegionIdx0;
    lines := [];
    var start := record.start + 1;
    var end := record.end;
    if Some(record.chrom) != currentChrom {
      currentChrom := Some(record.chrom);
      manifestRegionIdx := 0;
    }
    if record.chrom !in manifest {
      return;
    }
    var regions := manifest[record.chrom];
    manifestRegionIdx := SkipRegions(regions, manifestRegionIdx, start);
    if manifestRegionIdx >= |regions| || end < regions[manifestRegionIdx].start {
      return;
    }
    manifestRegionIdx, lines := WriteRun(record, regions, manifestRegionIdx, bin);
  }

  /** The skipping loop: past every region that ends before `start`. */
  method SkipRegions(regions: seq<Region>, idx0: nat, start: int) returns (idx: nat)
    requires idx0 <= |regions|
    ensures idx == Skip(regions, idx0, start)
  {
    idx := idx0;
    while idx < |regions| && regions[idx].end < start
      invariant idx0 <= idx <= |regions|
      invariant Skip(regions, idx, start) == Skip(regions, idx0, start)
      decreases |regions| - idx
    {
      idx := idx + 1;
    }
  }

  /** The writing loop: the record clipped to each region, from `lo`, that
      starts no later than the record ends. */
  method WriteRun(record: BedRecord, regions: seq<Region>, lo: nat, ghost bin: nat) returns (idx: nat, lines: seq<BedRecord>)
    requires lo <= |regions|
    ensures idx == RunEnd(regions, lo, record.end)
    ensures lines == Records(PiecesOf(bin, record, regions, lo, idx))
  {
    var start := record.start + 1;
    var end := record.end;
    idx, lines := lo, [];
    while idx < |regions| && end >= regions[idx].start
      invariant lo <= idx <= |regions|
      invariant RunEnd(regions, idx, end) == RunEnd(regions, lo, end)
      invariant lines == Records(PiecesOf(bin, record, regions, lo, idx))
      decreases |regions| - idx
    {
      var intersectionStart := Max(start, regions[idx].start);
      var intersectionEnd := Min(end, regions[idx].end);
      lines := lines + [record.(start := intersectionStart - 1, end := intersectionEnd)];
      idx := idx + 1;
      ghost var ps := PiecesOf(bin, record, regions, lo, idx);
      assert ps[..|ps| - 1] == PiecesOf(bin, record, regions, lo, idx - 1);
    }
  }

  lemma {:induction false} RecordsAppend(a: seq<Piece>, b: seq<Piece>)
    ensures Records(a + b) == Records(a) + Records(b)
    decreases |b|
  {
    if |b| > 0 {
      var init := b[..|b| - 1];
      RecordsAppend(a, init);
      assert (a + b)[..|a + b| - 1] == a + init;
    } else {
      assert a + b == a;
    }
  }

  /** Where a written piece comes from: an input line on a chromosome of the
      manifest, clipped to one of that chromosome's regions that starts no
      later than the line ends. */
  ghost predicate Provenance(records: seq<BedRecord>, m: Manifest, p: Piece)
  {
    && p.bin < |records|
    && records[p.bin].chrom in m
    && p.regionIndex < |m[records[p.bin].chrom]|
    && m[records[p.bin].chrom][p.regionIndex].start <= records[p.bin].end
    && p.record == Clip(records[p.bin], m[records[p.bin].chrom][p.regionIndex])
  }

  /** Every written line is an input line on a manifest chromosome, clipped
      to one of its regions: inside both the bin and the region, with the
      other columns copied. Lines of other chromosomes write nothing. */
  lemma {:induction false} PiecesProvenance(records: seq<BedRecord>, m: Manifest, n: nat)
    requires n <= |records|
    ensures forall k :: 0 <= k < |ScanUpTo(records, m, n).pieces| ==>
              Provenance(records, m, ScanUpTo(records, m, n).pieces[k]) && ScanUpTo(records, m, n).pieces[k].bin < n
  {
    if n > 0 {
      PiecesProvenance(records, m, n - 1);
      var prev, rec := ScanUpTo(records, m, n - 1), records[n - 1];
      if rec.chrom in m {
        var lo := First(prev.cursor, rec, m);
        forall j | lo <= j < Last(prev.cursor, rec, m)
          ensures m[rec.chrom][j].start <= rec.end
        {
          RunEndCovers(m[rec.chrom], lo, rec.end, j);
        }
      }
    }
  }

  /** The lines from `i` to `j` all lie on one chromosome. */
  ghost predicate SameRun(records: seq<BedRecord>, i: int, j: int)
    requires 0 <= i <= j < |records|
  {
    forall q :: i <= q < j ==> Continues(records, q)
  }

  /** Line `q + 1` is on the same chromosome as line `q`. */
  ghost predicate Continues(records: seq<BedRecord>, q: int)
  {
    0 <= q < |records| - 1 && records[q].chrom == records[q + 1].chrom
  }

  /** Pieces in input order; within a run of one chromosome, strictly
      increasing region indices. */
  ghost predicate InOrder(records: seq<BedRecord>, ps: seq<Piece>)
  {
    forall k, l :: 0 <= k < l < |ps| ==> PairInOrder(records, ps[k], ps[l])
  }

  ghost predicate PairInOrder(records: seq<BedRecord>, p: Piece, q: Piece)
  {
    && p.bin <= q.bin
    && (q.bin < |records| && SameRun(records, p.bin, q.bin) ==> p.regionIndex < q.regionIndex)
  }

  /** Every piece written in the run of line `b` has a region index below
      `index`. */
  ghost predicate Behind(records: seq<BedRecord>, ps: seq<Piece>, b: nat, index: nat)
  {
    forall k :: 0 <= k < |ps| && ps[k].bin <= b < |records| && SameRun(records, ps[k].bin, b) ==> ps[k].regionIndex < index
  }

  /** The written pieces come in input order; within a run of one
      chromosome their region indices strictly increase, so one bin's
      pieces are consecutive regions and a region spanning two bins is
      written for the first only. The cursor is past every region written
      in the current run. */
  lemma {:induction false} RunOrder(records: seq<BedRecord>, m: Manifest, n: nat)
    requires n <= |records|
    ensures InOrder(records, ScanUpTo(records, m, n).pieces)
    ensures n > 0 ==> Behind(records, ScanUpTo(records, m, n).pieces, n - 1, ScanUpTo(records, m, n).cursor.index)
  {
    if n > 0 {
      RunOrder(records, m, n - 1);
      BinsBelow(records, m, n - 1);
      var prev := ScanUpTo(records, m, n - 1);
      var rec := records[n - 1];
      CarryBehind(records, prev.pieces, prev.cursor, n - 1);
      if rec.chrom in m {
        var first := First(prev.cursor, rec, m);
        BehindMonotone(records, prev.pieces, n - 1, Entry(prev.cursor, rec.chrom), first);
        var added := PiecesOf(n - 1, rec, m[rec.chrom], first, Last(prev.cursor, rec, m));
        AppendInOrder(records, prev.pieces, added, n - 1, first);
        assert ScanUpTo(records, m, n).pieces == prev.pieces + added;
        assert ScanUpTo(records, m, n).cursor.index == first + |added|;
      } else {
        assert ScanUpTo(records, m, n) == State(Cursor(Some(rec.chrom), Entry(prev.cursor, rec.chrom)), prev.pieces);
      }
    }
  }

  lemma {:induction false} BinsBelow(records: seq<BedRecord>, m: Manifest, n: nat)
    requires n <= |records|
    ensures forall k :: 0 <= k < |ScanUpTo(records, m, n).pieces| ==> ScanUpTo(records, m, n).pieces[k].bin < n
  {
    if n > 0 {
      BinsBelow(records, m, n - 1);
    }
  }

  /** The pieces behind the cursor before line `b` stay behind it when line
      `b` continues the run, and none is in line `b`'s run otherwise. */
  lemma CarryBehind(records: seq<BedRecord>, ps: seq<Piece>, c: Cursor, b: nat)
    requires b < |records|
    requires forall k :: 0 <= k < |ps| ==> ps[k].bin < b
    requires b > 0 ==> Behind(records, ps, b - 1, c.index) && c.chrom == Some(records[b - 1].chrom)
    requires b == 0 ==> ps == []
    ensures Behind(records, ps, b, Entry(c, records[b].chrom))
  {
    forall k | 0 <= k < |ps| && ps[k].bin <= b && SameRun(records, ps[k].bin, b)
      ensures ps[k].regionIndex < Entry(c, records[b].chrom)
    {
      assert SameRun(records, ps[k].bin, b - 1) && Continues(records, b - 1);
    }
  }

  lemma BehindMonotone(records: seq<BedRecord>, ps: seq<Piece>, b: nat, index: nat, index': nat)
    requires Behind(records, ps, b, index) && index <= index'
    ensures Behind(records, ps, b, index')
  {
  }

  /** Appending line `b`'s pieces, which start at region `lo`, keeps the
      order and leaves the cursor behind them. */
  lemma AppendInOrder(records: seq<BedRecord>, ps: seq<Piece>, added: seq<Piece>, b: nat, lo: nat)
    requires b < |records| && InOrder(records, ps) && Behind(records, ps, b, lo)
    requires forall k :: 0 <= k < |ps| ==> ps[k].bin < b
    requires forall k :: 0 <= k < |added| ==> added[k].bin == b && added[k].regionIndex == lo + k
    ensures InOrder(records, ps + added)
    ensures Behind(records, ps + added, b, lo + |added|)
  {
    var all := ps + added;
    forall k, l | 0 <= k < l < |all|
      ensures PairInOrder(records, all[k], all[l])
    {
      if k >= |ps| {
        assert all[k] == added[k - |ps|] && all[l] == added[l - |ps|];
      } else if l >= |ps| {
        assert all[k] == ps[k] && all[l] == added[l - |ps|];
      } else {
        assert all[k] == ps[k] && all[l] == ps[l];
      }
    }
    forall k | 0 <= k < |all| && all[k].bin <= b && SameRun(records, all[k].bin, b)
      ensures all[k].regionIndex < lo + |added|
    {
      if k >= |ps| {
        assert all[k] == added[k - |ps|];
      } else {
        assert all[k] == ps[k];
      }
    }
  }

  /** The region of piece `p` ends at or after the first base of its line. */
  ghost predicate Overlaps(records: seq<BedRecord>, m: Manifest, p: Piece)
  {
    && p.bin < |records|
    && records[p.bin].chrom in m
    && p.regionIndex < |m[records[p.bin].chrom]|
    && m[records[p.bin].chrom][p.regionIndex].end >= records[p.bin].start + 1
  }

  /** Under a sorted manifest every written piece overlaps its region, so a
      non-empty bin clipped to a well-formed region is non-empty. */
  lemma {:induction false} PiecesOverlap(records: seq<BedRecord>, m: Manifest, n: nat)
    requires n <= |records| && SortedManifest(m)
    ensures forall k :: 0 <= k < |ScanUpTo(records, m, n).pieces| ==> Overlaps(records, m, ScanUpTo(records, m, n).pieces[k])
  {
    if n > 0 {
      PiecesOverlap(records, m, n - 1);
      var prev, rec := ScanUpTo(records, m, n - 1), records[n - 1];
      if rec.chrom in m {
        var rs := m[rec.chrom];
        var lo, hi := First(prev.cursor, rec, m), Last(prev.cursor, rec, m);
        var added := PiecesOf(n - 1, rec, rs, lo, hi);
        var ps := prev.pieces + added;
        assert ScanUpTo(records, m, n).pieces == ps;
        forall k | 0 <= k < |ps|
          ensures Overlaps(records, m, ps[k])
        {
          if k < |prev.pieces| {
            assert ps[k] == prev.pieces[k];
          } else {
            var j := lo + (k - |prev.pieces|);
            assert ps[k] == added[k - |prev.pieces|] == Piece(n - 1, j, Clip(rec, rs[j]));
            RunOverlaps(m, rec.chrom, lo, j, rec.start + 1);
          }
        }
      }
    }
  }

  /** In a sorted manifest, a region after one that ends at or after
      `from` ends at or after `from` too. */
  lemma RunOverlaps(m: Manifest, chrom: string, lo: nat, j: nat, from: int)
    requires SortedManifest(m) && chrom in m && lo <= j < |m[chrom]| && m[chrom][lo].end >= from
    ensures m[chrom][j].end >= from
  {
    var rs := m[chrom];
    if j > lo {
      assert SortedRegions(rs);
      assert rs[lo].end < rs[j].start <= rs[j].end;
    }
  }

  /** The cursor resets to 0 on a change of chromosome and never moves back
      within a run. */
  lemma CursorMoves(c: Cursor, rec: BedRecord, m: Manifest)
    requires Consistent(c, m)
    ensures c.chrom != Some(rec.chrom) && rec.chrom !in m ==> Advance(c, rec, m).index == 0
    ensures c.chrom == Some(rec.chrom) ==> Advance(c, rec, m).index >= c.index
  {
  }

  /** A record writes nothing exactly when its chromosome has no regions,
      the cursor runs off the regions, or the record ends before the region
      the cursor stops at. */
  lemma DroppedRecord(c: Cursor, rec: BedRecord, m: Manifest)
    requires Consistent(c, m) && rec.chrom in m
    ensures Last(c, rec, m) == First(c, rec, m) <==>
              First(c, rec, m) >= |m[rec.chrom]| || rec.end < m[rec.chrom][First(c, rec, m)].start
  {
  }
}

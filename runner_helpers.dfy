/**
 * Two helpers of the workflow runner: picking the smallest of a set of
 * alignment files, and concatenating the per-chromosome B-allele
 * frequency outputs under a single header.
 */
module RunnerHelpers {
  import opened Util

  /** The largest 64-bit signed integer, the initial minimum size. */
  const LongMax: int := 0x7FFF_FFFF_FFFF_FFFF

  /** `paths[i]` is the first of the smallest files: no file is smaller and
      every earlier file is strictly larger. */
  ghost predicate FirstSmallest(paths: seq<string>, fileSize: string -> int, i: int)
  {
    && 0 <= i < |paths|
    && (forall j :: 0 <= j < |paths| ==> fileSize(paths[i]) <= fileSize(paths[j]))
    && (forall j :: 0 <= j < i ==> fileSize(paths[j]) > fileSize(paths[i]))
  }

  /** The path of the smallest file; on a tie, the first. The file sizes
      are the parameter `fileSize`. No path for an empty list. */
  method SmallestFile(paths: seq<string>, fileSize: string -> int) returns (smallest: Option<string>)
    ensures smallest.None? <==> |paths| == 0
    ensures smallest.Some? ==> exists i :: FirstSmallest(paths, fileSize, i) && smallest.value == paths[i]
  {
    var minFileSize := LongMax;
    smallest := None;
    ghost var at := 0;
    for i := 0 to |paths|
      invariant smallest.None? <==> i == 0
      invariant smallest.Some? ==> FirstSmallest(paths[..i], fileSize, at) && smallest.value == paths[at]
      invariant smallest.Some? ==> minFileSize == fileSize(paths[at])
    {
      var path := paths[i];
      var size := fileSize(path);
      if smallest.None? || minFileSize > size {
        smallest := Some(path);
        minFileSize := size;
        at := i;
      }
    }
    assert paths[..|paths|] == paths;
    if smallest.Some? {
      assert FirstSmallest(paths, fileSize, at);
    }
  }

  /** At most one index is the first smallest. */
  lemma FirstSmallestUnique(paths: seq<string>, fileSize: string -> int, i: int, k: int)
    requires FirstSmallest(paths, fileSize, i) && FirstSmallest(paths, fileSize, k)
    ensures i == k
  {
    assert fileSize(paths[i]) == fileSize(paths[k]);
  }

  /** A header line: non-empty and starting with '#'. */
  predicate IsHeader(line: string)
  {
    |line| > 0 && line[0] == '#'
  }

  predicate IsBody(line: string)
  {
    !IsHeader(line)
  }

  /** Whether a header line has been seen. */
  predicate HasHeader(lines: seq<string>)
  {
    |Filter(lines, IsHeader)| > 0
  }

  /** The lines of every output file that exists, in order; a missing file
      contributes nothing. */
  function Flatten(files: seq<Option<seq<string>>>): seq<string>
  {
    if |files| == 0 then []
    else Flatten(files[..|files| - 1]) + (match files[|files| - 1] case None => [] case Some(lines) => lines)
  }

  /** The concatenated lines, with every header line after the first
      dropped. */
  function Kept(lines: seq<string>): seq<string>
  {
    if |lines| == 0 then []
    else
      var init, line := lines[..|lines| - 1], lines[|lines| - 1];
      if IsHeader(line) && HasHeader(init) then Kept(init) else Kept(init) + [line]
  }

  function FirstOnly(s: seq<string>): (r: seq<string>)
  {
    if |s| == 0 then [] else [s[0]]
  }

  /** The concatenation of the per-chromosome output files, `None` standing
      for a file that was not found. */
  method ConcatenateResults(files: seq<Option<seq<string>>>) returns (written: seq<string>)
    ensures written == Kept(Flatten(files))
  {
    var headerWritten := false;
    written := [];
    for f := 0 to |files|
      invariant headerWritten == HasHeader(Flatten(files[..f]))
      invariant written == Kept(Flatten(files[..f]))
    {
      assert files[..f + 1][..f] == files[..f];
      if files[f].None? {
        assert Flatten(files[..f + 1]) == Flatten(files[..f]);
        continue;
      }
      assert Flatten(files[..f + 1]) == Flatten(files[..f]) + files[f].value;
      written, headerWritten := CopyFile(files[f].value, written, headerWritten, Flatten(files[..f]));
    }
    assert files[..|files|] == files;
  }

  /** The reading loop over one file, after the lines `before` of the
      earlier files. */
  method CopyFile(lines: seq<string>, written0: seq<string>, headerWritten0: bool, ghost before: seq<string>)
    returns (written: seq<string>, headerWritten: bool)
    requires headerWritten0 == HasHeader(before) && written0 == Kept(before)
    ensures headerWritten == HasHeader(before + lines) && written == Kept(before + lines)
  {
    written, headerWritten := written0, headerWritten0;
    assert before + lines[..0] == before;
    for j := 0 to |lines|
      invariant headerWritten == HasHeader(before + lines[..j])
      invariant written == Kept(before + lines[..j])
    {
      var fileLine := lines[j];
      assert before + lines[..j + 1] == (before + lines[..j]) + [fileLine];
      KeptSnoc(before + lines[..j], fileLine);
      if |fileLine| > 0 && fileLine[0] == '#' {
        if headerWritten {
          continue;
        }
        headerWritten := true;
      }
      written := written + [fileLine];
    }
    assert lines[..|lines|] == lines;
  }

  /** One more line: a header after the first is dropped, any other line
      is appended, and a header line marks the header as seen. */
  lemma KeptSnoc(seen: seq<string>, line: string)
    ensures HasHeader(seen + [line]) == (HasHeader(seen) || IsHeader(line))
    ensures Kept(seen + [line]) == if IsHeader(line) && HasHeader(seen) then Kept(seen) else Kept(seen) + [line]
  {
    assert (seen + [line])[..|seen|] == seen;
    FilterSnoc(seen, line, IsHeader);
  }

  /** Every line that is not a header is kept, in order. */
  lemma {:induction false} KeptBodies(lines: seq<string>)
    ensures Filter(Kept(lines), IsBody) == Filter(lines, IsBody)
  {
    if |lines| > 0 {
      var init, line := lines[..|lines| - 1], lines[|lines| - 1];
      assert lines == init + [line];
      KeptBodies(init);
      FilterSnoc(init, line, IsBody);
      if !(IsHeader(line) && HasHeader(init)) {
        FilterSnoc(Kept(init), line, IsBody);
      }
    }
  }

  /** Exactly one header line is kept when there is any, and it is the
      first of the input. */
  lemma {:induction false} KeptHeaders(lines: seq<string>)
    ensures Filter(Kept(lines), IsHeader) == FirstOnly(Filter(lines, IsHeader))
  {
    if |lines| > 0 {
      var init, line := lines[..|lines| - 1], lines[|lines| - 1];
      assert lines == init + [line];
      KeptHeaders(init);
      FilterSnoc(init, line, IsHeader);
      if !(IsHeader(line) && HasHeader(init)) {
        FilterSnoc(Kept(init), line, IsHeader);
      }
    }
  }

  /** The output only drops lines. */
  lemma {:induction false} KeptSubseq(lines: seq<string>)
    ensures IsSubseq(Kept(lines), lines)
  {
    if |lines| == 0 {
      SubseqRefl(lines);
    } else {
      var init, line := lines[..|lines| - 1], lines[|lines| - 1];
      assert lines == init + [line];
      KeptSubseq(init);
      SubseqSnoc(Kept(init), init, line, !(IsHeader(line) && HasHeader(init)));
    }
  }

  /** Files without header lines are concatenated unchanged. */
  lemma {:induction false} NoHeadersKeptWhole(lines: seq<string>)
    requires forall k :: 0 <= k < |lines| ==> !IsHeader(lines[k])
    ensures Kept(lines) == lines
  {
    if |lines| > 0 {
      var init := lines[..|lines| - 1];
      NoHeadersKeptWhole(init);
    }
  }
}

/**
 * The two converters composed: a BVH file is extracted to CSV, and the CSV
 * is composed back into BVH with the original file as template. The result
 * keeps the original up to its "MOTION" line, counts only the motion lines
 * the extractor kept, and gives each of them back with its whitespace runs
 * reduced to single spaces.
 */
module RoundTrip {
  import opened Text
  import BvhToCsv
  import CsvToBvh

  /** A motion line as the round trip gives it back: its tokens separated by single spaces. */
  function Normalize(line: string): string
  {
    Join(Split(line), " ")
  }

  /** Normalizing keeps the tokens, so normalizing twice is normalizing once. */
  lemma NormalizeIdempotent(line: string)
    ensures Split(Normalize(line)) == Split(line)
    ensures Normalize(Normalize(line)) == Normalize(line)
  {
    SplitJoin(Split(line));
  }

  /** Reading a data row the extractor wrote gives back the tokens of its motion line, when the line has no comma. */
  lemma TranscodeFields(line: string)
    requires ',' !in line
    ensures CsvToBvh.CsvFields(BvhToCsv.Transcode(line)) == Split(line)
  {
    var tokens := Split(line);
    if tokens != [] {
      SplitWithout(line, ',');
      SplitOnJoin(tokens, ',');
    }
  }

  function NormalizeAll(lines: seq<string>): seq<string>
  {
    seq(|lines|, k requires 0 <= k < |lines| => Normalize(lines[k]))
  }

  /** Composing from a CSV file the extractor wrote: one normalized motion line per kept line. */
  lemma PosesOfTranscoded(header: string, lines: seq<string>)
    requires forall j | 0 <= j < |lines| :: ',' !in lines[j]
    ensures var rows := CsvToBvh.DataRows([header] + BvhToCsv.TranscodeAll(lines));
            |rows| == |lines| && CsvToBvh.PoseLines(rows) == NormalizeAll(lines)
  {
    var csv := [header] + BvhToCsv.TranscodeAll(lines);
    var rows := CsvToBvh.DataRows(csv);
    forall k | 0 <= k < |lines|
      ensures CsvToBvh.PoseLines(rows)[k] == NormalizeAll(lines)[k]
    {
      assert csv[k + 1] == BvhToCsv.Transcode(lines[k]);
      TranscodeFields(lines[k]);
    }
  }

  /** The BVH file the round trip produces. */
  function RoundTripped(bvh: seq<string>): seq<string>
    requires BvhToCsv.CsvOf(bvh).Success?
  {
    CsvToBvh.Composed(bvh, BvhToCsv.CsvOf(bvh).value)
  }

  /**
   * Extract then compose: the original through its first "MOTION" line, the
   * count of kept motion lines, the fixed frame time, then the kept motion
   * lines (all after the 250th following "Frame Time:") normalized. Only the
   * kept lines must be free of commas: a comma inside a token would become a
   * field separator. Records are read as unquoted fields, so for a real CSV
   * reader this also assumes the kept lines hold no '"'.
   */
  lemma RoundTripLines(bvh: seq<string>)
    requires BvhToCsv.CsvOf(bvh).Success?
    requires forall j | ThroughFirst(bvh, BvhToCsv.BOUNDARY_KEY) + BvhToCsv.SKIPPED_FRAMES <= j < |bvh| :: ',' !in bvh[j]
    ensures var kept := BvhToCsv.KeptFrames(bvh[ThroughFirst(bvh, BvhToCsv.BOUNDARY_KEY)..]);
            RoundTripped(bvh)
            == CsvToBvh.TemplateHead(bvh) + [CsvToBvh.FramesLine(|kept|), CsvToBvh.FrameTimeLine()] + NormalizeAll(kept)
  {
    var n := ThroughFirst(bvh, BvhToCsv.BOUNDARY_KEY);
    var kept := BvhToCsv.KeptFrames(bvh[n..]);
    var header := BvhToCsv.HeaderRow(BvhToCsv.HeaderIn(bvh[..n]));
    assert BvhToCsv.CsvOf(bvh).value == [header] + BvhToCsv.TranscodeAll(kept);
    forall j | 0 <= j < |kept|
      ensures ',' !in kept[j]
    {
      assert kept[j] == bvh[n..][BvhToCsv.SKIPPED_FRAMES + j] == bvh[n + BvhToCsv.SKIPPED_FRAMES + j];
    }
    PosesOfTranscoded(header, kept);
  }

  /**
   * The usual layout: a hierarchy, the "MOTION", "Frames:" and "Frame Time:"
   * lines, then motion lines already written with single spaces. More than
   * 250 motion lines come back as the hierarchy, a frame count 250 lower,
   * the fixed frame time and the motion lines from the 251st on, unchanged.
   */
  lemma StandardRoundTrip(hierarchy: seq<string>, framesLine: string, timeLine: string, motion: seq<string>)
    requires forall k | 0 <= k < |hierarchy| :: !Contains(hierarchy[k], "MOTION") && !Contains(hierarchy[k], "Frame Time:")
    requires !Contains(framesLine, "Frame Time:") && Contains(timeLine, "Frame Time:")
    requires |motion| > BvhToCsv.SKIPPED_FRAMES
    requires forall j | 0 <= j < |motion| :: ',' !in motion[j] && Normalize(motion[j]) == motion[j]
    requires BvhToCsv.CsvOf(hierarchy + ["MOTION", framesLine, timeLine] + motion).Success?
    ensures RoundTripped(hierarchy + ["MOTION", framesLine, timeLine] + motion)
            == hierarchy + ["MOTION", CsvToBvh.FramesLine(|motion| - BvhToCsv.SKIPPED_FRAMES), CsvToBvh.FrameTimeLine()]
               + motion[BvhToCsv.SKIPPED_FRAMES..]
  {
    var bvh := hierarchy + ["MOTION", framesLine, timeLine] + motion;
    StandardPieces(hierarchy, framesLine, timeLine, motion);
    NormalizedKept(motion);
    Reassociate(RoundTripped(bvh), hierarchy, BvhToCsv.KeptFrames(motion), motion);
  }

  lemma StandardPieces(hierarchy: seq<string>, framesLine: string, timeLine: string, motion: seq<string>)
    requires forall k | 0 <= k < |hierarchy| :: !Contains(hierarchy[k], "MOTION") && !Contains(hierarchy[k], "Frame Time:")
    requires !Contains(framesLine, "Frame Time:") && Contains(timeLine, "Frame Time:")
    requires |motion| > BvhToCsv.SKIPPED_FRAMES
    requires forall j | 0 <= j < |motion| :: ',' !in motion[j] && Normalize(motion[j]) == motion[j]
    requires BvhToCsv.CsvOf(hierarchy + ["MOTION", framesLine, timeLine] + motion).Success?
    ensures var kept := BvhToCsv.KeptFrames(motion);
            RoundTripped(hierarchy + ["MOTION", framesLine, timeLine] + motion)
            == (hierarchy + ["MOTION"]) + [CsvToBvh.FramesLine(|kept|), CsvToBvh.FrameTimeLine()] + kept
  {
    var bvh := hierarchy + ["MOTION", framesLine, timeLine] + motion;
    StandardHead(hierarchy, framesLine, timeLine, motion);
    StandardScan(hierarchy, framesLine, timeLine, motion);
    var n := ThroughFirst(bvh, BvhToCsv.BOUNDARY_KEY);
    SuffixCommaFree(bvh, n, motion);
    RoundTripLines(bvh);
    NormalizedKept(motion);
  }

  lemma Reassociate(out: seq<string>, hierarchy: seq<string>, kept: seq<string>, motion: seq<string>)
    requires |motion| > BvhToCsv.SKIPPED_FRAMES && kept == motion[BvhToCsv.SKIPPED_FRAMES..]
    requires out == (hierarchy + ["MOTION"]) + [CsvToBvh.FramesLine(|kept|), CsvToBvh.FrameTimeLine()] + kept
    ensures out == hierarchy + ["MOTION", CsvToBvh.FramesLine(|motion| - BvhToCsv.SKIPPED_FRAMES), CsvToBvh.FrameTimeLine()]
                   + motion[BvhToCsv.SKIPPED_FRAMES..]
  {
  }

  lemma NormalizedKept(motion: seq<string>)
    requires |motion| > BvhToCsv.SKIPPED_FRAMES
    requires forall j | 0 <= j < |motion| :: Normalize(motion[j]) == motion[j]
    ensures var kept := BvhToCsv.KeptFrames(motion);
            |kept| == |motion| - BvhToCsv.SKIPPED_FRAMES
            && kept == motion[BvhToCsv.SKIPPED_FRAMES..] && NormalizeAll(kept) == kept
  {
  }

  lemma SuffixCommaFree(bvh: seq<string>, n: nat, motion: seq<string>)
    requires n <= |bvh| && bvh[n..] == motion
    requires forall j | 0 <= j < |motion| :: ',' !in motion[j]
    ensures forall j | n + BvhToCsv.SKIPPED_FRAMES <= j < |bvh| :: ',' !in bvh[j]
  {
    forall j | n + BvhToCsv.SKIPPED_FRAMES <= j < |bvh|
      ensures ',' !in bvh[j]
    {
      assert bvh[j] == motion[j - n];
    }
  }

  lemma StandardHead(hierarchy: seq<string>, framesLine: string, timeLine: string, motion: seq<string>)
    requires forall k | 0 <= k < |hierarchy| :: !Contains(hierarchy[k], "MOTION")
    ensures CsvToBvh.TemplateHead(hierarchy + ["MOTION", framesLine, timeLine] + motion) == hierarchy + ["MOTION"]
  {
    var rest := ["MOTION", framesLine, timeLine] + motion;
    var bvh := hierarchy + ["MOTION", framesLine, timeLine] + motion;
    assert bvh == hierarchy + rest;
    assert rest[0] == "MOTION";
    assert Contains("MOTION", "MOTION");
    assert ThroughFirst(rest, "MOTION") == 1;
    ThroughFirstAppend(hierarchy, rest, "MOTION");
    assert bvh[..|hierarchy| + 1] == hierarchy + ["MOTION"];
  }

  lemma StandardScan(hierarchy: seq<string>, framesLine: string, timeLine: string, motion: seq<string>)
    requires forall k | 0 <= k < |hierarchy| :: !Contains(hierarchy[k], "Frame Time:")
    requires !Contains(framesLine, "Frame Time:") && Contains(timeLine, "Frame Time:")
    ensures var bvh := hierarchy + ["MOTION", framesLine, timeLine] + motion;
            bvh[ThroughFirst(bvh, BvhToCsv.BOUNDARY_KEY)..] == motion
  {
    var pre := hierarchy + ["MOTION", framesLine];
    var rest := [timeLine] + motion;
    var bvh := hierarchy + ["MOTION", framesLine, timeLine] + motion;
    assert bvh == pre + rest;
    ContainsShorter("MOTION", "Frame Time:");
    forall k | 0 <= k < |pre|
      ensures !Contains(pre[k], "Frame Time:")
    {
      if k >= |hierarchy| {
        assert pre[k] == "MOTION" || pre[k] == framesLine;
      }
    }
    assert rest[0] == timeLine;
    assert ThroughFirst(rest, "Frame Time:") == 1;
    ThroughFirstAppend(pre, rest, "Frame Time:");
    assert bvh[|pre| + 1..] == motion;
  }
}

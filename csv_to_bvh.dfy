/**
 * The CSV to BVH composer. A new BVH file is assembled from a template BVH
 * file and a CSV file: the template is copied up to and including its first
 * line containing "MOTION", then come a "Frames:" line counting the CSV data
 * rows, a fixed "Frame Time:" line, and one motion line per data row with
 * its fields joined by single spaces.
 */
module CsvToBvh {
  import opened Wrappers
  import opened Text
  import opened Paths
  import opened Files

  const MOTION_KEY := "MOTION"

  /** `str(FRAME_TIME)`: the frame time (120 frames per second) as Python prints the float 0.00833333. */
  const FRAME_TIME := "0.00833333"

  /** The record `csv.reader` (delimiter ",", no quoted fields) makes of one line. */
  function CsvFields(line: string): (r: seq<string>)
    ensures line == [] <==> r == []
    ensures forall k | 0 <= k < |r| :: ',' !in r[k]
    ensures r != [] ==> Join(r, ",") == line
  {
    if line == [] then [] else SplitOn(line, ',')
  }

  /** The records `csv.reader` yields for `lines`, one per line, in order. */
  function Records(lines: seq<string>): (r: seq<seq<string>>)
    ensures |r| == |lines|
    ensures forall k | 0 <= k < |r| :: r[k] == CsvFields(lines[k])
  {
    if lines == [] then [] else [CsvFields(lines[0])] + Records(lines[1..])
  }

  /** The records left once `next(csvReader, None)` has skipped the header line: record `k` is line `k + 1`. */
  function DataRows(csv: seq<string>): (rows: seq<seq<string>>)
    ensures |rows| == if csv == [] then 0 else |csv| - 1
    ensures forall k | 0 <= k < |rows| :: rows[k] == CsvFields(csv[k + 1])
  {
    if csv == [] then [] else Records(csv[1..])
  }

  /** Dropping the first record the reader yields leaves the data rows. */
  lemma SkipHeader(csv: seq<string>)
    ensures (if Records(csv) == [] then [] else Records(csv)[1..]) == DataRows(csv)
  {
    if csv != [] {
      assert Records(csv)[1..] == DataRows(csv);
    }
  }

  function FramesLine(count: nat): string
  {
    "Frames: " + NatToString(count)
  }

  function FrameTimeLine(): string
  {
    "Frame Time: " + FRAME_TIME
  }

  /** `" ".join(line)` for each record. */
  function PoseLines(rows: seq<seq<string>>): seq<string>
  {
    seq(|rows|, k requires 0 <= k < |rows| => Join(rows[k], " "))
  }

  /** What `writeFromCsv` writes for the lines of a CSV file. */
  function MotionBlock(csv: seq<string>): seq<string>
  {
    var rows := DataRows(csv);
    [FramesLine(|rows|), FrameTimeLine()] + PoseLines(rows)
  }

  /** What `writeFromBvh` copies from a template: its lines through the first one containing "MOTION". */
  function TemplateHead(template: seq<string>): seq<string>
  {
    template[..ThroughFirst(template, MOTION_KEY)]
  }

  /** The lines of the new BVH file (lines 94-95 of csv_to_bvh.py). */
  function Composed(template: seq<string>, csv: seq<string>): seq<string>
  {
    TemplateHead(template) + MotionBlock(csv)
  }

  /** `writeFromBvh` (lines 59-64 of csv_to_bvh.py): copy lines of the template until one containing "MOTION" has been copied. */
  method WriteFromBvh(newBvh: OutputFile, oldBvh: seq<string>)
    modifies newBvh
    ensures newBvh.lines == old(newBvh.lines) + TemplateHead(oldBvh)
  {
    var i := 0;
    while i < |oldBvh|
      invariant i <= |oldBvh|
      invariant forall k | 0 <= k < i :: !Contains(oldBvh[k], MOTION_KEY)
      invariant newBvh.lines == old(newBvh.lines) + oldBvh[..i]
    {
      var line := oldBvh[i];
      assert oldBvh[..i + 1] == oldBvh[..i] + [line];
      newBvh.WriteLine(line);
      i := i + 1;
      if Contains(line, MOTION_KEY) {
        break;
      }
    }
    assert i == ThroughFirst(oldBvh, MOTION_KEY);
  }

  lemma PoseLinesAppend(rows: seq<seq<string>>, row: seq<string>)
    ensures PoseLines(rows + [row]) == PoseLines(rows) + [Join(row, " ")]
  {
  }

  /** The loop of `writeFromCsv` (lines 42-47 of csv_to_bvh.py): one motion line per record. */
  method WritePoses(bvhFile: OutputFile, rows: seq<seq<string>>)
    modifies bvhFile
    ensures bvhFile.lines == old(bvhFile.lines) + PoseLines(rows)
  {
    for k := 0 to |rows|
      invariant bvhFile.lines == old(bvhFile.lines) + PoseLines(rows[..k])
    {
      assert rows[..k + 1] == rows[..k] + [rows[k]];
      PoseLinesAppend(rows[..k], rows[k]);
      bvhFile.WriteLine(Join(rows[k], " "));
    }
    assert rows[..|rows|] == rows;
  }

  /** `next(csvReader, None)` then `list(csvReader)`: every record but the first. */
  method ReadRows(csv: seq<string>) returns (rows: seq<seq<string>>)
    ensures rows == DataRows(csv)
  {
    rows := Records(csv);
    if rows != [] {
      rows := rows[1..];
    }
    SkipHeader(csv);
  }

  /**
   * `writeFromCsv` (lines 32-47 of csv_to_bvh.py): skip the header record, write the frame
   * count and the frame time, then one motion line per remaining record.
   */
  method WriteFromCsv(bvhFile: OutputFile, csv: seq<string>)
    modifies bvhFile
    ensures bvhFile.lines == old(bvhFile.lines) + MotionBlock(csv)
  {
    var rows := ReadRows(csv);
    ghost var before := bvhFile.lines;
    var frameCnt := |rows|;
    bvhFile.WriteLine(FramesLine(frameCnt));
    bvhFile.WriteLine(FrameTimeLine());
    ghost var counted := bvhFile.lines;
    WritePoses(bvhFile, rows);
    BlockAfter(before, counted, bvhFile.lines, csv, rows);
  }

  /** The three writes of `writeFromCsv` append its motion block. */
  lemma BlockAfter(before: seq<string>, counted: seq<string>, after: seq<string>, csv: seq<string>, rows: seq<seq<string>>)
    requires rows == DataRows(csv)
    requires counted == before + [FramesLine(|rows|)] + [FrameTimeLine()]
    requires after == counted + PoseLines(rows)
    ensures after == before + MotionBlock(csv)
  {
  }

  /** Lines 91-95 of csv_to_bvh.py for one pair: a fresh output file receives the template head, then the motion block. */
  method WriteNewBvh(template: seq<string>, csv: seq<string>) returns (lines: seq<string>)
    ensures lines == Composed(template, csv)
  {
    var newBvh := new OutputFile();
    WriteFromBvh(newBvh, template);
    assert newBvh.lines == TemplateHead(template);
    WriteFromCsv(newBvh, csv);
    lines := newBvh.lines;
  }

  // ---------------------------------------------------------------------------
  // Properties of the composed file

  /**
   * The motion block: a "Frames:" line whose number reads back as the count
   * of data rows (all lines but the header), the frame time line, then each
   * data row with its commas replaced by spaces, in order.
   */
  lemma MotionBlockLayout(csv: seq<string>)
    ensures var block := MotionBlock(csv);
            var count := if csv == [] then 0 else |csv| - 1;
            |block| == 2 + count
            && block[0][..8] == "Frames: " && ParseNat(block[0][8..]) == count
            && block[1] == "Frame Time: 0.00833333"
            && forall k | 2 <= k < |block| :: block[k] == ReplaceChar(csv[k - 1], ',', ' ')
  {
    var block := MotionBlock(csv);
    var rows := DataRows(csv);
    var poses := PoseLines(rows);
    assert block == [FramesLine(|rows|), FrameTimeLine()] + poses;
    FramesLineReads(|rows|);
    forall k | 2 <= k < |block|
      ensures block[k] == ReplaceChar(csv[k - 1], ',', ' ')
    {
      assert block[k] == poses[k - 2];
      PoseAt(csv, k - 2);
    }
  }

  /** Motion line `k` of the block comes from CSV line `k + 1`. */
  lemma PoseAt(csv: seq<string>, k: nat)
    requires k + 1 < |csv|
    ensures PoseLines(DataRows(csv))[k] == ReplaceChar(csv[k + 1], ',', ' ')
  {
    PoseLineOf(csv[k + 1]);
  }

  /** The number on the "Frames:" line reads back as the count it was written from. */
  lemma FramesLineReads(count: nat)
    ensures FramesLine(count)[..8] == "Frames: " && ParseNat(FramesLine(count)[8..]) == count
  {
    assert FramesLine(count)[8..] == NatToString(count);
    ParseNatToString(count);
  }

  /** A CSV line becomes a motion line with its commas replaced by spaces. */
  lemma PoseLineOf(line: string)
    ensures Join(CsvFields(line), " ") == ReplaceChar(line, ',', ' ')
  {
    JoinSplitOn(line, ',', ' ');
    if line == [] {
      assert ReplaceChar(line, ',', ' ') == [];
    }
  }

  /** The header line of the CSV file is skipped: it has no effect on the output. */
  lemma HeaderIgnored(template: seq<string>, h1: string, h2: string, rest: seq<string>)
    ensures Composed(template, [h1] + rest) == Composed(template, [h2] + rest)
  {
    assert DataRows([h1] + rest) == DataRows([h2] + rest);
  }

  /**
   * The template's hierarchy is copied verbatim through its first "MOTION"
   * line; a template with none is copied whole. Nothing after that line is
   * copied: the template's own motion data never reaches the output.
   */
  lemma TemplateCopied(template: seq<string>, csv: seq<string>, m: nat)
    requires m < |template| && Contains(template[m], MOTION_KEY)
    requires forall k | 0 <= k < m :: !Contains(template[k], MOTION_KEY)
    ensures Composed(template, csv) == template[..m + 1] + MotionBlock(csv)
  {
    assert ThroughFirst(template, MOTION_KEY) == m + 1;
  }

  lemma TemplateWithoutMotion(template: seq<string>, csv: seq<string>)
    requires forall k | 0 <= k < |template| :: !Contains(template[k], MOTION_KEY)
    ensures Composed(template, csv) == template + MotionBlock(csv)
  {
    assert template[..|template|] == template;
  }

  /** Replacing the template's motion data changes nothing in the output. */
  lemma TemplateMotionIgnored(hierarchy: seq<string>, motion1: seq<string>, motion2: seq<string>, csv: seq<string>)
    requires hierarchy != [] && Contains(hierarchy[|hierarchy| - 1], MOTION_KEY)
    requires forall k | 0 <= k < |hierarchy| - 1 :: !Contains(hierarchy[k], MOTION_KEY)
    ensures Composed(hierarchy + motion1, csv) == Composed(hierarchy + motion2, csv)
  {
    var m := |hierarchy| - 1;
    assert (hierarchy + motion1)[..m + 1] == hierarchy;
    assert (hierarchy + motion2)[..m + 1] == hierarchy;
    TemplateCopied(hierarchy + motion1, csv, m);
    TemplateCopied(hierarchy + motion2, csv, m);
  }

  // ---------------------------------------------------------------------------
  // The batch driver (`__main__`, lines 67-100 of csv_to_bvh.py)

  /** The final component of a path: what follows its last "/". */
  function BaseName(p: string): (r: string)
    ensures '/' !in r
  {
    var pieces := SplitOn(p, '/');
    assert pieces[|pieces| - 1] == pieces[|pieces| - 1];
    pieces[|pieces| - 1]
  }

  /** The output path of line 91 of csv_to_bvh.py: the CSV file's name without directory and extension, plus ".bvh", in the working directory. */
  function BvhOutputName(csvPath: string): string
  {
    BaseName(SplitExt(csvPath).0) + ".bvh"
  }

  /** The file type check of line 81 of csv_to_bvh.py; the diagnostic is printed when it fails, and the pair is processed anyway. */
  predicate HasTypes(csvPath: string, bvhPath: string)
  {
    Lower(SplitExt(csvPath).1) == ".csv" && Lower(SplitExt(bvhPath).1) == ".bvh"
  }

  /**
   * The exception that ends a batch: an odd argument with no partner after
   * it (the IndexError of line 78 of csv_to_bvh.py), or a CSV or template file that cannot be
   * opened.
   */
  datatype Halt = MissingPartner(index: nat) | MissingFile(path: string)

  /**
   * The end of a batch: the files as they are left, the indices of the CSV
   * arguments of the pairs whose file type check printed a diagnostic, and
   * the exception that ended the batch, if any.
   */
  datatype Run = Run(disk: Disk, rejected: seq<nat>, halt: Option<Halt>)

  datatype Step = Step(disk: Disk, halt: Option<Halt>)

  /**
   * One pair (lines 86-95 of csv_to_bvh.py): the CSV file is opened, then the template, then
   * the output is opened for writing (created or truncated), and only then
   * are the two inputs read, so an input that is also the output reads empty.
   */
  function ComposeStep(csvPath: string, bvhPath: string, disk: Disk): Step
  {
    if csvPath !in disk then Step(disk, Some(MissingFile(csvPath)))
    else if bvhPath !in disk then Step(disk, Some(MissingFile(bvhPath)))
    else
      var out := BvhOutputName(csvPath);
      var truncated := disk[out := []];
      Step(truncated[out := Composed(truncated[bvhPath], truncated[csvPath])], None)
  }

  /** The batch from argument `i` on: pairs of arguments in turn until one raises. */
  function ComposeFrom(argv: seq<string>, i: nat, disk: Disk): Run
    decreases |argv| - i
  {
    if i >= |argv| then Run(disk, [], None)
    else if i + 1 == |argv| then Run(disk, [], Some(MissingPartner(i)))
    else
      var rejected := if HasTypes(argv[i], argv[i + 1]) then [] else [i];
      var step := ComposeStep(argv[i], argv[i + 1], disk);
      if step.halt.Some? then Run(step.disk, rejected, step.halt)
      else Prepend(rejected, ComposeFrom(argv, i + 2, step.disk))
  }

  function Prepend(rejected: seq<nat>, run: Run): Run
  {
    run.(rejected := rejected + run.rejected)
  }

  /** One turn of the batch loop, seen from the pairs before it. */
  lemma ComposeAdvance(argv: seq<string>, i: nat, disk: Disk, step: Step, before: seq<nat>)
    requires i + 1 < |argv| && step == ComposeStep(argv[i], argv[i + 1], disk)
    ensures var flagged := if HasTypes(argv[i], argv[i + 1]) then [] else [i];
            Prepend(before, ComposeFrom(argv, i, disk))
            == if step.halt.Some? then Run(step.disk, before + flagged, step.halt)
               else Prepend(before + flagged, ComposeFrom(argv, i + 2, step.disk))
  {
    var flagged := if HasTypes(argv[i], argv[i + 1]) then [] else [i];
    var rest := ComposeFrom(argv, i + 2, step.disk);
    assert before + (flagged + rest.rejected) == (before + flagged) + rest.rejected;
  }

  /** The body of the batch loop for one pair of paths (lines 86-95 of csv_to_bvh.py). */
  method ComposeOne(csvPath: string, bvhPath: string, disk: Disk) returns (step: Step)
    ensures step == ComposeStep(csvPath, bvhPath, disk)
  {
    if csvPath !in disk {
      return Step(disk, Some(MissingFile(csvPath)));
    }
    if bvhPath !in disk {
      return Step(disk, Some(MissingFile(bvhPath)));
    }
    var pieces := SplitOn(SplitExt(csvPath).0, '/');
    var out := pieces[|pieces| - 1] + ".bvh";
    assert out == BvhOutputName(csvPath);
    var files := disk[out := []];
    var lines := WriteNewBvh(files[bvhPath], files[csvPath]);
    return Step(files[out := lines], None);
  }

  /** One turn of the batch loop (lines 75-100 of csv_to_bvh.py) for the pair starting at argument `i`. */
  method ComposeTurn(argv: seq<string>, i: nat, disk: Disk, rejected: seq<nat>)
    returns (next: Disk, flagged: seq<nat>, halt: Option<Halt>)
    requires i < |argv|
    ensures Prepend(rejected, ComposeFrom(argv, i, disk))
            == if halt.Some? then Run(next, flagged, halt) else Prepend(flagged, ComposeFrom(argv, i + 2, next))
  {
    if i + 1 == |argv| {
      assert rejected + [] == rejected;
      return disk, rejected, Some(MissingPartner(i));
    }
    var csvPath, bvhPath := argv[i], argv[i + 1];
    flagged := rejected;
    if !HasTypes(csvPath, bvhPath) {
      flagged := flagged + [i];
    } else {
      assert flagged + [] == flagged;
    }
    var step := ComposeOne(csvPath, bvhPath, disk);
    ComposeAdvance(argv, i, disk, step, rejected);
    next, halt := step.disk, step.halt;
  }

  /** The batch loop (lines 75-100 of csv_to_bvh.py) from argument `i` on, after the diagnostics `rejected`. */
  method ComposeLoop(argv: seq<string>, i: nat, disk: Disk, rejected: seq<nat>) returns (run: Run)
    ensures run == Prepend(rejected, ComposeFrom(argv, i, disk))
  {
    ghost var total := Prepend(rejected, ComposeFrom(argv, i, disk));
    var files, flagged, j := disk, rejected, i;
    var halt: Option<Halt> := None;
    while j < |argv| && halt.None?
      invariant halt.None? ==> Prepend(flagged, ComposeFrom(argv, j, files)) == total
      invariant halt.Some? ==> Run(files, flagged, halt) == total
      decreases |argv| - j
    {
      files, flagged, halt := ComposeTurn(argv, j, files, flagged);
      j := j + 2;
    }
    if halt.None? {
      assert flagged + [] == flagged;
    }
    return Run(files, flagged, halt);
  }

  /** `__main__` (lines 67-100 of csv_to_bvh.py) over the command line `argv` (argv[0] is the program). */
  method ComposeBatch(argv: seq<string>, disk: Disk) returns (tooFew: bool, run: Run)
    ensures tooFew <==> |argv| < 3
    ensures run == ComposeFrom(argv, 1, disk)
  {
    tooFew := |argv| < 3;
    run := ComposeLoop(argv, 1, disk, []);
    assert [] + run.rejected == run.rejected;
  }

  // ---------------------------------------------------------------------------
  // Properties of the batch

  lemma SplitOnFree(y: string, c: char)
    requires c !in y
    ensures SplitOn(y, c) == [y]
  {
    SplitOnJoin([y], c);
  }

  /**
   * The output name drops the directory and the extension: for a CSV file
   * "d/stem.ext", whose stem has no "/" and is not all dots, it is
   * "stem.bvh", whatever the directory "d".
   */
  lemma BvhOutputNameOf(dir: string, stem: string, ext: string)
    requires '/' !in stem && '.' !in ext && '/' !in ext
    requires HasNonDot(stem, 0, |stem|)
    ensures BvhOutputName(dir + "/" + stem + "." + ext) == stem + ".bvh"
  {
    var root := dir + "/" + stem;
    assert dir + "/" + stem + "." + ext == root + "." + ext;
    RootOfNested(dir, stem);
    SplitExtJoin(root, ext);
    BaseNameOfNested(dir, stem);
  }

  /** A CSV file named without a directory, "stem.ext", gives "stem.bvh". */
  lemma BvhOutputNameBare(stem: string, ext: string)
    requires '/' !in stem && '.' !in ext && '/' !in ext
    requires HasNonDot(stem, 0, |stem|)
    ensures BvhOutputName(stem + "." + ext) == stem + ".bvh"
  {
    assert LastIndexOf(stem, '/') == -1;
    SplitExtJoin(stem, ext);
    SplitOnFree(stem, '/');
  }

  lemma RootOfNested(dir: string, stem: string)
    requires '/' !in stem && HasNonDot(stem, 0, |stem|)
    ensures HasNonDot(dir + "/" + stem, LastIndexOf(dir + "/" + stem, '/') + 1, |dir + "/" + stem|)
  {
    var root := dir + "/" + stem;
    LastIndexOfAppend(dir + "/", stem, '/');
    assert (dir + "/")[|dir|] == '/';
    assert LastIndexOf(root, '/') == |dir|;
    assert root[|dir| + 1..] == stem;
    HasNonDotShift(root, |dir| + 1, 0);
  }

  lemma BaseNameOfNested(dir: string, stem: string)
    requires '/' !in stem
    ensures BaseName(dir + "/" + stem) == stem
  {
    SplitOnConcat(dir, stem, '/');
    SplitOnFree(stem, '/');
    assert dir + "/" + stem == dir + ['/'] + stem;
  }

  /** `HasNonDot` on a suffix of a path, seen from the whole path. */
  lemma {:induction false} HasNonDotShift(p: string, off: nat, from: nat)
    requires off + from <= |p|
    requires HasNonDot(p[off..], from, |p| - off)
    ensures HasNonDot(p, off + from, |p|)
    decreases |p| - off - from
  {
    assert p[off..][from] == p[off + from];
    if p[off + from] == '.' {
      HasNonDotShift(p, off, from + 1);
    }
  }

  /**
   * The file type check compares lower-cased extensions: a pair passes it
   * exactly when the CSV argument's extension is "csv" and the template's
   * is "bvh", in any case.
   */
  lemma TypesOf(csvRoot: string, csvExt: string, bvhRoot: string, bvhExt: string)
    requires '.' !in csvExt && '/' !in csvExt && HasNonDot(csvRoot, LastIndexOf(csvRoot, '/') + 1, |csvRoot|)
    requires '.' !in bvhExt && '/' !in bvhExt && HasNonDot(bvhRoot, LastIndexOf(bvhRoot, '/') + 1, |bvhRoot|)
    ensures HasTypes(csvRoot + "." + csvExt, bvhRoot + "." + bvhExt)
            <==> Lower(csvExt) == "csv" && Lower(bvhExt) == "bvh"
  {
    SplitExtJoin(csvRoot, csvExt);
    SplitExtJoin(bvhRoot, bvhExt);
    LowerDot(csvExt);
    LowerDot(bvhExt);
    DotCancel(Lower(csvExt), "csv");
    DotCancel(Lower(bvhExt), "bvh");
    assert ".csv" == "." + "csv" && ".bvh" == "." + "bvh";
  }

  /** An argument without any dot fails the file type check. */
  lemma UntypedRejected(csvPath: string, bvhPath: string)
    requires '.' !in csvPath || '.' !in bvhPath
    ensures !HasTypes(csvPath, bvhPath)
  {
    if '.' !in csvPath {
      NoDotNoExtension(csvPath);
    } else {
      NoDotNoExtension(bvhPath);
    }
  }

  /**
   * When every argument names an existing file, the batch processes every
   * pair and raises only when the arguments after the program name are odd
   * in number, at the last one, which has no partner.
   */
  lemma {:induction false} ComposePairing(argv: seq<string>, i: nat, disk: Disk)
    requires forall j | i <= j < |argv| :: argv[j] in disk
    ensures ComposeFrom(argv, i, disk).halt
            == if i < |argv| && |argv| % 2 != i % 2 then Some(MissingPartner(|argv| - 1)) else None
    decreases |argv| - i
  {
    if i + 1 < |argv| {
      var step := ComposeStep(argv[i], argv[i + 1], disk);
      PairReached(argv, i, disk);
      assert forall j | i + 2 <= j < |argv| :: argv[j] in step.disk;
      ComposePairing(argv, i + 2, step.disk);
      ParityShift(i);
      assert (i + 2 < |argv| && |argv| % 2 != (i + 2) % 2) == (|argv| % 2 != i % 2);
    } else if i < |argv| {
      assert i == |argv| - 1 && |argv| % 2 != i % 2;
    }
  }

  /** A pair of existing files raises nothing, keeps every file, and hands the batch on to the next pair. */
  lemma PairReached(argv: seq<string>, i: nat, disk: Disk)
    requires i + 1 < |argv| && argv[i] in disk && argv[i + 1] in disk
    ensures var step := ComposeStep(argv[i], argv[i + 1], disk);
            step.halt == None && disk.Keys <= step.disk.Keys
            && ComposeFrom(argv, i, disk).halt == ComposeFrom(argv, i + 2, step.disk).halt
  {
  }

  lemma ParityShift(i: nat)
    ensures (i + 2) % 2 == i % 2
  {
  }

  /** How the diagnostics of a batch are made of those of its first pair and of the rest. */
  lemma ComposeRejectedStep(argv: seq<string>, i: nat, disk: Disk)
    requires i + 1 < |argv|
    ensures var step := ComposeStep(argv[i], argv[i + 1], disk);
            var flagged := if HasTypes(argv[i], argv[i + 1]) then [] else [i];
            ComposeFrom(argv, i, disk).rejected
            == flagged + (if step.halt.Some? then [] else ComposeFrom(argv, i + 2, step.disk).rejected)
  {
    var step := ComposeStep(argv[i], argv[i + 1], disk);
    var flagged := if HasTypes(argv[i], argv[i + 1]) then [] else [i];
    if step.halt.Some? {
      assert flagged + [] == flagged;
    }
  }

  /** Only pairs whose types are wrong are named by the diagnostics, each by the index of its CSV argument. */
  lemma {:induction false} ComposeRejected(argv: seq<string>, i: nat, disk: Disk, r: nat)
    requires r in ComposeFrom(argv, i, disk).rejected
    ensures i <= r && r + 1 < |argv| && r % 2 == i % 2 && !HasTypes(argv[r], argv[r + 1])
    decreases |argv| - i
  {
    RejectedSource(argv, i, disk, r);
    if r != i || HasTypes(argv[i], argv[i + 1]) {
      var step := ComposeStep(argv[i], argv[i + 1], disk);
      ComposeRejected(argv, i + 2, step.disk, r);
      ParityBack(i, r);
    }
  }

  /** An index in the diagnostics is the first pair's, or comes from the pairs after it. */
  lemma RejectedSource(argv: seq<string>, i: nat, disk: Disk, r: nat)
    requires r in ComposeFrom(argv, i, disk).rejected
    ensures i + 1 < |argv|
    ensures var step := ComposeStep(argv[i], argv[i + 1], disk);
            (r == i && !HasTypes(argv[i], argv[i + 1]))
            || (step.halt.None? && r in ComposeFrom(argv, i + 2, step.disk).rejected)
  {
    ComposeRejectedStep(argv, i, disk);
  }

  lemma ParityBack(i: nat, r: nat)
    requires r % 2 == (i + 2) % 2
    ensures r % 2 == i % 2
  {
  }

  lemma ParityGap(i: nat, r: nat)
    requires i < r && r % 2 == i % 2
    ensures i + 2 <= r && r % 2 == (i + 2) % 2
  {
  }

  /**
   * When every argument names an existing file, every pair is reached, so
   * the diagnostics name every pair whose types are wrong.
   */
  lemma {:induction false} ComposeRejectedAll(argv: seq<string>, i: nat, disk: Disk, r: nat)
    requires forall j | i <= j < |argv| :: argv[j] in disk
    requires i <= r && r + 1 < |argv| && r % 2 == i % 2 && !HasTypes(argv[r], argv[r + 1])
    ensures r in ComposeFrom(argv, i, disk).rejected
    decreases |argv| - i
  {
    var step := ComposeStep(argv[i], argv[i + 1], disk);
    ComposeRejectedStep(argv, i, disk);
    assert step.halt == None;
    if r != i {
      ParityGap(i, r);
      assert forall j | i + 2 <= j < |argv| :: argv[j] in step.disk;
      ComposeRejectedAll(argv, i + 2, step.disk, r);
    }
  }

  /**
   * A batch writes only the output paths of its pairs, named after each
   * pair's CSV argument: every other file, templates included, is left as
   * it was.
   */
  lemma {:induction false} ComposeLeavesOthers(argv: seq<string>, i: nat, disk: Disk, p: string)
    requires forall j | i <= j && j + 1 < |argv| && j % 2 == i % 2 :: BvhOutputName(argv[j]) != p
    ensures var run := ComposeFrom(argv, i, disk);
            (p in run.disk <==> p in disk) && (p in disk ==> run.disk[p] == disk[p])
    decreases |argv| - i
  {
    if i + 1 < |argv| {
      var step := ComposeStep(argv[i], argv[i + 1], disk);
      StepLeavesOthers(argv[i], argv[i + 1], disk, p);
      if step.halt.None? {
        OtherPairsAvoid(argv, i, p);
        ComposeLeavesOthers(argv, i + 2, step.disk, p);
      }
    }
  }

  lemma StepLeavesOthers(csvPath: string, bvhPath: string, disk: Disk, p: string)
    requires BvhOutputName(csvPath) != p
    ensures var step := ComposeStep(csvPath, bvhPath, disk);
            (p in step.disk <==> p in disk) && (p in disk ==> step.disk[p] == disk[p])
  {
  }

  /** A path no pair start from `i` on is named after, none from `i + 2` on is either. */
  lemma OtherPairsAvoid(argv: seq<string>, i: nat, p: string)
    requires forall j | i <= j && j + 1 < |argv| && j % 2 == i % 2 :: BvhOutputName(argv[j]) != p
    ensures forall j | i + 2 <= j && j + 1 < |argv| && j % 2 == (i + 2) % 2 :: BvhOutputName(argv[j]) != p
  {
    forall j | i + 2 <= j && j + 1 < |argv| && j % 2 == (i + 2) % 2
      ensures BvhOutputName(argv[j]) != p
    {
      ParityBack(i, j);
    }
  }

  /**
   * No rollback: once a pair's output is written, a later exception leaves
   * it in place, unless a later pair writes the same path.
   */
  lemma ComposeBatchKeepsOutput(argv: seq<string>, i: nat, disk: Disk)
    requires i + 1 < |argv| && argv[i] in disk && argv[i + 1] in disk
    requires forall j | i < j && j + 1 < |argv| && j % 2 == i % 2 :: BvhOutputName(argv[j]) != BvhOutputName(argv[i])
    ensures var out := BvhOutputName(argv[i]);
            var truncated := disk[out := []];
            var run := ComposeFrom(argv, i, disk);
            out in run.disk && run.disk[out] == Composed(truncated[argv[i + 1]], truncated[argv[i]])
  {
    var out := BvhOutputName(argv[i]);
    var step := ComposeStep(argv[i], argv[i + 1], disk);
    forall j | i + 2 <= j && j + 1 < |argv| && j % 2 == (i + 2) % 2
      ensures BvhOutputName(argv[j]) != out
    {
      ParityBack(i, j);
    }
    ComposeLeavesOthers(argv, i + 2, step.disk, out);
  }

  /**
   * A template whose path is the output path (a CSV file "take.csv" with
   * template "take.bvh") is truncated before it is read: the output holds
   * only the motion block.
   */
  lemma TemplateIsOutput(csvPath: string, bvhPath: string, disk: Disk)
    requires csvPath in disk && bvhPath in disk
    requires BvhOutputName(csvPath) == bvhPath && csvPath != bvhPath
    ensures ComposeStep(csvPath, bvhPath, disk) == Step(disk[bvhPath := MotionBlock(disk[csvPath])], None)
  {
    var truncated := disk[bvhPath := []];
    assert truncated[bvhPath] == [] && truncated[csvPath] == disk[csvPath];
    ComposedOnEmpty(disk[csvPath]);
    var block := MotionBlock(disk[csvPath]);
    assert truncated[bvhPath := block] == disk[bvhPath := block];
  }

  lemma ComposedOnEmpty(csv: seq<string>)
    ensures Composed([], csv) == MotionBlock(csv)
  {
    var empty: seq<string> := [];
    assert ThroughFirst(empty, MOTION_KEY) == 0;
    assert TemplateHead(empty) == [];
  }
}

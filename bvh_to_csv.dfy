/**
 * The BVH to CSV extractor. The hierarchy section is read up to and including
 * the first line containing "Frame Time:"; it yields one column label per
 * declared channel. The header row of labels is written, the first 250
 * motion lines are dropped, and every later motion line is written with its
 * whitespace runs replaced by commas.
 */
module BvhToCsv {
  import opened Wrappers
  import opened Text
  import opened Paths
  import opened Files

  /** Motion lines dropped after the boundary (the `zz > 250` gate). */
  const SKIPPED_FRAMES: nat := 250

  const BOUNDARY_KEY := "Frame Time:"

  predicate IsJointLine(line: string)
  {
    Contains(line, "ROOT") || Contains(line, "JOINT")
  }

  predicate IsChannelsLine(line: string)
  {
    Contains(line, "CHANNELS")
  }

  predicate IsBoundaryLine(line: string)
  {
    Contains(line, BOUNDARY_KEY)
  }

  /** Why the hierarchy scan raises: `line.split()[1]` out of range, or `currJoint` read before any assignment. */
  datatype FaultKind = MissingJointName | UnboundJoint

  /** The exception the hierarchy scan raises, with the index of the line that raised it. */
  datatype ScanError = ScanError(line: nat, kind: FaultKind)

  /** The labels collected by the hierarchy scan and the number of lines it read. */
  datatype Scan = Scan(header: seq<string>, consumed: nat)

  /** The column label of one channel: the joint, characters 1 to 3 of the channel, its first character, joined by "_". */
  function ChannelLabel(joint: string, channel: string): string
    requires channel != []
  {
    Join([joint, Slice(channel, 1, 4), [channel[0]]], "_")
  }

  /** `line.split()[2:]`: the channel names of a CHANNELS line. */
  function Channels(line: string): (r: seq<string>)
    ensures forall k | 0 <= k < |r| :: IsToken(r[k])
    ensures |r| == if |Split(line)| < 2 then 0 else |Split(line)| - 2
  {
    var tokens := Split(line);
    if |tokens| < 2 then [] else tokens[2..]
  }

  function Labels(joint: string, channels: seq<string>): seq<string>
    requires forall k | 0 <= k < |channels| :: IsToken(channels[k])
  {
    seq(|channels|, k requires 0 <= k < |channels| => assert IsToken(channels[k]); ChannelLabel(joint, channels[k]))
  }

  /**
   * The joint in force once the lines `ls` have been read: the second token
   * of the last line containing ROOT or JOINT (that has a second token).
   */
  function JointAfter(ls: seq<string>): Option<string>
  {
    if ls == [] then None
    else
      var line := ls[|ls| - 1];
      var tokens := Split(line);
      if IsJointLine(line) && |tokens| >= 2 then Some(tokens[1]) else JointAfter(ls[..|ls| - 1])
  }

  /** The labels the CHANNELS lines among `ls` declare, in declaration order. */
  function HeaderIn(ls: seq<string>): seq<string>
  {
    if ls == [] then []
    else
      var line := ls[|ls| - 1];
      var joint := JointAfter(ls);
      HeaderIn(ls[..|ls| - 1])
      + (if IsChannelsLine(line) && joint.Some? then Labels(joint.value, Channels(line)) else [])
  }

  /** The first line of `ls` the scan raises at, if any. */
  function FirstFault(ls: seq<string>): Option<ScanError>
  {
    if ls == [] then None
    else
      var init := ls[..|ls| - 1];
      var line := ls[|ls| - 1];
      if FirstFault(init).Some? then FirstFault(init)
      else if IsJointLine(line) && |Split(line)| < 2 then Some(ScanError(|ls| - 1, MissingJointName))
      else if IsChannelsLine(line) && Channels(line) != [] && JointAfter(ls).None? then Some(ScanError(|ls| - 1, UnboundJoint))
      else None
  }

  /** Sum, over the CHANNELS lines of `ls`, of the number of channels each declares. */
  function ChannelCount(ls: seq<string>): nat
  {
    if ls == [] then 0
    else
      var line := ls[|ls| - 1];
      ChannelCount(ls[..|ls| - 1]) + (if IsChannelsLine(line) then |Channels(line)| else 0)
  }

  /** What the hierarchy loop of `bvh_iterator` computes on a file. */
  function ScanSpec(file: seq<string>): (r: Result<Scan, ScanError>)
    ensures r.Success? ==> r.value.consumed <= |file|
  {
    var n := ThroughFirst(file, BOUNDARY_KEY);
    var hierarchy := file[..n];
    if FirstFault(hierarchy).Some? then Failure(FirstFault(hierarchy).value)
    else Success(Scan(HeaderIn(hierarchy), n))
  }

  /** The motion lines `bvh_iterator` yields: all but the first `SKIPPED_FRAMES`. */
  function KeptFrames(motion: seq<string>): (r: seq<string>)
    ensures |r| == if |motion| <= SKIPPED_FRAMES then 0 else |motion| - SKIPPED_FRAMES
    ensures forall k | 0 <= k < |r| :: r[k] == motion[SKIPPED_FRAMES + k]
  {
    if |motion| <= SKIPPED_FRAMES then [] else motion[SKIPPED_FRAMES..]
  }

  function HeaderRow(header: seq<string>): string
  {
    Join(header, ",")
  }

  /** `','.join(line.split())`. */
  function Transcode(line: string): string
  {
    Join(Split(line), ",")
  }

  function TranscodeAll(ls: seq<string>): seq<string>
  {
    seq(|ls|, k requires 0 <= k < |ls| => Transcode(ls[k]))
  }

  /** The lines `writeToCvs` writes for a BVH file, or the exception it raises before writing any. */
  function CsvOf(bvh: seq<string>): Result<seq<string>, ScanError>
  {
    match ScanSpec(bvh)
    case Failure(e) => Failure(e)
    case Success(scan) => Success([HeaderRow(scan.header)] + TranscodeAll(KeptFrames(bvh[scan.consumed..])))
  }

  /** A fault among the first lines stays the first fault however many lines follow. */
  lemma {:induction false} FaultPersists(ls: seq<string>, m: nat)
    requires m <= |ls|
    requires FirstFault(ls[..m]).Some?
    ensures FirstFault(ls) == FirstFault(ls[..m])
    decreases |ls|
  {
    if m < |ls| {
      assert ls[..|ls| - 1][..m] == ls[..m];
      FaultPersists(ls[..|ls| - 1], m);
    } else {
      assert ls[..m] == ls;
    }
  }

  /** Reading one more line: how the joint, the labels and the first fault change. */
  lemma ScanStep(ls: seq<string>, line: string)
    ensures JointAfter(ls + [line])
            == if IsJointLine(line) && |Split(line)| >= 2 then Some(Split(line)[1]) else JointAfter(ls)
    ensures HeaderIn(ls + [line])
            == HeaderIn(ls)
               + (if IsChannelsLine(line) && JointAfter(ls + [line]).Some?
                  then Labels(JointAfter(ls + [line]).value, Channels(line)) else [])
    ensures FirstFault(ls) == None ==>
              FirstFault(ls + [line])
              == if IsJointLine(line) && |Split(line)| < 2 then Some(ScanError(|ls|, MissingJointName))
                 else if IsChannelsLine(line) && Channels(line) != [] && JointAfter(ls + [line]).None? then Some(ScanError(|ls|, UnboundJoint))
                 else None
  {
    assert (ls + [line])[..|ls|] == ls;
  }

  /** `ScanStep` for the line at index `i` of a file. */
  lemma ScanAt(file: seq<string>, i: nat)
    requires i < |file|
    ensures var line := file[i];
            JointAfter(file[..i + 1])
            == if IsJointLine(line) && |Split(line)| >= 2 then Some(Split(line)[1]) else JointAfter(file[..i])
    ensures var line := file[i];
            HeaderIn(file[..i + 1])
            == HeaderIn(file[..i])
               + (if IsChannelsLine(line) && JointAfter(file[..i + 1]).Some?
                  then Labels(JointAfter(file[..i + 1]).value, Channels(line)) else [])
    ensures var line := file[i];
            FirstFault(file[..i]) == None ==>
              FirstFault(file[..i + 1])
              == if IsJointLine(line) && |Split(line)| < 2 then Some(ScanError(i, MissingJointName))
                 else if IsChannelsLine(line) && Channels(line) != [] && JointAfter(file[..i + 1]).None? then Some(ScanError(i, UnboundJoint))
                 else None
  {
    assert file[..i + 1] == file[..i] + [file[i]];
    ScanStep(file[..i], file[i]);
  }

  /** A line read before the boundary that raises decides the scan. */
  lemma ScanFaultAt(file: seq<string>, i: nat)
    requires i < ThroughFirst(file, BOUNDARY_KEY)
    requires FirstFault(file[..i + 1]).Some?
    ensures ScanSpec(file) == Failure(FirstFault(file[..i + 1]).value)
  {
    var n := ThroughFirst(file, BOUNDARY_KEY);
    assert file[..n][..i + 1] == file[..i + 1];
    FaultPersists(file[..n], i + 1);
  }

  /** One turn of the hierarchy loop (lines 28-38 of bvh_to_csv.py) for the line at index `i`. */
  method ScanLine(file: seq<string>, i: nat, currJoint: Option<string>, header: seq<string>)
    returns (fault: Option<ScanError>, nextJoint: Option<string>, nextHeader: seq<string>)
    requires i < |file|
    requires FirstFault(file[..i]) == None
    requires currJoint == JointAfter(file[..i]) && header == HeaderIn(file[..i])
    ensures fault == FirstFault(file[..i + 1])
    ensures fault == None ==> nextJoint == JointAfter(file[..i + 1]) && nextHeader == HeaderIn(file[..i + 1])
  {
    var line := file[i];
    ScanAt(file, i);
    nextJoint, nextHeader := currJoint, header;
    if IsJointLine(line) {
      var tokens := Split(line);
      if |tokens| < 2 {
        return Some(ScanError(i, MissingJointName)), nextJoint, nextHeader;
      }
      nextJoint := Some(tokens[1]);
    }
    if IsChannelsLine(line) {
      var chanList := Channels(line);
      if chanList != [] {
        // the comprehension reads `currJoint` only for its first channel
        if nextJoint.None? {
          return Some(ScanError(i, UnboundJoint)), nextJoint, nextHeader;
        }
        nextHeader := nextHeader + Labels(nextJoint.value, chanList);
      }
    }
    fault := None;
  }

  /** The hierarchy loop of `bvh_iterator` (lines 26-38 of bvh_to_csv.py): it tracks `currJoint` and grows `header`. */
  method ScanHierarchy(file: seq<string>) returns (r: Result<Scan, ScanError>)
    ensures r == ScanSpec(file)
  {
    var header: seq<string> := [];
    var currJoint: Option<string> := None;
    var i := 0;
    while i < |file|
      invariant i <= ThroughFirst(file, BOUNDARY_KEY)
      invariant i == ThroughFirst(file, BOUNDARY_KEY) ==> i == |file|
      invariant FirstFault(file[..i]) == None
      invariant currJoint == JointAfter(file[..i])
      invariant header == HeaderIn(file[..i])
    {
      ThroughFirstAt(file, BOUNDARY_KEY, i);
      var fault;
      fault, currJoint, header := ScanLine(file, i, currJoint, header);
      if fault.Some? {
        ScanFaultAt(file, i);
        return Failure(fault.value);
      }
      var boundary := IsBoundaryLine(file[i]);
      i := i + 1;
      if boundary {
        break;
      }
    }
    return Success(Scan(header, i));
  }

  /** The motion loop of `bvh_iterator` (lines 41-46 of bvh_to_csv.py): the counter `zz` gates which lines are yielded. */
  method SkipFrames(file: seq<string>, start: nat) returns (frames: seq<string>)
    requires start <= |file|
    ensures frames == KeptFrames(file[start..])
  {
    frames := [];
    var zz := 1;
    var i := start;
    while i < |file|
      invariant start <= i <= |file|
      invariant zz == 1 + (if i - start <= SKIPPED_FRAMES then i - start else SKIPPED_FRAMES)
      invariant frames == KeptFrames(file[start..i])
    {
      if zz > SKIPPED_FRAMES {
        assert file[start..i + 1][SKIPPED_FRAMES..] == file[start..i][SKIPPED_FRAMES..] + [file[i]];
        frames := frames + [file[i]];
      } else {
        zz := zz + 1;
      }
      i := i + 1;
    }
    assert file[start..i] == file[start..];
  }

  /**
   * `bvh_iterator` (lines 25-46 of bvh_to_csv.py) driven to the end: it writes the header row
   * to `csv` and returns the motion lines it yields; when the scan raises,
   * nothing is written.
   */
  method BvhIterator(file: seq<string>, csv: OutputFile) returns (r: Result<seq<string>, ScanError>)
    modifies csv
    ensures ScanSpec(file).Failure? ==> r == Failure(ScanSpec(file).error) && csv.lines == old(csv.lines)
    ensures ScanSpec(file).Success? ==>
              var scan := ScanSpec(file).value;
              r == Success(KeptFrames(file[scan.consumed..]))
              && csv.lines == old(csv.lines) + [HeaderRow(scan.header)]
  {
    var scan := ScanHierarchy(file);
    if scan.Failure? {
      return Failure(scan.error);
    }
    csv.WriteLine(HeaderRow(scan.value.header));
    var frames := SkipFrames(file, scan.value.consumed);
    return Success(frames);
  }

  lemma TranscodeAllAppend(ls: seq<string>, line: string)
    ensures TranscodeAll(ls + [line]) == TranscodeAll(ls) + [Transcode(line)]
  {
  }

  /** The loop of `writeToCvs` (lines 20-22 of bvh_to_csv.py): one transcoded row per yielded line. */
  method WriteRows(frames: seq<string>, csv: OutputFile)
    modifies csv
    ensures csv.lines == old(csv.lines) + TranscodeAll(frames)
  {
    for k := 0 to |frames|
      invariant csv.lines == old(csv.lines) + TranscodeAll(frames[..k])
    {
      assert frames[..k + 1] == frames[..k] + [frames[k]];
      TranscodeAllAppend(frames[..k], frames[k]);
      csv.WriteLine(Transcode(frames[k]));
    }
    assert frames[..|frames|] == frames;
  }

  /** `writeToCvs` (lines 19-22 of bvh_to_csv.py): the header row, then each yielded line transcoded. */
  method WriteToCsv(bvh: seq<string>, csv: OutputFile) returns (fault: Option<ScanError>)
    modifies csv
    ensures CsvOf(bvh).Success? ==> fault == None && csv.lines == old(csv.lines) + CsvOf(bvh).value
    ensures CsvOf(bvh).Failure? ==> fault == Some(CsvOf(bvh).error) && csv.lines == old(csv.lines)
  {
    var yielded := BvhIterator(bvh, csv);
    if yielded.Failure? {
      return Some(yielded.error);
    }
    WriteRows(yielded.value, csv);
    return None;
  }

  /**
   * One file of the batch (lines 61-63 of bvh_to_csv.py): a fresh output file receives what
   * `writeToCvs` writes; when the scan raises, the output stays empty.
   */
  method ExtractFile(bvh: seq<string>) returns (lines: seq<string>, fault: Option<ScanError>)
    ensures CsvOf(bvh).Success? ==> fault == None && lines == CsvOf(bvh).value
    ensures CsvOf(bvh).Failure? ==> fault == Some(CsvOf(bvh).error) && lines == []
  {
    var csv := new OutputFile();
    fault := WriteToCsv(bvh, csv);
    lines := csv.lines;
  }

  // ---------------------------------------------------------------------------
  // Properties of the extraction

  lemma LabelOf(joint: string, channel: string)
    requires channel != []
    ensures ChannelLabel(joint, channel) == joint + "_" + Slice(channel, 1, 4) + "_" + [channel[0]]
  {
    var parts := [joint, Slice(channel, 1, 4), [channel[0]]];
    assert parts[1..] == [Slice(channel, 1, 4), [channel[0]]];
    assert parts[1..][1..] == [[channel[0]]];
    assert Join(parts[1..][1..], "_") == [channel[0]];
    assert Join(parts[1..], "_") == Slice(channel, 1, 4) + "_" + [channel[0]];
  }

  /** The labels of the six standard channels: "Xposition" under joint J gives "J_pos_X". */
  lemma StandardChannelLabels(joint: string)
    ensures ChannelLabel(joint, "Xposition") == joint + "_pos_X"
    ensures ChannelLabel(joint, "Yposition") == joint + "_pos_Y"
    ensures ChannelLabel(joint, "Zposition") == joint + "_pos_Z"
    ensures ChannelLabel(joint, "Xrotation") == joint + "_rot_X"
    ensures ChannelLabel(joint, "Yrotation") == joint + "_rot_Y"
    ensures ChannelLabel(joint, "Zrotation") == joint + "_rot_Z"
  {
    AxisLabels(joint, "Xposition", "pos");
    AxisLabels(joint, "Yposition", "pos");
    AxisLabels(joint, "Zposition", "pos");
    AxisLabels(joint, "Xrotation", "rot");
    AxisLabels(joint, "Yrotation", "rot");
    AxisLabels(joint, "Zrotation", "rot");
  }

  lemma AxisLabels(joint: string, channel: string, kind: string)
    requires |channel| >= 4 && channel[1..4] == kind
    ensures ChannelLabel(joint, channel) == joint + "_" + kind + "_" + [channel[0]]
  {
    LabelOf(joint, channel);
    assert Slice(channel, 1, 4) == kind;
  }

  /** A label splits on "_" back into its joint, channel kind and axis when neither name contains "_". */
  lemma ChannelLabelParts(joint: string, channel: string)
    requires channel != []
    requires '_' !in joint && '_' !in channel
    ensures SplitOn(ChannelLabel(joint, channel), '_') == [joint, Slice(channel, 1, 4), [channel[0]]]
  {
    var parts := [joint, Slice(channel, 1, 4), [channel[0]]];
    assert forall x | x in Slice(channel, 1, 4) :: x in channel;
    assert channel[0] in channel;
    SplitOnJoin(parts, '_');
  }

  lemma {:induction false} FaultLine(ls: seq<string>)
    ensures FirstFault(ls).Some? ==> FirstFault(ls).value.line < |ls|
  {
    if ls != [] {
      FaultLine(ls[..|ls| - 1]);
    }
  }

  /**
   * With no fault, the header holds exactly one label per declared channel:
   * the sum over the CHANNELS lines of their token count minus two.
   */
  lemma {:induction false} HeaderLabelCount(ls: seq<string>)
    requires FirstFault(ls) == None
    ensures |HeaderIn(ls)| == ChannelCount(ls)
  {
    if ls != [] {
      var init := ls[..|ls| - 1];
      assert FirstFault(init) == None;
      HeaderLabelCount(init);
    }
  }

  /** Labels appear in declaration order: reading more lines only appends labels. */
  lemma {:induction false} HeaderExtends(a: seq<string>, b: seq<string>)
    ensures HeaderIn(a) <= HeaderIn(a + b)
    decreases |b|
  {
    if b == [] {
      assert a + b == a;
    } else {
      var init := b[..|b| - 1];
      assert a + b == (a + init) + [b[|b| - 1]];
      ScanStep(a + init, b[|b| - 1]);
      HeaderExtends(a, init);
    }
  }

  /**
   * The scan stops right after the first "Frame Time:" line: whatever
   * follows it changes neither the labels, the joint nor the fault.
   */
  lemma HeaderIgnoresMotion(hierarchy: seq<string>, rest: seq<string>)
    requires hierarchy != [] && IsBoundaryLine(hierarchy[|hierarchy| - 1])
    requires forall k | 0 <= k < |hierarchy| - 1 :: !IsBoundaryLine(hierarchy[k])
    ensures ScanSpec(hierarchy + rest) == ScanSpec(hierarchy)
  {
    var file := hierarchy + rest;
    var n := ThroughFirst(file, BOUNDARY_KEY);
    assert file[|hierarchy| - 1] == hierarchy[|hierarchy| - 1];
    assert n == |hierarchy|;
    assert ThroughFirst(hierarchy, BOUNDARY_KEY) == |hierarchy|;
    assert file[..n] == hierarchy[..|hierarchy|];
  }

  /** Without a "Frame Time:" line the scan reads every line and only the header row is written. */
  lemma NoBoundaryNoRows(bvh: seq<string>)
    requires forall k | 0 <= k < |bvh| :: !IsBoundaryLine(bvh[k])
    ensures ThroughFirst(bvh, BOUNDARY_KEY) == |bvh|
    ensures CsvOf(bvh).Success? ==> CsvOf(bvh).value == [HeaderRow(HeaderIn(bvh))]
  {
    assert bvh[..|bvh|] == bvh;
    assert bvh[|bvh|..] == [];
  }

  /**
   * The written file: the header row once, first, even with no motion
   * lines; then, of the m lines after the boundary, the lines from the
   * 251st on, transcoded, in order: max(0, m - 250) rows.
   */
  lemma CsvRows(bvh: seq<string>)
    requires CsvOf(bvh).Success?
    ensures var n := ThroughFirst(bvh, BOUNDARY_KEY);
            var m := |bvh| - n;
            var rows := CsvOf(bvh).value;
            |rows| == 1 + (if m <= SKIPPED_FRAMES then 0 else m - SKIPPED_FRAMES)
            && rows[0] == HeaderRow(HeaderIn(bvh[..n]))
            && forall k | 1 <= k < |rows| :: rows[k] == Transcode(bvh[n + SKIPPED_FRAMES + k - 1])
  {
    var n := ThroughFirst(bvh, BOUNDARY_KEY);
    assert ScanSpec(bvh).value == Scan(HeaderIn(bvh[..n]), n);
    RowsOf(bvh, n, HeaderIn(bvh[..n]), CsvOf(bvh).value);
  }

  lemma RowsOf(bvh: seq<string>, n: nat, header: seq<string>, rows: seq<string>)
    requires n <= |bvh|
    requires rows == [HeaderRow(header)] + TranscodeAll(KeptFrames(bvh[n..]))
    ensures var m := |bvh| - n;
            |rows| == 1 + (if m <= SKIPPED_FRAMES then 0 else m - SKIPPED_FRAMES)
            && rows[0] == HeaderRow(header)
            && forall k | 1 <= k < |rows| :: rows[k] == Transcode(bvh[n + SKIPPED_FRAMES + k - 1])
  {
    var kept := KeptFrames(bvh[n..]);
    forall k | 1 <= k < |rows|
      ensures rows[k] == Transcode(bvh[n + SKIPPED_FRAMES + k - 1])
    {
      assert rows[k] == Transcode(kept[k - 1]);
      assert kept[k - 1] == bvh[n..][SKIPPED_FRAMES + k - 1];
    }
  }

  /** A data row split on "," gives back the line's tokens, when none of them contains ",". */
  lemma TranscodeInverse(line: string)
    requires Split(line) != []
    requires forall k | 0 <= k < |Split(line)| :: ',' !in Split(line)[k]
    ensures SplitOn(Transcode(line), ',') == Split(line)
  {
    SplitOnJoin(Split(line), ',');
  }

  /**
   * A CHANNELS line that declares no channel ("CHANNELS" or "CHANNELS 0")
   * never raises, even before any ROOT/JOINT line, and adds no label.
   */
  lemma EmptyChannelsHarmless(ls: seq<string>, line: string)
    requires IsChannelsLine(line) && !IsJointLine(line) && Channels(line) == []
    ensures HeaderIn(ls + [line]) == HeaderIn(ls)
    ensures FirstFault(ls + [line]) == FirstFault(ls)
  {
    ScanStep(ls, line);
    assert (ls + [line])[..|ls|] == ls;
  }

  lemma {:induction false} NoJointLines(ls: seq<string>)
    requires forall j | 0 <= j < |ls| :: !IsJointLine(ls[j])
    ensures JointAfter(ls) == None
    ensures FirstFault(ls).Some? ==> FirstFault(ls).value.kind == UnboundJoint
  {
    if ls != [] {
      NoJointLines(ls[..|ls| - 1]);
    }
  }

  /** A CHANNELS line declaring a channel before any ROOT/JOINT line makes the scan raise: the joint is unbound. */
  lemma ChannelsBeforeJoint(bvh: seq<string>, i: nat)
    requires i < ThroughFirst(bvh, BOUNDARY_KEY)
    requires IsChannelsLine(bvh[i]) && Channels(bvh[i]) != []
    requires forall j | 0 <= j <= i :: !IsJointLine(bvh[j])
    ensures CsvOf(bvh).Failure?
    ensures CsvOf(bvh).error.kind == UnboundJoint && CsvOf(bvh).error.line <= i
  {
    var prefix := bvh[..i + 1];
    NoJointLines(prefix);
    assert prefix[..i] == bvh[..i];
    NoJointLines(bvh[..i]);
    FaultLine(prefix);
    assert FirstFault(prefix).Some?;
    ScanFaultAt(bvh, i);
  }

  // ---------------------------------------------------------------------------
  // The batch driver (`__main__`, lines 49-66 of bvh_to_csv.py)

  /** The output path of line 61 of bvh_to_csv.py: the input with its extension replaced by ".csv", in the same directory. */
  function CsvPath(input: string): string
  {
    SplitExt(input).0 + ".csv"
  }

  /**
   * The output sits next to the input with its extension replaced: for
   * "d/take.ext" it is "d/take.csv". A path without any dot gets ".csv"
   * appended.
   */
  lemma CsvPathOf(root: string, ext: string)
    requires '.' !in ext && '/' !in ext
    requires HasNonDot(root, LastIndexOf(root, '/') + 1, |root|)
    ensures CsvPath(root + "." + ext) == root + ".csv"
  {
    SplitExtJoin(root, ext);
  }

  lemma CsvPathUntyped(path: string)
    requires '.' !in path
    ensures CsvPath(path) == path + ".csv"
  {
    NoDotNoExtension(path);
  }

  /** The extension check of line 58 of bvh_to_csv.py; the diagnostic is printed when it fails, and the file is processed anyway. */
  predicate HasBvhType(path: string)
  {
    Lower(SplitExt(path).1) == ".bvh"
  }

  /** The exception that ends a batch: an input that cannot be opened, or a hierarchy the scan raises on. */
  datatype Halt = MissingInput(path: string) | BadHierarchy(path: string, error: ScanError)

  /**
   * The end of a batch: the files as they are left, the indices of the
   * arguments whose extension check printed a diagnostic, and the exception
   * that ended the batch, if any.
   */
  datatype Run = Run(disk: Disk, rejected: seq<nat>, halt: Option<Halt>)

  datatype Step = Step(disk: Disk, halt: Option<Halt>)

  /**
   * One argument (lines 55-66 of bvh_to_csv.py): the input is opened, then the output is
   * opened for writing (created or truncated), then the input is read, so an
   * output path equal to the input path reads an empty input.
   */
  function ExtractStep(path: string, disk: Disk): Step
  {
    if path !in disk then Step(disk, Some(MissingInput(path)))
    else
      var out := CsvPath(path);
      var truncated := disk[out := []];
      match CsvOf(truncated[path])
      case Failure(e) => Step(truncated, Some(BadHierarchy(path, e)))
      case Success(rows) => Step(truncated[out := rows], None)
  }

  /** The batch from argument `i` on: each argument in turn until one raises. */
  function ExtractFrom(argv: seq<string>, i: nat, disk: Disk): Run
    decreases |argv| - i
  {
    if i >= |argv| then Run(disk, [], None)
    else
      var rejected := if HasBvhType(argv[i]) then [] else [i];
      var step := ExtractStep(argv[i], disk);
      if step.halt.Some? then Run(step.disk, rejected, step.halt)
      else Prepend(rejected, ExtractFrom(argv, i + 1, step.disk))
  }

  function Prepend(rejected: seq<nat>, run: Run): Run
  {
    run.(rejected := rejected + run.rejected)
  }

  /** One turn of the batch loop, seen from the arguments before it. */
  lemma ExtractAdvance(argv: seq<string>, i: nat, disk: Disk, step: Step, before: seq<nat>)
    requires i < |argv| && step == ExtractStep(argv[i], disk)
    ensures var flagged := if HasBvhType(argv[i]) then [] else [i];
            Prepend(before, ExtractFrom(argv, i, disk))
            == if step.halt.Some? then Run(step.disk, before + flagged, step.halt)
               else Prepend(before + flagged, ExtractFrom(argv, i + 1, step.disk))
  {
    var flagged := if HasBvhType(argv[i]) then [] else [i];
    var rest := ExtractFrom(argv, i + 1, step.disk);
    assert before + (flagged + rest.rejected) == (before + flagged) + rest.rejected;
  }

  /** The body of the batch loop for one input path (lines 60-66 of bvh_to_csv.py). */
  method ExtractOne(path: string, disk: Disk) returns (step: Step)
    ensures step == ExtractStep(path, disk)
  {
    if path !in disk {
      return Step(disk, Some(MissingInput(path)));
    }
    var out := SplitExt(path).0 + ".csv";
    var files := disk[out := []];
    var lines, fault := ExtractFile(files[path]);
    files := files[out := lines];
    if fault.Some? {
      return Step(files, Some(BadHierarchy(path, fault.value)));
    }
    return Step(files, None);
  }

  /** One turn of the batch loop (lines 55-66 of bvh_to_csv.py) for argument `i`. */
  method ExtractTurn(argv: seq<string>, i: nat, disk: Disk, rejected: seq<nat>)
    returns (next: Disk, flagged: seq<nat>, halt: Option<Halt>)
    requires i < |argv|
    ensures Prepend(rejected, ExtractFrom(argv, i, disk))
            == if halt.Some? then Run(next, flagged, halt) else Prepend(flagged, ExtractFrom(argv, i + 1, next))
  {
    var path := argv[i];
    flagged := rejected;
    if !HasBvhType(path) {
      flagged := flagged + [i];
    } else {
      assert flagged + [] == flagged;
    }
    var step := ExtractOne(path, disk);
    ExtractAdvance(argv, i, disk, step, rejected);
    next, halt := step.disk, step.halt;
  }

  /** The batch loop (lines 55-66 of bvh_to_csv.py) from argument `i` on, after the diagnostics `rejected`. */
  method ExtractLoop(argv: seq<string>, i: nat, disk: Disk, rejected: seq<nat>) returns (run: Run)
    ensures run == Prepend(rejected, ExtractFrom(argv, i, disk))
  {
    var files, flagged, j := disk, rejected, i;
    while j < |argv|
      invariant Prepend(flagged, ExtractFrom(argv, j, files)) == Prepend(rejected, ExtractFrom(argv, i, disk))
      decreases |argv| - j
    {
      var halt;
      files, flagged, halt := ExtractTurn(argv, j, files, flagged);
      if halt.Some? {
        return Run(files, flagged, halt);
      }
      j := j + 1;
    }
    assert flagged + [] == flagged;
    return Run(files, flagged, None);
  }

  /** `__main__` (lines 49-66 of bvh_to_csv.py) over the command line `argv` (argv[0] is the program). */
  method ExtractBatch(argv: seq<string>, disk: Disk) returns (tooFew: bool, run: Run)
    ensures tooFew <==> |argv| < 2
    ensures run == ExtractFrom(argv, 1, disk)
  {
    tooFew := |argv| < 2;
    run := ExtractLoop(argv, 1, disk, []);
    assert [] + run.rejected == run.rejected;
  }

  /** The extension check compares the lower-cased extension: it passes exactly for "bvh" in any case. */
  lemma BvhTypeOf(root: string, ext: string)
    requires '.' !in ext && '/' !in ext
    requires HasNonDot(root, LastIndexOf(root, '/') + 1, |root|)
    ensures HasBvhType(root + "." + ext) <==> Lower(ext) == "bvh"
  {
    SplitExtJoin(root, ext);
    LowerDot(ext);
    DotCancel(Lower(ext), "bvh");
    assert ".bvh" == "." + "bvh";
  }

  /** A path without any dot fails the extension check. */
  lemma UntypedInputRejected(path: string)
    requires '.' !in path
    ensures !HasBvhType(path)
  {
    NoDotNoExtension(path);
  }

  /** How a batch's diagnostics and exception come from its first argument and from the rest. */
  lemma ExtractRejectedStep(argv: seq<string>, i: nat, disk: Disk)
    requires i < |argv|
    ensures var step := ExtractStep(argv[i], disk);
            var flagged := if HasBvhType(argv[i]) then [] else [i];
            var run := ExtractFrom(argv, i, disk);
            run.rejected == flagged + (if step.halt.Some? then [] else ExtractFrom(argv, i + 1, step.disk).rejected)
            && run.halt == if step.halt.Some? then step.halt else ExtractFrom(argv, i + 1, step.disk).halt
  {
    var step := ExtractStep(argv[i], disk);
    var flagged := if HasBvhType(argv[i]) then [] else [i];
    if step.halt.Some? {
      assert flagged + [] == flagged;
    }
  }

  /** Only arguments whose extension is not ".bvh" are named by the diagnostics. */
  lemma {:induction false} ExtractRejected(argv: seq<string>, i: nat, disk: Disk, r: nat)
    requires r in ExtractFrom(argv, i, disk).rejected
    ensures i <= r < |argv| && !HasBvhType(argv[r])
    decreases |argv| - i
  {
    ExtractRejectedSource(argv, i, disk, r);
    if r != i || HasBvhType(argv[i]) {
      var step := ExtractStep(argv[i], disk);
      ExtractRejected(argv, i + 1, step.disk, r);
    }
  }

  /** An index in the diagnostics is the first argument's, or comes from the arguments after it. */
  lemma ExtractRejectedSource(argv: seq<string>, i: nat, disk: Disk, r: nat)
    requires r in ExtractFrom(argv, i, disk).rejected
    ensures i < |argv|
    ensures var step := ExtractStep(argv[i], disk);
            (r == i && !HasBvhType(argv[i]))
            || (step.halt.None? && r in ExtractFrom(argv, i + 1, step.disk).rejected)
  {
    ExtractRejectedStep(argv, i, disk);
  }

  /** When the batch runs to the end, every argument whose extension is not ".bvh" is named by the diagnostics. */
  lemma {:induction false} ExtractRejectedAll(argv: seq<string>, i: nat, disk: Disk, r: nat)
    requires ExtractFrom(argv, i, disk).halt == None
    requires i <= r < |argv| && !HasBvhType(argv[r])
    ensures r in ExtractFrom(argv, i, disk).rejected
    decreases |argv| - i
  {
    var step := ExtractStep(argv[i], disk);
    ExtractRejectedStep(argv, i, disk);
    if r != i {
      assert step.halt.None?;
      ExtractRejectedAll(argv, i + 1, step.disk, r);
    }
  }

  /** A batch writes only output paths: every other file is left as it was. */
  lemma {:induction false} ExtractBatchLeavesOthers(argv: seq<string>, i: nat, disk: Disk, p: string)
    requires forall j | i <= j < |argv| :: CsvPath(argv[j]) != p
    ensures var run := ExtractFrom(argv, i, disk);
            (p in run.disk <==> p in disk) && (p in disk ==> run.disk[p] == disk[p])
    decreases |argv| - i
  {
    if i < |argv| {
      var step := ExtractStep(argv[i], disk);
      if step.halt.None? {
        ExtractBatchLeavesOthers(argv, i + 1, step.disk, p);
      }
    }
  }

  /**
   * No rollback: once an argument's output is written, a later exception
   * leaves it in place, unless a later argument writes the same path.
   */
  lemma ExtractBatchKeepsOutput(argv: seq<string>, i: nat, disk: Disk)
    requires i < |argv| && argv[i] in disk && CsvPath(argv[i]) != argv[i]
    requires CsvOf(disk[argv[i]]).Success?
    requires forall j | i < j < |argv| :: CsvPath(argv[j]) != CsvPath(argv[i])
    ensures var run := ExtractFrom(argv, i, disk);
            CsvPath(argv[i]) in run.disk && run.disk[CsvPath(argv[i])] == CsvOf(disk[argv[i]]).value
  {
    var step := ExtractStep(argv[i], disk);
    ExtractBatchLeavesOthers(argv, i + 1, step.disk, CsvPath(argv[i]));
  }

  /**
   * An input whose output path is itself (an input named "take.csv", say)
   * is truncated before it is read: it ends up holding one empty header row.
   */
  lemma ExtractIntoInput(path: string, disk: Disk)
    requires path in disk && CsvPath(path) == path
    ensures ExtractStep(path, disk) == Step(disk[path := [""]], None)
  {
    var empty: seq<string> := [];
    assert ThroughFirst(empty, BOUNDARY_KEY) == 0;
    assert empty[..0] == [] && empty[0..] == [];
    var scan := Scan([], 0);
    assert ScanSpec(empty) == Success(scan);
    assert HeaderRow(scan.header) == "";
    assert empty[scan.consumed..] == empty;
    assert TranscodeAll(KeptFrames(empty)) == [];
    assert [HeaderRow(scan.header)] + TranscodeAll(KeptFrames(empty[scan.consumed..])) == [""];
  }
}

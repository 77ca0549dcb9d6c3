# BVH ⇄ CSV motion converters, modelled in Dafny

The repository has two command-line scripts for motion-capture data.

- `bvh_to_csv.py` extracts motion from BVH files.
  - It reads the BVH hierarchy up to the first line containing `Frame Time:`.
  - It makes one column label per declared channel, of the form `Joint_pos_X` or `Joint_rot_Z`.
  - It writes those labels as a CSV header row.
  - It drops the first 250 motion lines.
  - It writes every later motion line with its whitespace runs replaced by commas.
  - Each argument `path.bvh` produces `path.csv` next to it.
- `csv_to_bvh.py` composes a BVH file from a CSV file and a template BVH file.
  - It copies the template up to and including its first line containing `MOTION`.
  - It then writes `Frames: <number of data rows>` and `Frame Time: 0.00833333`.
  - It then writes one motion line per CSV data row, with the fields joined by single spaces.
  - Arguments come in pairs (CSV, template). Each pair produces `<csv stem>.bvh` in the working directory.

The model has these modules:

- **`Text`** (`text.dfy`): the Python string operations the scripts rely on.
  - `str.split()` with Python's whitespace set, `str.join` and `str.split(c)`.
  - The substring test `in`, `str(n)` for naturals, and a few slices.
  - Three operations have their inverse proved: `str.split()` after joining with spaces gives back the tokens, `str.split(c)` after joining with `c` gives back the parts, and parsing `str(n)` gives back `n`. Splitting on `,` and joining with a space is proved to replace each comma by a space. The index searches have characterising contracts instead. The substring test and the slices are defined directly after Python's semantics: `ContainsShorter` is the only lemma about `in`, and a slice only promises to be no longer than its string.
- **`Paths`** (`paths.dfy`): `os.path.splitext`, including its rule that leading dots of the final component are not an extension, and `lower()`.
- **`Files`** (`files.dfy`):
  - An `OutputFile` class whose `WriteLine` appends a line.
  - `Disk`, a map from path to lines, used by the batch drivers. A missing key is a file that does not exist.
- **`BvhToCsv`** (`bvh_to_csv.dfy`):
  - The hierarchy scan, as a loop proved against the specification function `ScanSpec`.
  - The 250-line skip, as a loop proved against `KeptFrames`.
  - `writeToCvs`, with the whole file it writes given by `CsvOf`.
  - The batch driver, with its ordering: the input is opened, then the output is truncated, then the input is read.
- **`CsvToBvh`** (`csv_to_bvh.dfy`):
  - `writeFromBvh` and `writeFromCsv` as methods on an `OutputFile`, proved against `TemplateHead` and `MotionBlock`.
  - The pairwise batch driver, with its `IndexError` on an odd argument count and its output name.
- **`RoundTrip`** (`round_trip.dfy`): what extracting a BVH file and composing it back with itself as template gives.

Files are sequences of lines without their terminators. Both scripts raise exceptions: an out-of-range `split()[1]`, a `currJoint` read for a declared channel before any ROOT/JOINT line has assigned it, a file that does not exist, and an argument without a partner. These are modelled as `Result`/`Option` values and as the `halt` field of a batch `Run`. The printed diagnostics are modelled as returned values:

- `tooFew`: the argument count was too low;
- `rejected`: the indices of the arguments whose type check failed.

Neither changes what is written, just as in the scripts.

## Model

| member | source | states |
|---|---|---|
| BvhToCsv.ScanHierarchy | bvh_to_csv.py:26-38 | The hierarchy loop returns exactly `ScanSpec(file)`. That is either the labels of every CHANNELS line up to and including the first `Frame Time:` line, each under the joint of the last ROOT/JOINT line before it, with the number of lines read; or the first line that raises, with the cause (a ROOT/JOINT line with fewer than two tokens, or a CHANNELS line that declares at least one channel before any joint; a CHANNELS line with no channel names raises nothing and adds no label). |
| BvhToCsv.SkipFrames | bvh_to_csv.py:41-46 | The `zz` counter loop yields exactly the lines after the first 250 of what follows the hierarchy (`KeptFrames`), and nothing when there are at most 250. |
| BvhToCsv.BvhIterator | bvh_to_csv.py:25-46 | The generator run to the end: on a scan fault the output is untouched and the fault is returned. Otherwise exactly the header row is written and the kept motion lines are returned. |
| BvhToCsv.WriteRows | bvh_to_csv.py:20-22 | Appends one row per yielded line, each being the line's tokens joined by commas, in order. |
| BvhToCsv.WriteToCsv | bvh_to_csv.py:19-22 | The output grows by exactly `CsvOf(bvh)` (the header row, then the transcoded kept lines), or by nothing when the scan raises, and the fault is reported. |
| BvhToCsv.ExtractFile | bvh_to_csv.py:61-63 | A freshly opened output ends holding `CsvOf(bvh)`, or is empty when the scan raises. |
| BvhToCsv.FaultPersists | bvh_to_csv.py:28-30 | Once a line raises, later lines cannot change which fault the scan reports. |
| BvhToCsv.ScanFaultAt | bvh_to_csv.py:28-38 | A fault on a line before the boundary is the scan's result. |
| BvhToCsv.LabelOf | bvh_to_csv.py:35 | The label of a channel is `joint + "_" + channel[1:4] + "_" + channel[0]`. |
| BvhToCsv.StandardChannelLabels | bvh_to_csv.py:35 | The six standard channels `Xposition` … `Zrotation` under joint J label as `J_pos_X` … `J_rot_Z`. |
| BvhToCsv.ChannelLabelParts | bvh_to_csv.py:35 | When neither name contains `_`, a label splits on `_` back into joint, kind and axis. |
| BvhToCsv.FaultLine | bvh_to_csv.py:28-35 | The reported fault line is one of the lines read. |
| BvhToCsv.HeaderLabelCount | bvh_to_csv.py:32-35 | With no fault, the header has exactly one label per declared channel: the sum over CHANNELS lines of the number of tokens after `CHANNELS n` (none for a bare `CHANNELS` line). |
| BvhToCsv.HeaderExtends | bvh_to_csv.py:35 | Reading more lines only appends labels: the header is in declaration order. |
| BvhToCsv.HeaderIgnoresMotion | bvh_to_csv.py:37-38 | Lines after the first `Frame Time:` line do not change the scan's result. |
| BvhToCsv.NoBoundaryNoRows | bvh_to_csv.py:28-42 | Without any `Frame Time:` line the whole file is hierarchy and only the header row is written. |
| BvhToCsv.CsvRows | bvh_to_csv.py:19-46 | The written file has `1 + max(0, m - 250)` rows for m lines after the boundary. Row 0 is the header. Row k is motion line `250 + k - 1` after the boundary, transcoded. |
| BvhToCsv.RowsOf | bvh_to_csv.py:40-46 | The same row layout, for a given header and boundary index. |
| BvhToCsv.TranscodeInverse | bvh_to_csv.py:21 | Splitting a written row on `,` gives back the line's tokens, for a line that is not blank (its `split()` is not empty) and whose tokens contain no comma. |
| BvhToCsv.NoJointLines | bvh_to_csv.py:29-35 | Without ROOT/JOINT lines no joint is set, and any fault is an unbound joint. |
| BvhToCsv.EmptyChannelsHarmless | bvh_to_csv.py:32-35 | A CHANNELS line with no channel names (`CHANNELS` or `CHANNELS 0`) raises nothing, even before any joint, and adds no label: the comprehension reads `currJoint` only per channel. |
| BvhToCsv.ChannelsBeforeJoint | bvh_to_csv.py:32-35 | A CHANNELS line that declares at least one channel, before any ROOT/JOINT line, makes the extraction fail with an unbound joint, at or before that line. |
| BvhToCsv.ExtractOne | bvh_to_csv.py:60-66 | One argument: a missing input halts before anything is written. Otherwise the output path is truncated, then fully written, or halts empty on a scan fault. |
| BvhToCsv.ExtractTurn | bvh_to_csv.py:55-66 | One turn of the loop, including its diagnostic, agrees with `ExtractFrom`. |
| BvhToCsv.ExtractBatch | bvh_to_csv.py:49-66 | `tooFew` is set exactly when there is no argument. The loop's result is `ExtractFrom(argv, 1, disk)`: each argument in order until one raises. |
| BvhToCsv.BvhTypeOf | bvh_to_csv.py:55-58 | The type check passes for `root.ext` exactly when `ext` lower-cases to `bvh`. |
| BvhToCsv.UntypedInputRejected | bvh_to_csv.py:58 | A path without a dot fails the type check. |
| BvhToCsv.ExtractBatchLeavesOthers | bvh_to_csv.py:54-66 | A path that is no argument's output path is neither created, removed nor changed. |
| BvhToCsv.ExtractBatchKeepsOutput | bvh_to_csv.py:54-66 | An output already written survives a later exception (no rollback), unless a later argument overwrites it. |
| BvhToCsv.ExtractRejected | bvh_to_csv.py:54-59 | Only arguments whose lower-cased extension is not `.bvh` are flagged, each by its index. |
| BvhToCsv.ExtractRejectedAll | bvh_to_csv.py:54-59 | When the batch runs to the end, every argument with a wrong extension is flagged. |
| BvhToCsv.CsvPathOf | bvh_to_csv.py:55-61 | The output of `d/take.ext` is `d/take.csv`: same directory, extension replaced. |
| BvhToCsv.CsvPathUntyped | bvh_to_csv.py:55-61 | A path without a dot gets `.csv` appended. |
| BvhToCsv.ExtractIntoInput | bvh_to_csv.py:60-63 | An input that is its own output path is truncated before it is read, and ends as a single empty header row. |
| CsvToBvh.CsvFields | csv_to_bvh.py:33 | A CSV record: none for an empty line; otherwise comma-free fields that join back to the line. |
| CsvToBvh.WriteFromBvh | csv_to_bvh.py:59-64 | Appends exactly the template's lines up to and including the first containing `MOTION`, or all of them when none does. |
| CsvToBvh.WritePoses | csv_to_bvh.py:42-47 | Appends, per record in order, its fields joined by single spaces. |
| CsvToBvh.ReadRows | csv_to_bvh.py:33-36 | The rows are the reader's records after the first one: there is one fewer row than the file has lines (none for an empty file), and row `k` is the record of line `k + 1`. |
| CsvToBvh.WriteFromCsv | csv_to_bvh.py:32-47 | Appends exactly `MotionBlock(csv)`: the frame count, the frame time, then the motion lines. |
| CsvToBvh.WriteNewBvh | csv_to_bvh.py:91-95 | A fresh output receives exactly the template head followed by the motion block. |
| CsvToBvh.MotionBlockLayout | csv_to_bvh.py:39-47 | The block has `2 + rows` lines. The first is `Frames: ` and a number that parses back to the count of data rows. The second is `Frame Time: 0.00833333`. Each later one is its CSV line with commas replaced by spaces. |
| CsvToBvh.FramesLineReads | csv_to_bvh.py:39 | The number on the `Frames:` line parses back to the count. |
| CsvToBvh.PoseLineOf | csv_to_bvh.py:47 | A CSV line becomes a motion line with each comma replaced by a space. |
| CsvToBvh.HeaderIgnored | csv_to_bvh.py:34 | The CSV header line has no effect on the output. |
| CsvToBvh.TemplateCopied | csv_to_bvh.py:60-64 | The template is copied verbatim through its first `MOTION` line and no further. |
| CsvToBvh.TemplateWithoutMotion | csv_to_bvh.py:60-64 | A template without `MOTION` is copied whole. |
| CsvToBvh.TemplateMotionIgnored | csv_to_bvh.py:60-64 | The template's own motion data never reaches the output. |
| CsvToBvh.BaseName | csv_to_bvh.py:91 | `split('/')[-1]` has no `/`. |
| CsvToBvh.ComposeOne | csv_to_bvh.py:86-95 | One pair: a missing CSV file, then a missing template, halts before anything is written. Otherwise the output is truncated and then holds `Composed` of what the inputs read after the truncation. |
| CsvToBvh.ComposeTurn | csv_to_bvh.py:75-95 | One turn, including the `IndexError` of a lone last argument and the diagnostic, agrees with `ComposeFrom`. |
| CsvToBvh.ComposeBatch | csv_to_bvh.py:67-100 | `tooFew` is set exactly when there are fewer than two arguments. The loop's result is `ComposeFrom(argv, 1, disk)`: pairs in order until one raises. |
| CsvToBvh.BvhOutputNameOf | csv_to_bvh.py:77-91 | For `dir/stem.ext` the output is `stem.bvh`, whatever the directory. |
| CsvToBvh.BvhOutputNameBare | csv_to_bvh.py:77-91 | For `stem.ext` without a directory (`motionfile.csv`) the output is `stem.bvh`. |
| CsvToBvh.BaseNameOfNested | csv_to_bvh.py:91 | `(dir + "/" + stem).split('/')[-1]` is `stem`. |
| CsvToBvh.TypesOf | csv_to_bvh.py:77-81 | The type check passes exactly when the extensions lower-case to `csv` and `bvh`. |
| CsvToBvh.UntypedRejected | csv_to_bvh.py:81 | An argument without a dot fails the type check. |
| CsvToBvh.ComposePairing | csv_to_bvh.py:75-78 | When every argument exists, the batch raises only for an odd number of arguments, and then at the last one, which has no partner. |
| CsvToBvh.ComposeRejected | csv_to_bvh.py:80-82 | Every flagged index is a pair start of the batch's parity, with a partner argument, whose types are wrong. |
| CsvToBvh.ComposeRejectedAll | csv_to_bvh.py:75-82 | When every argument exists, every pair whose types are wrong is flagged. |
| CsvToBvh.ComposeLeavesOthers | csv_to_bvh.py:75-95 | A path that is not the output name of any pair's CSV argument is neither created, removed nor changed; templates included. |
| CsvToBvh.ComposeBatchKeepsOutput | csv_to_bvh.py:75-100 | No rollback: a pair's output, once written, survives a later exception, unless a later pair writes the same path. |
| CsvToBvh.TemplateIsOutput | csv_to_bvh.py:88-95 | A template whose path is the output path is truncated before it is read: the output holds only the motion block. |
| CsvToBvh.ComposedOnEmpty | csv_to_bvh.py:59-64 | An empty template contributes nothing. |
| RoundTrip.NormalizeIdempotent | bvh_to_csv.py:21 | Single-spacing a line keeps its tokens, and doing it twice is doing it once. |
| RoundTrip.TranscodeFields | csv_to_bvh.py:33 | Reading a row the extractor wrote gives the tokens of its motion line, when it has no comma. |
| RoundTrip.PosesOfTranscoded | csv_to_bvh.py:42-47 | Composing from an extracted CSV file gives one single-spaced motion line per kept line. |
| RoundTrip.RoundTripLines | csv_to_bvh.py:94-95 | Extract then compose with the original as template: the original through `MOTION`, the kept-line count, the fixed frame time, then the kept lines single-spaced. Only the kept motion lines need to be comma-free. |
| RoundTrip.StandardRoundTrip | bvh_to_csv.py:37-46 | For the usual layout with more than 250 single-spaced motion lines the result is the hierarchy, `MOTION`, a frame count 250 lower, the fixed frame time, and motion lines 251 on, unchanged. |
| RoundTrip.StandardHead | csv_to_bvh.py:63 | The template head of the usual layout is the hierarchy and its `MOTION` line. |
| RoundTrip.StandardScan | bvh_to_csv.py:37-38 | In the usual layout the scan ends right after the `Frame Time:` line. |
| RoundTrip.NormalizedKept | bvh_to_csv.py:41-46 | Lines already single-spaced come back unchanged. |
| Text.ParseNatToString | csv_to_bvh.py:39 | `str(n)` parses back to `n`. |
| Text.SplitJoin | bvh_to_csv.py:21 | `" ".join(tokens).split()` gives the tokens back. |
| Text.SplitOnJoin | bvh_to_csv.py:21 | Joining comma-free parts with `,` and splitting on `,` gives the parts back. |
| Text.SplitOnConcat | csv_to_bvh.py:91 | Splitting on `c` around one occurrence of `c` splits each side separately. |
| Text.JoinSplitOn | csv_to_bvh.py:47 | Splitting on `,` and joining with a space replaces every comma by a space. |
| Text.SplitWithout | bvh_to_csv.py:21 | The tokens of a comma-free line are comma-free. |
| Text.ThroughFirstAppend | csv_to_bvh.py:60-64 | Lines without the key before the first key line shift where the copy stops. |
| Text.ThroughFirstAt | bvh_to_csv.py:37-38 | Before the stop line, the loop continues exactly when the current line lacks the key. |
| Text.ContainsShorter | bvh_to_csv.py:37 | A line shorter than the key cannot contain it. |
| Text.LastIndexOfAppend | csv_to_bvh.py:77 | A suffix without `c` does not move the last `c`. |
| Paths.SplitExt | bvh_to_csv.py:55 | `splitext` gives a root and an extension that concatenate to the path. The extension is empty, or a dot followed by no dot and no `/`. |
| Paths.SplitExtJoin | csv_to_bvh.py:77-78 | `splitext(root + "." + ext)` is `(root, "." + ext)` when the final component of `root` is not all dots. |
| Paths.NoDotNoExtension | bvh_to_csv.py:55 | A path without a dot has no extension. |

## Left out

- File I/O: files are line sequences in a `Disk` map.
  - Open, close, encodings and write buffering are not modelled.
  - No write is ever visible to a read of the same file. Each input is read from the disk as it is just after the output was truncated. A real buffered write can be flushed while an aliased input is still being read, and that is not modelled.
  - A missing key is the `FileNotFoundError` of `open`.
- Line terminators: each line is taken to end in a newline.
  - `writeFromBvh` copies a template's last line without a newline as is, and the next line would be glued to it. The model keeps them apart.
- Path syntax: `Paths` follows POSIX `posixpath` semantics, with `/` as the only separator. Windows paths under `ntpath`, with `\` separators and drive letters such as `C:`, are not modelled.
- Path normalisation: paths are compared as strings, so `a.csv` and `./a.csv` are different files. Directory creation and permission errors are left out.
- `csv.reader` quoting, escapes and embedded newlines: a record is `line.split(',')`, or no field for an empty line. Files without quotes read that way.
- `str(FRAME_TIME)`: the float is fixed as the text `0.00833333`. Floating-point formatting is not modelled.
- `str.lower()` is modelled on ASCII letters only. Other Unicode case mappings are not modelled.
- `print`: diagnostics are returned values (`tooFew`, `rejected`) and `print(len(sys.argv))` is left out. The console text itself is not modelled.
- `bvh_iterator` writes the header through the module-level `csv` handle, not the `csv` parameter of `writeToCvs`. The model writes to the one output file, which is the object that global names when the script runs.
- Laziness of the generator: `BvhIterator` runs it to the end. The header is written before the first yielded line either way.
- Exceptions other than the ones above, such as decoding errors, are not modelled.
- The commented-out code (the position/rotation filters in `writeFromCsv` and the `mkdir` in `__main__`) and the `pathlib` import do nothing and are not modelled.

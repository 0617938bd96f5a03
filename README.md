# SVS_WORLD label-to-frame core, in Dafny

SVS_WORLD is a small singing-voice synthesiser built on the WORLD vocoder.
This project models the part of it between the label files and the
vocoder:

- **Labels.** `.lab` files hold lines `start end phoneme`, with times in
  100 ns ticks. They are loaded into segments (`load_lab_file`) and aligned
  to 5 ms frames (`time_to_frame`, `align_phonemes_to_frames`).
- **Phoneme normalisation.** Silence and breath spellings are mapped to the
  tags `SP` and `AP`. The batch tool `normalize_labels.py` does this, and so
  does the import step of the training GUI (`gui.py`), which also pairs
  `.wav` and `.lab` files by stem.
- **Acoustic model builder.** `build_phoneme_db` averages the SP
  (spectral envelope) and AP (aperiodicity) frames per phoneme. It adds two
  reserved silence entries, with a fallback when the corpus has no pause.
- **Two timeline renderers.** Each fills zeroed F0/SP/AP buffers frame
  range by frame range:
  - `synthesize_from_lab` works from a label file;
  - `synthesize_from_table` works from a score of (phoneme, ms, Hz) rows.
- **The score front end.** `get_table_data` reads the score's rows, and
  `generate_lab_from_table` writes a score out as a label file.

Each source file is one module:

| module | models |
|---|---|
| `SvsUtils` (svs_utils.dfy) | src/svs_utils.py |
| `NormalizeLabels` (normalize_labels.dfy) | normalize_labels.py |
| `Gui` (gui.dfy) | gui.py |
| `BuildDb` (build_db.dfy) | src/build_db.py |
| `Synthesize` (synthesize.dfy) | src/synthesize.py |
| `GuiInfer` (gui_infer.dfy) | gui_infer.py |

Four shared modules support them:

- `Text`: Python's `str.strip`, `str.split`, `int()`, `str()` on integers, `"\n".join` and line-by-line file reading.
- `Frames`: the frame grid and numpy slice assignment.
- `Seqs`: maps and folds over sequences.
- `Wrappers`: `Option` and `Result`.

The code that updates state in place is modelled imperatively:

- loops that append to lists, or set flags, are methods with loop invariants;
- the renderers' numpy buffers are `array`s written by `Frames.FillSlice`;
- the GUI's `file_pairs` dictionary is a `map` field of the class `Gui.SvsApp`.

Each method is proved against a specification function. The properties the
source promises are proved as lemmas about those functions.

Conventions:

- Times and durations are exact `real`s. Python's `int()` on a float is
  `SvsUtils.Trunc`, which is truncation toward zero.
- Spectral values are exact `real`s, so means are exact.
- The acoustic model is a `map<string, DbValue>`, passed in as a parameter:
  - a phoneme entry holds its two mean vectors (`Means`);
  - the two reserved silence keys hold bare vectors (`Vector`), as in the pickled dictionary.
- A phoneme-table lookup that would raise in Python becomes an `Err`:
  - this happens when a score or lab label names a reserved key;
  - the lookup `PHONEME_DB[ph]["sp_mean"]` then indexes a bare array with a string.

## Model

| member | source | states |
|---|---|---|
| SvsUtils.LoadLabFile | src/svs_utils.py:3-17 | the loader's loop returns exactly `ParseLab` of the file's lines: the segments of the accepted lines in order, or the error of the first line whose tick does not parse |
| SvsUtils.ParseLabStep | src/svs_utils.py:7-16 | reading one more line keeps an earlier error, ignores a line without three tokens, appends its segment, or fails on a bad tick |
| SvsUtils.ParseLabSucceeds | src/svs_utils.py:8-11 | loading succeeds iff no three-token line has a start or end token that `int()` rejects |
| SvsUtils.ParseLabFirstBadLine | src/svs_utils.py:8-11 | a failed load fails on the first three-token line with a tick `int()` rejects, with the start token when that one is bad and the end token otherwise; every earlier line is skipped or read |
| SvsUtils.ParseLabFailSticks | src/svs_utils.py:10-11 | once a prefix of the file fails, the whole load fails with that same error |
| SvsUtils.ParseLineKinds | src/svs_utils.py:8-11 | a line is skipped exactly when it has other than three tokens, and loading fails on it exactly when it has three tokens and a tick that is not an integer |
| SvsUtils.ParseLineDescribes | src/svs_utils.py:8-15 | a line yields a segment only if it splits into exactly three tokens; the segment's label is the third token and its times are the ticks divided by 10,000,000 |
| SvsUtils.ParseLabSegments | src/svs_utils.py:7-16 | on success there is one segment per accepted line, in file order, each describing its line |
| SvsUtils.Accepted | src/svs_utils.py:9 | the accepted lines are exactly the lines of three whitespace tokens, in order |
| SvsUtils.TimeToFrameIsFloor | src/svs_utils.py:19-20 | for a non-negative time the frame index is the floor: the time lies in the index's 5 ms interval |
| SvsUtils.TimeToFrameMonotone | src/svs_utils.py:19-20 | the frame index never decreases as the time grows |
| SvsUtils.TickFrame | src/svs_utils.py:14-15 | a time read from a tick value lies in frame `tick / 50,000` |
| SvsUtils.AlignPhonemes | src/svs_utils.py:22-29 | the aligned sequence has exactly `total_frames` entries, and entry `i` is `AlignedLabel`: the label of the last segment whose `range(f1, min(f2, total))` holds `i`, else `""` |
| SvsUtils.AlignedLabelSnoc | src/svs_utils.py:24-28 | a later segment overwrites exactly the frames of its range and leaves every other frame as it was |
| SvsUtils.AlignedLabelLastWins | src/svs_utils.py:24-28 | a frame holds the label of the last covering segment, in input order |
| SvsUtils.AlignedLabelUncovered | src/svs_utils.py:23 | a frame no segment covers keeps `""` |
| SvsUtils.EmptySegmentWritesNothing | src/svs_utils.py:27 | a segment with `f1 >= min(f2, total_frames)` changes no frame |
| NormalizeLabels.NormalizeOne | normalize_labels.py:21-38 | one line: a three-token line comes out as `"start end ph\n"` with the phoneme mapped, any other line verbatim; the flag is set iff the mapped phoneme differs |
| NormalizeLabels.NormalizeLabFile | normalize_labels.py:17-38 | one output line per input line, in order, each `NormalizeLine` of its input; `changed` iff some line's phoneme changed |
| NormalizeLabels.VariantsDisjoint | normalize_labels.py:6-7 | no spelling is both a silence and a breath variant |
| NormalizeLabels.NormalizeTokenIdempotent | normalize_labels.py:26-31 | the phoneme map is idempotent, with `SP` and `AP` as fixed points |
| NormalizeLabels.NormalizeLineTokens | normalize_labels.py:22-36 | a rewritten three-token line reads back as the same start and end tokens and the mapped phoneme |
| NormalizeLabels.NormalizeLineIdempotent | normalize_labels.py:20-38 | normalising a normalised line changes nothing and reports no change |
| NormalizeLabels.NormalizeFileIdempotent | normalize_labels.py:13-44 | a second run over the tool's own output writes back the same lines it read and returns `False` |
| NormalizeLabels.ReformatIsNoChange | normalize_labels.py:33-36 | a line whose phoneme is already canonical gets a final newline but does not set `changed` |
| Gui.NormalizePhonemeCases | gui.py:21-32 | after stripping, silence spellings (including `""`, `p`, `S`) give `SP`, breath spellings (including `b`) give `AP`, anything else is returned stripped; an all-blank token gives `SP` |
| Gui.NormalizePhonemeIdempotent | gui.py:21-32 | `normalize_phoneme` is idempotent and its result is already stripped |
| Gui.CanonicalTagsFixed | gui.py:27-30 | `SP` and `AP` are fixed points |
| Gui.SpellingsExtendVariants | gui.py:24-25 | the GUI's spelling sets are those of normalize_labels.py plus `p`, `S` (silence) and `b` (breath) |
| Gui.NormalizersAgree | gui.py:21-32 | on a token, the GUI's map and the batch tool's map agree exactly when the token is not `p`, `S` or `b` |
| Gui.NormalizePhonemeIsToken | gui.py:23-32 | a token is mapped to a token, so a rewritten line still splits into three tokens |
| Gui.RewriteOne | gui.py:135-141 | one line of the import rewrite: `"start end normalize(ph)\n"` for a three-token line, the line itself otherwise |
| Gui.RewriteLabFile | gui.py:134-141 | the rewritten `.lab` has one line per input line, each `RewriteLabLine` of its input |
| Gui.RewriteLabLineTokens | gui.py:136-139 | a rewritten three-token line reads back as the same start and end and the normalised phoneme |
| Gui.RewriteLabLineIdempotent | gui.py:134-141 | importing an imported label file again changes nothing |
| Gui.StemSuffix | gui.py:101-105 | `Path.stem + Path.suffix` is the base name; the suffix is empty or a dot and at least one other character, with no further dot |
| Gui.StemIndexMeaning | gui.py:100-105 | a stem is in the `.wav` (or `.lab`) index iff some selected file has that stem and that suffix, compared case-insensitively; the later file wins |
| Gui.CollectStems | gui.py:97-105 | the loop builds exactly the `.wav` and `.lab` stem indexes |
| Gui.CommonNamesMeaning | gui.py:108 | a name is paired iff both a `.wav` and a `.lab` with that stem were selected |
| Gui.SvsApp.SelectNew | gui.py:109-113 | the new pairs are the common names not already in `file_pairs`, each with its `.wav` and `.lab` |
| Gui.SvsApp.AddPairs | gui.py:124-143 | each new pair's label file is rewritten line by line; `file_pairs` gains exactly the new names with their destinations and keeps every earlier entry |
| Gui.SvsApp.LoadFiles | gui.py:94-143 | the outcome (no selection, no pair, all loaded, or loaded) follows the source's branches; `file_pairs` only grows, by exactly the new common names |
| BuildDb.CollectFrames | src/build_db.py:14-41 | after the collection loop the buckets hold the bucketed frames of the admitted utterances, and `all_sp`/`all_ap`/`all_ph` are their frames' rows and labels, of equal length |
| BuildDb.AddUtterance | src/build_db.py:33-36 | the inner loop adds each frame of an admitted utterance to the bucket of its label when the label is not blank, `SP` or `AP` |
| BuildDb.DroppedUtteranceIgnored | src/build_db.py:28-30 | an utterance whose label length differs from its SP frame count contributes no frame anywhere |
| BuildDb.AllFramesAppend | src/build_db.py:20-41 | the frames of a corpus are those of its parts, in order |
| BuildDb.BucketMembers | src/build_db.py:33-36 | a frame is in bucket `ph` iff it is a collected frame labelled `ph` |
| BuildDb.PoolMembers | src/build_db.py:55-58 | a frame is in the silence pool iff it is a collected frame labelled `SP` or `AP` |
| BuildDb.BucketMeans | src/build_db.py:44-49 | the model has an entry exactly for the non-empty buckets, each holding the elementwise means of its bucket |
| BuildDb.PoolSilence | src/build_db.py:53-58 | the pool is the SP/AP-labelled frames of admitted utterances, rows paired |
| BuildDb.SilenceVectors | src/build_db.py:60-73 | the reserved vectors are the pool means; with an empty pool, 0.001 and 0.0 in every bin, as wide as the first collected frame or 513 |
| BuildDb.BuildPhonemeDb | src/build_db.py:13-74 | the result is `IsPhonemeDb`: entries exactly for the bucketed labels with frames, each its means, plus both reserved keys with the silence vectors |
| BuildDb.MeanBounds | src/build_db.py:47-48 | every bin of a mean lies between the least and greatest value of that bin over the bucket |
| BuildDb.MeanOfCopies | src/build_db.py:47-48 | the mean of copies of one row is that row |
| BuildDb.SilenceWidths | src/build_db.py:66-71 | both silence vectors are as wide as the corpus frames, or 513 for an empty corpus |
| BuildDb.PhonemeDbWellFormed | src/build_db.py:44-73 | every entry of the built model, means and silence vectors alike, has the corpus width |
| Synthesize.SegmentRows | src/synthesize.py:53-62 | silence phonemes get the silence vectors, model phonemes their means, unknown labels the silence vectors with a warning; a label naming a reserved key is an error |
| Synthesize.RenderSegment | src/synthesize.py:45-62 | one segment: nothing when `f1 >= total_frames`, otherwise frames `[f1, min(f2, total))` get the pitch and the segment's vectors and no other frame changes |
| Synthesize.SynthesizeFromLab | src/synthesize.py:35-62 | the buffers are `Rendered` (frame `i` painted by the last segment covering it) and the warnings are the unknown labels of played segments, in order; the run fails iff some played segment names a reserved key, and then with the first such label |
| Synthesize.RenderSegments | src/synthesize.py:44-62 | on zeroed buffers, the loop over segments leaves frame `i` painted by the last played segment covering it, collects the unknown labels of played segments in order, and stops at the first segment naming a reserved key |
| Synthesize.RenderStep | src/synthesize.py:44-62 | one pass of the loop overwrites exactly the segment's frames and adds at most its label to the warnings |
| Synthesize.TotalFrames | src/synthesize.py:37-38 | `total_frames` is the last end's frame plus 10, at least 10 |
| Synthesize.EmptyLabTotal | src/synthesize.py:37-38 | an empty label file gives `time_to_frame(1.0) + 10 = 210` frames |
| Synthesize.BuiltModelUsable | src/synthesize.py:25-31 | with a model built by `build_phoneme_db`, the renderer takes the builder's silence vectors, at the corpus width |
| Synthesize.FallbackIsEmptyCorpusSilence | src/synthesize.py:28-31 | without reserved keys the renderer's fallback equals the builder's empty-corpus fallback: 513 bins of 0.001 and 0.0 |
| Synthesize.RenderedFollowsAlignment | src/synthesize.py:40-62 | a covered frame holds pitch `default_pitch` and the vectors of the label `align_phonemes_to_frames` gives it; an uncovered frame stays zero and its label `""` |
| Synthesize.RenderedWidths | src/synthesize.py:41-42 | every frame's SP and AP rows are as wide as the silence vectors |
| Synthesize.WarnedMembers | src/synthesize.py:59-60 | a label is warned about iff a played segment carries it and it is neither silent nor in the model |
| GuiInfer.GetTableData | gui_infer.py:155-168 | the loop returns `ReadTable`: the rows' notes in order, blank rows skipped, or `None` at the first unreadable number |
| GuiInfer.ReadTableStep | gui_infer.py:157-167 | one more row keeps a failure, skips a blank phoneme, appends a note, or fails |
| GuiInfer.ReadTableSucceeds | gui_infer.py:161-167 | reading succeeds iff no non-blank row has a duration, or (for a non-pause) a pitch, that `float()` rejects |
| GuiInfer.ReadTableBadSticks | gui_infer.py:165-167 | one bad row makes the whole read `None` |
| GuiInfer.ReadTableNotes | gui_infer.py:158-164 | every note read has a stripped, non-empty phoneme, and pitch 0.0 when it is `SP` or `AP` |
| GuiInfer.ReadFieldsClean | gui_infer.py:159-164 | a row read as a note has a non-empty phoneme and, for a pause, pitch 0.0 |
| GuiInfer.WriteLabLines | gui_infer.py:31-37 | the writer's loop emits `LabLines`: one line per note, start the clock before it, end the clock after it |
| GuiInfer.LabLinesChain | gui_infer.py:32-37 | the first start is 0 and each end is the start plus `int(dur_ms * unit)`, which is the next start |
| GuiInfer.GenerateLabFromTable | gui_infer.py:29-38 | the text is those lines in microseconds, joined by `"\n"` with no final newline |
| GuiInfer.GenerateLabInTicks | gui_infer.py:29-38 | the corrected writer: the same lines in 100 ns ticks |
| GuiInfer.LabReadsBack | gui_infer.py:36-38 | loading the written text gives one segment per note, in order, with the written times divided by 10,000,000 |
| GuiInfer.LabRoundTripShrinks | gui_infer.py:34 | with the writer as written, a note of whole milliseconds reads back a tenth of its intended start and end |
| GuiInfer.HalfSecondNoteReadsAsFiftyMs | gui_infer.py:34 | one 500 ms note, written and loaded back, becomes the segment 0.0 to 0.05 s |
| GuiInfer.LabRoundTripCorrected | gui_infer.py:34 | with ticks written, every time reads back as the note's intended start and end in seconds |
| GuiInfer.ElapsedWholeMs | gui_infer.py:32-37 | for whole-millisecond durations the writer's clock is the sum of the durations times the unit |
| GuiInfer.RenderNote | gui_infer.py:57-68 | one played note: F0 gets its pitch over the range, then the pause constants, the label's means, or the constants with a warning; a reserved-key label faults |
| GuiInfer.PlayNote | gui_infer.py:52-70 | with the cursor at the sum of the earlier durations, the note writes its own span clipped to `total_frames`, or nothing when it starts at or past the end |
| GuiInfer.TableFrameCount | gui_infer.py:43-45 | the summed durations give `int(total_sec * 1000 / 5) + 10` frames, never fewer than 10 |
| GuiInfer.PlayNotes | gui_infer.py:51-70 | the loop leaves every frame painted by the last note covering it, warns about the unknown labels of played notes in order, and stops at the first faulting one |
| GuiInfer.SynthesizeFromTable | gui_infer.py:40-70 | the run yields exactly `total_frames = int(sum of ms / 5) + 10` frames, painted as `TableRendered`, with the warnings `TableWarned`; the run fails iff a played note's label names a reserved key, and then with the first such label |
| GuiInfer.SumMsNonNegative | gui_infer.py:43 | with non-negative durations the total is non-negative |
| GuiInfer.SumMsMonotone | gui_infer.py:70 | the cursor never moves back |
| GuiInfer.NoteSpanBounds | gui_infer.py:43-55 | every note's span starts at frame 0 or later and ends no later than the score's last frame, ten short of `total_frames` |
| GuiInfer.NoteSpansTiled | gui_infer.py:51-70 | the notes' spans lie end to end from frame 0 to the frame the score ends in |
| GuiInfer.AllNotesPlayed | gui_infer.py:57 | with non-negative durations no note is skipped by the `start_frame < total_frames` test |
| GuiInfer.TableFaultIff | gui_infer.py:62-64 | the renderer fails iff some note's label names a reserved key, and then no earlier note's label does |
| GuiInfer.TableWarnings | gui_infer.py:65-66 | a label is warned about iff some note carries it and it is neither silent nor in the model |
| GuiInfer.TableFrameOfNote | gui_infer.py:53-68 | a frame inside a note's span holds that note's voice and no other note's |
| GuiInfer.TableFrameCases | gui_infer.py:58-68 | such a frame has the note's pitch; the all-ones SP and zero AP for `SP`, `AP`, `""` and unknown labels; the label's means otherwise |
| GuiInfer.TableFramesCovered | gui_infer.py:45-70 | every frame before the score's end is written by exactly one note; the ten frames after it stay zero |
| GuiInfer.TableWidths | gui_infer.py:48-49 | every frame has 513 bins of SP and of AP |
| Frames.FillSlice | gui_infer.py:58 | numpy's `buf[first:stop] = x` writes exactly the slice and nothing else |
| Frames.TiledCovered | gui_infer.py:52-55 | spans laid end to end leave no frame between the first start and the last stop uncovered |
| Text.IntToStringRoundTrip | gui_infer.py:36 | an integer printed by an f-string is a single token that `int()` reads back as the same integer |
| Text.FileLinesOfJoin | gui_infer.py:38 | reading a `"\n"`-joined text line by line gives each line with its newline and the last without one |

## Left out

- IEEE floating point: times, durations and means are exact reals. The rounding of `/ 10_000_000.0`, of `int(dur_ms * 1000)` and of `np.mean` is not modelled.
- `int()` on non-ASCII digits, and Unicode case folding in `str.lower()`: only ASCII is modelled.
- Universal-newline translation when reading files: lines split after `'\n'` only.
- SvsUtils.AlignPhonemes: requires non-negative start times, because a negative `f1` would write through Python's negative indexing.
- Synthesize.SynthesizeFromLab and GuiInfer.SynthesizeFromTable: they require non-negative times and durations, for the same reason.
- Synthesize.Usable and GuiInfer.FitsTable: every mean must be as wide as the buffers. A narrower or wider mean makes numpy's slice assignment raise; a one-bin mean, which numpy would broadcast, is excluded as well.
- Synthesize.SilenceKeysUsable: the two silence vectors must have the same width. src/synthesize.py:41-42 sizes the SP and AP buffers separately, so Python renders a model with unequal silence widths without error; the model does not cover such models. `build_phoneme_db` never writes one (Synthesize.BuiltModelUsable).
- BuildDb.Shaped: the model admits only corpora where every SP and AP row has one width and, in every kept utterance, AP has as many frames as SP. The script accepts other corpora without an error:
  - an AP longer than its SP, or a shorter one whose missing frames are all pause or blank frames, is still appended whole to `all_ap` (src/build_db.py:40), so `all_ap` drifts against `all_sp` and `all_ph` and src/build_db.py:55-58 pair later utterances' pause frames with the wrong AP rows;
  - SP and AP widths that differ between buckets, or between SP and AP, raise nothing either.
  The model does not capture that drift. src/analyze.py computes SP and AP from the same WORLD analysis of each file, so they always have the same frame count and width.
- The `print` warnings of both renderers are returned as a list of labels. Logging, message boxes and the rest of tkinter are not modelled.
- File I/O is replaced by values:
  - `open`, `os.listdir` and `np.load`;
  - `pickle` load and dump;
  - `shutil.copy2`;
  - the module-level `FileNotFoundError` checks.
- Gui.SvsApp.LoadFiles: the `except` branch of gui.py:148-149 is not modelled. An I/O error midway through the copy loop leaves `file_pairs` holding only the pairs copied so far; the model's copies cannot fail.
- The threads of the training GUI are not modelled.
- `pw.synthesize`, `sf.write` and all of src/analyze.py (librosa, pyworld analysis, matplotlib) are not modelled; they are foreign audio code.
- The frame period is fixed at 5 ms, the only value any caller passes.
- `Path.stem` and `Path.suffix` are modelled on the text after the last `/`. Other path syntax is not modelled.
- Python's `float()` is a parameter `parseFloat` of the table reader.
- Dictionary and set iteration order:
  - `Gui.SvsApp.LoadFiles` visits the new pairs in an arbitrary order;
  - the model built by `build_phoneme_db` is a `map`, which has no order.
- Synthesize.SynthesizeFromLab, GuiInfer.SynthesizeFromTable: an unknown label never raises. A label naming a reserved key (`__SILENCE_SP`) does raise in Python and is an `Err` here; this is not a general error path for unknown phonemes.
- Synthesize.SynthesizeFromLab, GuiInfer.SynthesizeFromTable: after a failure the buffers are not returned, since Python discards them with the exception.

## Findings

| source | as written | input that shows it | evidently intended | confidence | as-written member | corrected member |
|---|---|---|---|---|---|---|
| gui_infer.py:30-34 | `generate_lab_from_table` writes times in microseconds (`int(dur_ms * 1000)`), while `load_lab_file` (src/svs_utils.py:4,14-15) reads 100 ns ticks, dividing by 10,000,000 | a score of one 500 ms note is written as `0 500000 ph` and loads back as the segment 0.0 to 0.05 s | times written in the loader's unit, 10,000 ticks per ms, so every time reads back as written | not executed | GuiInfer.HalfSecondNoteReadsAsFiftyMs | GuiInfer.LabRoundTripCorrected |

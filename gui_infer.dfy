/**
 * The score front end of gui_infer.py: a table of (phoneme, duration in ms,
 * pitch in Hz) rows is read from the entry widgets, written out as a `.lab`
 * file, or rendered directly into per-frame F0, SP and AP buffers.
 */
module GuiInfer {
  import opened Wrappers
  import opened Text
  import opened Frames
  import opened SvsUtils
  import opened BuildDb
  import opened Synthesize

  /** One row of the score. */
  datatype Note = Note(phoneme: string, durMs: real, pitchHz: real)

  // ---------------------------------------------------------------------
  // get_table_data
  // ---------------------------------------------------------------------

  /** The text of one row's three entry widgets. */
  datatype TableRow = TableRow(phoneme: string, duration: string, pitch: string)

  /** What one row contributes: nothing (blank phoneme), a note, or the `ValueError` that aborts. */
  datatype RowRead = BlankRow | NoteRow(note: Note) | BadRow

  /**
   * A row whose phoneme, already stripped, is `ph`, read with `parseFloat`
   * standing for Python's `float()`: a pause (`SP`/`AP`) gets pitch 0.0
   * without its pitch text being read.
   */
  function ReadFields(ph: string, duration: string, pitch: string, parseFloat: string -> Option<real>): (r: RowRead)
    ensures r.NoteRow? ==> r.note.phoneme == ph
  {
    if ph == "" then BlankRow
    else
      match parseFloat(duration)
      case None => BadRow
      case Some(dur) =>
        match if IsPause(ph) then Some(0.0) else parseFloat(pitch)
        case None => BadRow
        case Some(p) => NoteRow(Note(ph, dur, p))
  }

  /** One row: its phoneme is stripped before anything else. */
  function ReadRow(row: TableRow, parseFloat: string -> Option<real>): RowRead {
    ReadFields(Strip(row.phoneme), row.duration, row.pitch, parseFloat)
  }

  /** The reading of every row, in table order. */
  function ReadRows(rows: seq<TableRow>, parseFloat: string -> Option<real>): (rs: seq<RowRead>)
    ensures |rs| == |rows|
  {
    seq(|rows|, k requires 0 <= k < |rows| => ReadRow(rows[k], parseFloat))
  }

  /** Gathers row readings: the notes in order, or `None` at the first bad row. */
  function CollectNotes(rs: seq<RowRead>): Option<seq<Note>> {
    if rs == [] then Some([])
    else
      match CollectNotes(rs[..|rs| - 1])
      case None => None
      case Some(notes) =>
        match rs[|rs| - 1]
        case BlankRow => Some(notes)
        case NoteRow(n) => Some(notes + [n])
        case BadRow => None
  }

  /** The notes of the rows in order, or `None` once a row is bad. */
  function ReadTable(rows: seq<TableRow>, parseFloat: string -> Option<real>): Option<seq<Note>> {
    CollectNotes(ReadRows(rows, parseFloat))
  }

  lemma ReadTableStep(rows: seq<TableRow>, parseFloat: string -> Option<real>, n: nat)
    requires n < |rows|
    ensures ReadTable(rows[..n + 1], parseFloat)
         == match ReadTable(rows[..n], parseFloat)
            case None => None
            case Some(notes) =>
              match ReadRow(rows[n], parseFloat)
              case BlankRow => Some(notes)
              case NoteRow(note) => Some(notes + [note])
              case BadRow => None
  {
    assert ReadRows(rows[..n + 1], parseFloat)[..n] == ReadRows(rows[..n], parseFloat);
  }

  /** `InferGUI.get_table_data` over the rows' texts; the error dialog is not modelled. */
  method GetTableData(rows: seq<TableRow>, parseFloat: string -> Option<real>) returns (data: Option<seq<Note>>)
    ensures data == ReadTable(rows, parseFloat)
  {
    var notes: seq<Note> := [];
    for n := 0 to |rows|
      invariant ReadTable(rows[..n], parseFloat) == Some(notes)
    {
      ReadTableStep(rows, parseFloat, n);
      var ph := Strip(rows[n].phoneme);
      if ph == "" {
        continue;
      }
      var dur := parseFloat(rows[n].duration);
      if dur.None? {
        ReadTableBadSticks(rows, n + 1, parseFloat);
        return None;
      }
      var pitch := if IsPause(ph) then Some(0.0) else parseFloat(rows[n].pitch);
      if pitch.None? {
        ReadTableBadSticks(rows, n + 1, parseFloat);
        return None;
      }
      notes := notes + [Note(ph, dur.value, pitch.value)];
    }
    assert rows[..|rows|] == rows;
    data := Some(notes);
  }

  lemma {:induction false} CollectNotesBadSticks(rs: seq<RowRead>, n: nat)
    requires n <= |rs| && CollectNotes(rs[..n]).None?
    ensures CollectNotes(rs).None?
    decreases |rs| - n
  {
    if n < |rs| {
      assert rs[..n + 1][..n] == rs[..n];
      CollectNotesBadSticks(rs, n + 1);
    } else {
      assert rs[..n] == rs;
    }
  }

  lemma ReadTableBadSticks(rows: seq<TableRow>, n: nat, parseFloat: string -> Option<real>)
    requires n <= |rows| && ReadTable(rows[..n], parseFloat).None?
    ensures ReadTable(rows, parseFloat).None?
  {
    assert ReadRows(rows, parseFloat)[..n] == ReadRows(rows[..n], parseFloat);
    CollectNotesBadSticks(ReadRows(rows, parseFloat), n);
  }

  lemma {:induction false} CollectNotesSucceeds(rs: seq<RowRead>)
    ensures CollectNotes(rs).Some? <==> forall k :: 0 <= k < |rs| ==> !rs[k].BadRow?
  {
    if rs != [] {
      var m := |rs| - 1;
      CollectNotesSucceeds(rs[..m]);
      assert forall k :: 0 <= k < m ==> rs[..m][k] == rs[k];
    }
  }

  /** The table reads as notes exactly when no row with a non-blank phoneme is bad. */
  lemma ReadTableSucceeds(rows: seq<TableRow>, parseFloat: string -> Option<real>)
    ensures ReadTable(rows, parseFloat).Some?
        <==> forall k :: 0 <= k < |rows| ==> !ReadRow(rows[k], parseFloat).BadRow?
  {
    var rs := ReadRows(rows, parseFloat);
    CollectNotesSucceeds(rs);
    assert forall k :: 0 <= k < |rows| ==> rs[k] == ReadRow(rows[k], parseFloat);
  }

  /** A note as the table hands it on: a stripped, non-empty phoneme, and pitch 0.0 for a pause. */
  predicate CleanNote(n: Note) {
    && n.phoneme != "" && Strip(n.phoneme) == n.phoneme
    && (IsPause(n.phoneme) ==> n.pitchHz == 0.0)
  }

  lemma ReadFieldsClean(ph: string, duration: string, pitch: string, parseFloat: string -> Option<real>)
    requires ReadFields(ph, duration, pitch, parseFloat).NoteRow?
    ensures var n := ReadFields(ph, duration, pitch, parseFloat).note;
      n.phoneme != "" && (IsPause(n.phoneme) ==> n.pitchHz == 0.0)
  {
  }

  lemma ReadRowClean(row: TableRow, parseFloat: string -> Option<real>)
    requires ReadRow(row, parseFloat).NoteRow?
    ensures CleanNote(ReadRow(row, parseFloat).note)
  {
    var ph := Strip(row.phoneme);
    StripIdempotent(row.phoneme);
    ReadFieldsClean(ph, row.duration, row.pitch, parseFloat);
  }

  lemma {:induction false} CollectNotesClean(rs: seq<RowRead>)
    requires CollectNotes(rs).Some?
    requires forall k :: 0 <= k < |rs| && rs[k].NoteRow? ==> CleanNote(rs[k].note)
    ensures forall n :: n in CollectNotes(rs).value ==> CleanNote(n)
  {
    if rs != [] {
      var m := |rs| - 1;
      assert forall k :: 0 <= k < m ==> rs[..m][k] == rs[k];
      CollectNotesClean(rs[..m]);
    }
  }

  /** Every note read is clean: blank rows were dropped, phonemes stripped, pauses given pitch 0.0. */
  lemma ReadTableNotes(rows: seq<TableRow>, parseFloat: string -> Option<real>)
    requires ReadTable(rows, parseFloat).Some?
    ensures forall n :: n in ReadTable(rows, parseFloat).value ==> CleanNote(n)
  {
    var rs := ReadRows(rows, parseFloat);
    forall k | 0 <= k < |rs| && rs[k].NoteRow?
      ensures CleanNote(rs[k].note)
    {
      ReadRowClean(rows[k], parseFloat);
    }
    CollectNotesClean(rs);
  }

  // ---------------------------------------------------------------------
  // generate_lab_from_table
  // ---------------------------------------------------------------------

  /** The unit the table's lab writer uses: microseconds, 1000 to the millisecond. */
  const MicrosPerMs: nat := 1000

  /** The unit the lab loader expects: 100 ns ticks, 10,000 to the millisecond. */
  const TicksPerMs: nat := 10_000

  /** `int(dur_ms * unitsPerMs)` */
  function Units(n: Note, unitsPerMs: nat): int {
    Trunc(n.durMs * unitsPerMs as real)
  }

  /** The writer's clock after `notes`: the sum of their truncated durations. */
  function Elapsed(notes: seq<Note>, unitsPerMs: nat): int {
    if notes == [] then 0 else Elapsed(notes[..|notes| - 1], unitsPerMs) + Units(notes[|notes| - 1], unitsPerMs)
  }

  /** Line `k`: where note `k` starts, where it ends, and its phoneme. */
  function LabLine(notes: seq<Note>, unitsPerMs: nat, k: nat): string
    requires k < |notes|
  {
    Line3(IntToString(Elapsed(notes[..k], unitsPerMs)), IntToString(Elapsed(notes[..k + 1], unitsPerMs)), notes[k].phoneme)
  }

  function LabLines(notes: seq<Note>, unitsPerMs: nat): (lines: seq<string>)
    ensures |lines| == |notes|
  {
    seq(|notes|, k requires 0 <= k < |notes| => LabLine(notes, unitsPerMs, k))
  }

  /** The writer's loop: one line per note, the clock moving on by each truncated duration. */
  method WriteLabLines(notes: seq<Note>, unitsPerMs: nat) returns (lines: seq<string>)
    ensures lines == LabLines(notes, unitsPerMs)
  {
    lines := [];
    var time := 0;
    for k := 0 to |notes|
      invariant |lines| == k && time == Elapsed(notes[..k], unitsPerMs)
      invariant forall j :: 0 <= j < k ==> lines[j] == LabLine(notes, unitsPerMs, j)
    {
      LabLinesChain(notes, unitsPerMs, k);
      var dur := Units(notes[k], unitsPerMs);
      var end := time + dur;
      assert end == Elapsed(notes[..k + 1], unitsPerMs);
      var line := IntToString(time) + " " + IntToString(end) + " " + notes[k].phoneme;
      assert line == Line3(IntToString(time), IntToString(end), notes[k].phoneme);
      ghost var before := lines;
      lines := lines + [line];
      assert forall j :: 0 <= j < k ==> lines[j] == before[j];
      time := end;
    }
  }

  /** `generate_lab_from_table`: the lines, in microseconds, joined by `"\n"` with no final newline. */
  method GenerateLabFromTable(notes: seq<Note>) returns (text: string)
    ensures text == JoinLines(LabLines(notes, MicrosPerMs))
  {
    var lines := WriteLabLines(notes, MicrosPerMs);
    text := JoinLines(lines);
  }

  /** The writer with the loader's unit: the same lines, in 100 ns ticks. */
  method GenerateLabInTicks(notes: seq<Note>) returns (text: string)
    ensures text == JoinLines(LabLines(notes, TicksPerMs))
  {
    var lines := WriteLabLines(notes, TicksPerMs);
    text := JoinLines(lines);
  }

  /** The notes start at 0 and each starts where the one before it ends. */
  lemma LabLinesChain(notes: seq<Note>, unitsPerMs: nat, k: nat)
    requires k < |notes|
    ensures Elapsed(notes[..0], unitsPerMs) == 0
    ensures Elapsed(notes[..k + 1], unitsPerMs) == Elapsed(notes[..k], unitsPerMs) + Units(notes[k], unitsPerMs)
  {
    assert notes[..k + 1][..k] == notes[..k];
  }

  // ---------------------------------------------------------------------
  // Reading a written lab back
  // ---------------------------------------------------------------------

  /** A phoneme a lab line can carry: one whitespace-free token. */
  predicate Writable(notes: seq<Note>) {
    forall k :: 0 <= k < |notes| ==> IsToken(notes[k].phoneme)
  }

  lemma TokensNoNewline(a: string, b: string, c: string)
    requires IsToken(a) && IsToken(b) && IsToken(c)
    ensures NoNewline(Line3(a, b, c))
  {
    assert IsSpace('\n');
    var l := Line3(a, b, c);
    forall i | 0 <= i < |l|
      ensures l[i] != '\n'
    {
      if i < |a| {
        assert l[i] == a[i];
      } else if i == |a| {
      } else if i < |a| + 1 + |b| {
        assert l[i] == b[i - |a| - 1];
      } else if i == |a| + 1 + |b| {
      } else {
        assert l[i] == c[i - |a| - |b| - 2];
      }
    }
  }

  lemma {:induction false} CollectAllSegments(ps: seq<LineParse>, segs: seq<Segment>)
    requires |ps| == |segs|
    requires forall k :: 0 <= k < |ps| ==> ps[k] == Seg(segs[k])
    ensures Collect(ps) == Ok(segs)
  {
    if ps != [] {
      var m := |ps| - 1;
      CollectAllSegments(ps[..m], segs[..m]);
      assert segs == segs[..m] + [segs[m]];
    }
  }

  /** The segment the loader makes of line `k`: the written units taken as 100 ns ticks. */
  function LoadedSegment(notes: seq<Note>, unitsPerMs: nat, k: nat): Segment
    requires k < |notes|
  {
    Segment(TicksToSeconds(Elapsed(notes[..k], unitsPerMs)), TicksToSeconds(Elapsed(notes[..k + 1], unitsPerMs)),
            notes[k].phoneme)
  }

  lemma LabLineParses(notes: seq<Note>, unitsPerMs: nat, k: nat, tail: string)
    requires Writable(notes) && k < |notes| && (tail == "" || tail == "\n")
    ensures ParseLine(LabLine(notes, unitsPerMs, k) + tail) == Seg(LoadedSegment(notes, unitsPerMs, k))
  {
    var s, e := Elapsed(notes[..k], unitsPerMs), Elapsed(notes[..k + 1], unitsPerMs);
    IntToStringRoundTrip(s);
    IntToStringRoundTrip(e);
    SplitLine3(IntToString(s), IntToString(e), notes[k].phoneme, tail);
  }

  /**
   * Loading a written lab gives one segment per note, in order, whose times
   * are the written numbers divided by 10,000,000, whatever unit they were
   * written in.
   */
  lemma LabReadsBack(notes: seq<Note>, unitsPerMs: nat)
    requires Writable(notes)
    ensures ParseLab(FileLines(JoinLines(LabLines(notes, unitsPerMs))))
         == Ok(seq(|notes|, k requires 0 <= k < |notes| => LoadedSegment(notes, unitsPerMs, k)))
  {
    var segs := seq(|notes|, k requires 0 <= k < |notes| => LoadedSegment(notes, unitsPerMs, k));
    var read := FileLines(JoinLines(LabLines(notes, unitsPerMs)));
    LabLinesParse(notes, unitsPerMs);
    var ps := ParseLines(read);
    forall k | 0 <= k < |ps|
      ensures ps[k] == Seg(segs[k])
    {
      assert ps[k] == ParseLine(read[k]);
    }
    CollectAllSegments(ps, segs);
  }

  /** No written lab line holds a `'\n'` of its own. */
  lemma LabLinesNoNewline(notes: seq<Note>, unitsPerMs: nat)
    requires Writable(notes)
    ensures forall k :: 0 <= k < |notes| ==> NoNewline(LabLines(notes, unitsPerMs)[k])
  {
    forall k | 0 <= k < |notes|
      ensures NoNewline(LabLines(notes, unitsPerMs)[k])
    {
      IntToStringRoundTrip(Elapsed(notes[..k], unitsPerMs));
      IntToStringRoundTrip(Elapsed(notes[..k + 1], unitsPerMs));
      TokensNoNewline(IntToString(Elapsed(notes[..k], unitsPerMs)),
                      IntToString(Elapsed(notes[..k + 1], unitsPerMs)), notes[k].phoneme);
    }
  }

  /** Reading the written file back gives one line per note, each parsing to its segment. */
  lemma LabLinesParse(notes: seq<Note>, unitsPerMs: nat)
    requires Writable(notes)
    ensures |FileLines(JoinLines(LabLines(notes, unitsPerMs)))| == |notes|
    ensures forall k :: 0 <= k < |notes| ==>
      ParseLine(FileLines(JoinLines(LabLines(notes, unitsPerMs)))[k]) == Seg(LoadedSegment(notes, unitsPerMs, k))
  {
    LabFileLines(notes, unitsPerMs);
    var read := FileLines(JoinLines(LabLines(notes, unitsPerMs)));
    forall k | 0 <= k < |notes|
      ensures ParseLine(read[k]) == Seg(LoadedSegment(notes, unitsPerMs, k))
    {
      if k < |notes| - 1 {
        ReadLineParses(notes, unitsPerMs, k, read[k], "\n");
      } else {
        ReadLineParses(notes, unitsPerMs, k, read[k], "");
      }
    }
  }

  /** The file's lines are the written lines, each but the last with its `'\n'`. */
  lemma LabFileLines(notes: seq<Note>, unitsPerMs: nat)
    requires Writable(notes)
    ensures |FileLines(JoinLines(LabLines(notes, unitsPerMs)))| == |notes|
    ensures forall k :: 0 <= k < |notes| - 1 ==>
      FileLines(JoinLines(LabLines(notes, unitsPerMs)))[k] == LabLine(notes, unitsPerMs, k) + "\n"
    ensures |notes| > 0 ==>
      FileLines(JoinLines(LabLines(notes, unitsPerMs)))[|notes| - 1] == LabLine(notes, unitsPerMs, |notes| - 1)
  {
    var lines := LabLines(notes, unitsPerMs);
    if notes == [] {
      assert JoinLines(lines) == [];
    } else {
      LabLinesNoNewline(notes, unitsPerMs);
      assert lines[|notes| - 1] != "";
      FileLinesOfJoinFull(lines);
    }
  }

  lemma ReadLineParses(notes: seq<Note>, unitsPerMs: nat, k: nat, read: string, tail: string)
    requires Writable(notes) && k < |notes| && (tail == "" || tail == "\n")
    requires read == LabLine(notes, unitsPerMs, k) + tail
    ensures ParseLine(read) == Seg(LoadedSegment(notes, unitsPerMs, k))
  {
    LabLineParses(notes, unitsPerMs, k, tail);
  }

  /** Durations of whole, non-negative milliseconds, like the table's default `500`. */
  predicate WholeMs(notes: seq<Note>) {
    forall k :: 0 <= k < |notes| ==> notes[k].durMs >= 0.0 && notes[k].durMs == notes[k].durMs.Floor as real
  }

  /** The sum of the durations before a note: its intended start in ms. */
  function SumMs(notes: seq<Note>): real {
    if notes == [] then 0.0 else SumMs(notes[..|notes| - 1]) + notes[|notes| - 1].durMs
  }

  lemma {:induction false} ElapsedWholeMs(notes: seq<Note>, unitsPerMs: nat)
    requires WholeMs(notes)
    ensures Elapsed(notes, unitsPerMs) as real == SumMs(notes) * unitsPerMs as real
  {
    if notes != [] {
      var m := |notes| - 1;
      assert WholeMs(notes[..m]);
      ElapsedWholeMs(notes[..m], unitsPerMs);
      WholeUnits(notes[m], unitsPerMs);
      Distribute(SumMs(notes[..m]), notes[m].durMs, unitsPerMs as real);
    }
  }

  /** A whole, non-negative duration converts to units without truncation. */
  lemma WholeUnits(n: Note, unitsPerMs: nat)
    requires n.durMs >= 0.0 && n.durMs == n.durMs.Floor as real
    ensures Units(n, unitsPerMs) as real == n.durMs * unitsPerMs as real
  {
    var f := n.durMs.Floor;
    var k := f * unitsPerMs;
    CastProduct(f, unitsPerMs);
    assert n.durMs * unitsPerMs as real == k as real;
    assert k >= 0 && Trunc(k as real) == k;
    assert Units(n, unitsPerMs) == Trunc(n.durMs * unitsPerMs as real);
  }

  lemma CastProduct(a: int, b: int)
    ensures (a * b) as real == a as real * b as real
  {
  }

  lemma Distribute(a: real, b: real, x: real)
    ensures (a + b) * x == a * x + b * x
  {
  }

  /**
   * As written, the table's lab writer and the lab loader disagree on the
   * unit: every time read back is one tenth of the note's intended start
   * or end (`SumMs / 1000` seconds).
   */
  lemma LabRoundTripShrinks(notes: seq<Note>, k: nat)
    requires Writable(notes) && WholeMs(notes) && k < |notes|
    ensures var s := LoadedSegment(notes, MicrosPerMs, k);
      && s.start == SumMs(notes[..k]) / 10_000.0
      && s.end == SumMs(notes[..k + 1]) / 10_000.0
  {
    assert WholeMs(notes[..k]) && WholeMs(notes[..k + 1]);
    ElapsedWholeMs(notes[..k], MicrosPerMs);
    ElapsedWholeMs(notes[..k + 1], MicrosPerMs);
  }

  lemma HalfSecondNoteSegment(notes: seq<Note>)
    requires |notes| == 1 && notes[0].durMs == 500.0 && IsToken(notes[0].phoneme)
    ensures LoadedSegment(notes, MicrosPerMs, 0) == Segment(0.0, 0.05, notes[0].phoneme)
  {
    var d := notes[0].durMs;
    assert d.Floor == 500;
    assert WholeMs(notes);
    LabRoundTripShrinks(notes, 0);
    assert notes[..0] == [] && notes[..1] == notes;
    assert SumMs(notes) == SumMs(notes[..0]) + 500.0;
  }

  /** A score of one 500 ms note, written by the table and loaded back, ends at 0.05 s, not 0.5 s. */
  lemma HalfSecondNoteReadsAsFiftyMs(notes: seq<Note>)
    requires |notes| == 1 && notes[0].durMs == 500.0 && IsToken(notes[0].phoneme)
    ensures ParseLab(FileLines(JoinLines(LabLines(notes, MicrosPerMs))))
         == Ok([Segment(0.0, 0.05, notes[0].phoneme)])
  {
    assert Writable(notes);
    LabReadsBack(notes, MicrosPerMs);
    HalfSecondNoteSegment(notes);
    var segs := seq(|notes|, k requires 0 <= k < |notes| => LoadedSegment(notes, MicrosPerMs, k));
    assert |segs| == 1 && segs[0] == LoadedSegment(notes, MicrosPerMs, 0);
    assert segs == [segs[0]];
  }

  /** With ticks written, every time read back is the note's intended start or end in seconds. */
  lemma LabRoundTripCorrected(notes: seq<Note>, k: nat)
    requires Writable(notes) && WholeMs(notes) && k < |notes|
    ensures var s := LoadedSegment(notes, TicksPerMs, k);
      && s.start == SumMs(notes[..k]) / 1000.0
      && s.end == SumMs(notes[..k + 1]) / 1000.0
  {
    assert WholeMs(notes[..k]) && WholeMs(notes[..k + 1]);
    ElapsedWholeMs(notes[..k], TicksPerMs);
    ElapsedWholeMs(notes[..k + 1], TicksPerMs);
  }

  // ---------------------------------------------------------------------
  // synthesize_from_table
  // ---------------------------------------------------------------------

  /** The table renderer's buffers always have `FFT_SIZE // 2 + 1` bins. */
  const TableBins: nat := FftSize / 2 + 1

  /** Its `SILENCE_SP`: ones in every bin. */
  function TableSilenceSp(): Row {
    Fill(TableBins, 1.0)
  }

  /** Its `SILENCE_AP`: zeros in every bin. */
  function TableSilenceAp(): Row {
    Fill(TableBins, 0.0)
  }

  /** The labels this renderer treats as silence: the pauses and the blank label. */
  predicate IsTableSilence(ph: string) {
    IsPause(ph) || ph == ""
  }

  /** A label the model holds a bare vector for: looking up its `"sp_mean"` raises. */
  predicate TableFaults(db: map<string, DbValue>, ph: string) {
    !IsTableSilence(ph) && ph in db && db[ph].Vector?
  }

  /** A label neither silent nor in the model: rendered as silence, with a warning. */
  predicate TableUnknown(db: map<string, DbValue>, ph: string) {
    !IsTableSilence(ph) && ph !in db
  }

  /** Every phoneme entry's means fit the 513-bin buffers. */
  predicate FitsTable(db: map<string, DbValue>) {
    forall ph :: ph in db && db[ph].Means? ==> |db[ph].spMean| == TableBins && |db[ph].apMean| == TableBins
  }

  predicate NonNegativeDurations(notes: seq<Note>) {
    forall k :: 0 <= k < |notes| ==> notes[k].durMs >= 0.0
  }

  /** What the loop writes into each frame of note `n`. For a note that faults nothing is written. */
  function TableVoice(db: map<string, DbValue>, n: Note): Paint {
    if !IsTableSilence(n.phoneme) && n.phoneme in db && db[n.phoneme].Means? then
      Paint(n.pitchHz, db[n.phoneme].spMean, db[n.phoneme].apMean)
    else Paint(n.pitchHz, TableSilenceSp(), TableSilenceAp())
  }

  function TableVoices(notes: seq<Note>, db: map<string, DbValue>): (ps: seq<Paint>)
    ensures |ps| == |notes|
  {
    seq(|notes|, k requires 0 <= k < |notes| => TableVoice(db, notes[k]))
  }

  /** Note `k` asks for the frames from the cursor before it to the cursor after it. */
  function NoteSpan(notes: seq<Note>, k: nat): Span
    requires k < |notes|
  {
    Span(TimeToFrame(SumMs(notes[..k]) / 1000.0), TimeToFrame(SumMs(notes[..k + 1]) / 1000.0))
  }

  function NoteSpans(notes: seq<Note>): (spans: seq<Span>)
    ensures |spans| == |notes|
  {
    seq(|notes|, k requires 0 <= k < |notes| => NoteSpan(notes, k))
  }

  /** `total_frames`: the frame the whole score ends in, plus ten. */
  function TableTotal(notes: seq<Note>): int {
    TimeToFrame(SumMs(notes) / 1000.0) + 10
  }

  /**
   * `spans` are the spans of the first `n` notes, stated one note at a
   * time from the last, so that a proof sees only the notes it asks about.
   */
  predicate SpansOf(notes: seq<Note>, spans: seq<Span>, n: nat)
    requires n <= |notes| == |spans|
  {
    n == 0 || (SpansOf(notes, spans, n - 1) && spans[n - 1] == NoteSpan(notes, n - 1))
  }

  lemma {:induction false} SpansOfAt(notes: seq<Note>, spans: seq<Span>, n: nat, k: nat)
    requires n <= |notes| == |spans| && SpansOf(notes, spans, n) && k < n
    ensures spans[k] == NoteSpan(notes, k)
  {
    if k < n - 1 {
      SpansOfAt(notes, spans, n - 1, k);
    }
  }

  lemma {:induction false} NoteSpansOf(notes: seq<Note>, n: nat)
    requires n <= |notes|
    ensures SpansOf(notes, NoteSpans(notes), n)
  {
    if n > 0 {
      NoteSpansOf(notes, n - 1);
    }
  }

  /** The loop writes nothing for a note whose first frame is not below `total_frames`. */
  predicate Played(span: Span, total: int) {
    span.first < total
  }

  /** The labels warned about among the first `n` notes, in order. */
  function TableWarned(notes: seq<Note>, spans: seq<Span>, db: map<string, DbValue>, total: int, n: nat): seq<string>
    requires n <= |notes| == |spans|
  {
    if n == 0 then []
    else
      TableWarned(notes, spans, db, total, n - 1)
        + (if Played(spans[n - 1], total) && TableUnknown(db, notes[n - 1].phoneme)
           then [notes[n - 1].phoneme] else [])
  }

  /** The F0/SP/AP buffers after the loop, one `Paint` per frame. */
  function TableRendered(notes: seq<Note>, db: map<string, DbValue>, total: nat): (frames: seq<Paint>)
    ensures |frames| == total
  {
    seq(total, i => PaintAt(NoteSpans(notes), TableVoices(notes, db), total, TableBins, i))
  }

  /** Note `k` is the first note the loop plays whose label faults. */
  predicate FirstTableFault(notes: seq<Note>, spans: seq<Span>, db: map<string, DbValue>, total: int, k: int)
    requires |notes| == |spans|
  {
    && 0 <= k < |notes| && Played(spans[k], total) && TableFaults(db, notes[k].phoneme)
    && forall j :: 0 <= j < k ==> !(Played(spans[j], total) && TableFaults(db, notes[j].phoneme))
  }

  /**
   * The body of the loop for a note that is not skipped: F0 gets the note's
   * pitch over `[first, stop)`, then SP and AP get the silence constants
   * (silent and unknown labels) or the label's means, unless the label faults.
   */
  method RenderNote(f0: array<real>, sp: array<Row>, ap: array<Row>, first: int, stop: int,
                    note: Note, db: map<string, DbValue>)
    returns (fault: bool, warn: bool)
    requires f0.Length == sp.Length == ap.Length && sp != ap
    requires 0 <= first && stop <= f0.Length
    modifies f0, sp, ap
    ensures fault <==> TableFaults(db, note.phoneme)
    ensures warn <==> TableUnknown(db, note.phoneme)
    ensures !fault ==> forall i :: 0 <= i < f0.Length ==>
      Paint(f0[i], sp[i], ap[i]) == if first <= i < stop then TableVoice(db, note) else old(Paint(f0[i], sp[i], ap[i]))
  {
    FillSlice(f0, first, stop, note.pitchHz);
    var ph := note.phoneme;
    warn := false;
    if ph == "SP" || ph == "AP" || ph == "" {
      FillSlice(sp, first, stop, TableSilenceSp());
      FillSlice(ap, first, stop, TableSilenceAp());
    } else if ph in db {
      if db[ph].Vector? {
        return true, false;
      }
      FillSlice(sp, first, stop, db[ph].spMean);
      FillSlice(ap, first, stop, db[ph].apMean);
    } else {
      warn := true;
      FillSlice(sp, first, stop, TableSilenceSp());
      FillSlice(ap, first, stop, TableSilenceAp());
    }
    fault := false;
  }

  lemma SumMsStep(notes: seq<Note>, k: nat)
    requires k < |notes|
    ensures SumMs(notes[..k + 1]) == SumMs(notes[..k]) + notes[k].durMs
  {
    assert notes[..k + 1][..k] == notes[..k];
  }

  /** How frame `i` changes when the loop moves past note `n`. */
  lemma TableStep(spans: seq<Span>, voices: seq<Paint>, total: nat, n: nat)
    requires n < |spans| == |voices|
    ensures forall i :: (PaintAt(spans[..n + 1], voices[..n + 1], total, TableBins, i)
      == if Covers(spans[n], total, i) then voices[n] else PaintAt(spans[..n], voices[..n], total, TableBins, i))
  {
    assert spans[..n + 1] == spans[..n] + [spans[n]];
    assert voices[..n + 1] == voices[..n] + [voices[n]];
    forall i
      ensures PaintAt(spans[..n + 1], voices[..n + 1], total, TableBins, i)
           == if Covers(spans[n], total, i) then voices[n] else PaintAt(spans[..n], voices[..n], total, TableBins, i)
    {
      PaintAtSnoc(spans[..n], voices[..n], spans[n], voices[n], total, TableBins, i);
    }
  }

  /**
   * One pass of the loop of `synthesize_from_table` with the cursor at
   * `timeMs`: the note is written over `[start_frame, min(end_frame,
   * total_frames))` unless its first frame is not below `total_frames`.
   */
  method PlayNote(f0: array<real>, sp: array<Row>, ap: array<Row>, notes: seq<Note>, k: nat, timeMs: real,
                  db: map<string, DbValue>, ghost span: Span)
    returns (fault: bool, warn: bool)
    requires f0.Length == sp.Length == ap.Length && sp != ap
    requires k < |notes| && timeMs == SumMs(notes[..k]) && timeMs >= 0.0
    requires notes[k].durMs == SumMs(notes[..k + 1]) - timeMs
    requires span == NoteSpan(notes, k)
    modifies f0, sp, ap
    ensures fault <==> Played(span, f0.Length) && TableFaults(db, notes[k].phoneme)
    ensures warn <==> Played(span, f0.Length) && TableUnknown(db, notes[k].phoneme)
    ensures !fault ==> forall i :: 0 <= i < f0.Length ==>
      Paint(f0[i], sp[i], ap[i])
        == if Covers(span, f0.Length, i) then TableVoice(db, notes[k]) else old(Paint(f0[i], sp[i], ap[i]))
  {
    var total := f0.Length;
    var note := notes[k];
    var startFrame := TimeToFrame(timeMs / 1000.0);
    var endFrame := TimeToFrame((timeMs + note.durMs) / 1000.0);
    endFrame := Min(endFrame, total);
    if startFrame < total {
      TimeToFrameIsFloor(timeMs / 1000.0);
      fault, warn := RenderNote(f0, sp, ap, startFrame, endFrame, note, db);
    } else {
      fault, warn := false, false;
    }
  }

  /**
   * The loop of `synthesize_from_table` over zeroed buffers of `total`
   * rows: a cursor that moves on by every note's duration, whether or not
   * the note was played. It stops at the first note that faults.
   */
  method PlayNotes(f0: array<real>, sp: array<Row>, ap: array<Row>, notes: seq<Note>, db: map<string, DbValue>,
                   ghost spans: seq<Span>)
    returns (faultAt: Option<nat>, warnings: seq<string>)
    requires f0.Length == sp.Length == ap.Length && sp != ap
    requires NonNegativeDurations(notes)
    requires |spans| == |notes| && SpansOf(notes, spans, |notes|)
    requires forall i :: 0 <= i < f0.Length ==> Paint(f0[i], sp[i], ap[i]) == Blank(TableBins)
    modifies f0, sp, ap
    ensures faultAt.Some? ==> FirstTableFault(notes, spans, db, f0.Length, faultAt.value)
    ensures faultAt.None? ==> forall k :: 0 <= k < |notes| ==> !(Played(spans[k], f0.Length) && TableFaults(db, notes[k].phoneme))
    ensures faultAt.None? ==> forall i :: 0 <= i < f0.Length ==>
      Paint(f0[i], sp[i], ap[i]) == PaintAt(spans, TableVoices(notes, db), f0.Length, TableBins, i)
    ensures faultAt.None? ==> warnings == TableWarned(notes, spans, db, f0.Length, |notes|)
  {
    var total := f0.Length;
    ghost var voices := TableVoices(notes, db);
    warnings := [];
    var timeMs := 0.0;
    for k := 0 to |notes|
      invariant timeMs == SumMs(notes[..k]) && timeMs >= 0.0
      invariant forall i :: 0 <= i < total ==>
        Paint(f0[i], sp[i], ap[i]) == PaintAt(spans[..k], voices[..k], total, TableBins, i)
      invariant forall j :: 0 <= j < k ==> !(Played(spans[j], total) && TableFaults(db, notes[j].phoneme))
      invariant warnings == TableWarned(notes, spans, db, total, k)
    {
      TableStep(spans, voices, total, k);
      SumMsStep(notes, k);
      SpansOfAt(notes, spans, |notes|, k);
      var note := notes[k];
      var fault, warn := PlayNote(f0, sp, ap, notes, k, timeMs, db, spans[k]);
      if fault {
        return Some(k), warnings;
      }
      if warn {
        warnings := warnings + [note.phoneme];
      }
      timeMs := timeMs + note.durMs;
    }
    assert spans[..|notes|] == spans && voices[..|notes|] == voices;
    faultAt := None;
  }

  /**
   * The frame-filling part of `synthesize_from_table`: `total_frames` from
   * the sum of the durations, zeroed buffers of that many rows, then the loop.
   */
  method SynthesizeFromTable(notes: seq<Note>, db: map<string, DbValue>) returns (r: Result<Rendering, RenderError>)
    requires NonNegativeDurations(notes) && FitsTable(db)
    ensures r.Err? <==> exists k :: FirstTableFault(notes, NoteSpans(notes), db, TableTotal(notes), k)
    ensures r.Err? ==> exists k :: FirstTableFault(notes, NoteSpans(notes), db, TableTotal(notes), k)
                                   && r.error == NotAPhonemeEntry(notes[k].phoneme)
    ensures r.Ok? ==> |r.value.frames| == TableTotal(notes) && r.value.frames == TableRendered(notes, db, TableTotal(notes))
    ensures r.Ok? ==> r.value.warnings == TableWarned(notes, NoteSpans(notes), db, TableTotal(notes), |notes|)
  {
    var total := TableFrameCount(notes);
    var f0 := new real[total](_ => 0.0);
    var sp := new Row[total](_ => Zeros(TableBins));
    var ap := new Row[total](_ => Zeros(TableBins));
    NoteSpansOf(notes, |notes|);
    var faultAt, warnings := PlayNotes(f0, sp, ap, notes, db, NoteSpans(notes));
    if faultAt.Some? {
      return Err(NotAPhonemeEntry(notes[faultAt.value].phoneme));
    }
    NoFirstTableFault(notes, NoteSpans(notes), db, total);
    var frames := seq(total, i requires 0 <= i < total reads f0, sp, ap => Paint(f0[i], sp[i], ap[i]));
    assert frames == TableRendered(notes, db, total);
    r := Ok(Rendering(frames, warnings));
  }

  lemma NoFirstTableFault(notes: seq<Note>, spans: seq<Span>, db: map<string, DbValue>, total: int)
    requires |notes| == |spans|
    requires forall k :: 0 <= k < |notes| ==> !(Played(spans[k], total) && TableFaults(db, notes[k].phoneme))
    ensures !exists k :: FirstTableFault(notes, spans, db, total, k)
  {
  }

  /** `total_frames` as the table renderer computes it: from the sum of the note durations. */
  method TableFrameCount(notes: seq<Note>) returns (total: nat)
    requires NonNegativeDurations(notes)
    ensures total == TableTotal(notes) && total >= 10
  {
    SumMsNonNegative(notes);
    var totalMs := SumMs(notes);
    var totalSec := totalMs / 1000.0;
    TimeToFrameIsFloor(totalSec);
    total := Trunc(totalSec * 1000.0 / FramePeriodMs) + 10;
  }

  lemma {:induction false} SumMsNonNegative(notes: seq<Note>)
    requires NonNegativeDurations(notes)
    ensures SumMs(notes) >= 0.0
  {
    if notes != [] {
      var m := |notes| - 1;
      assert NonNegativeDurations(notes[..m]);
      SumMsNonNegative(notes[..m]);
    }
  }

  lemma {:induction false} SumMsMonotone(notes: seq<Note>, j: nat, k: nat)
    requires NonNegativeDurations(notes) && j <= k <= |notes|
    ensures SumMs(notes[..j]) <= SumMs(notes[..k])
    decreases k - j
  {
    if j < k {
      SumMsStep(notes, j);
      SumMsMonotone(notes, j + 1, k);
    }
  }

  /**
   * Every note asks for frames inside the score: from frame 0 up to the
   * frame the last note ends in, ten frames short of `total_frames`.
   */
  lemma NoteSpanBounds(notes: seq<Note>, k: nat)
    requires NonNegativeDurations(notes) && k < |notes|
    ensures 0 <= NoteSpan(notes, k).first <= NoteSpan(notes, k).stop <= TableTotal(notes) - 10
  {
    assert NonNegativeDurations(notes[..k]);
    SumMsNonNegative(notes[..k]);
    SumMsMonotone(notes, k, k + 1);
    SumMsMonotone(notes, k + 1, |notes|);
    assert notes[..|notes|] == notes;
    TimeToFrameIsFloor(SumMs(notes[..k]) / 1000.0);
    TimeToFrameMonotone(SumMs(notes[..k]) / 1000.0, SumMs(notes[..k + 1]) / 1000.0);
    TimeToFrameMonotone(SumMs(notes[..k + 1]) / 1000.0, SumMs(notes) / 1000.0);
  }

  /** The cursor only moves forward: the notes' spans lie end to end from frame 0. */
  lemma NoteSpansTiled(notes: seq<Note>)
    requires NonNegativeDurations(notes)
    ensures Tiled(NoteSpans(notes))
    ensures notes != [] ==> NoteSpans(notes)[0].first == 0
    ensures notes != [] ==> NoteSpans(notes)[|notes| - 1].stop == TableTotal(notes) - 10
  {
    var spans := NoteSpans(notes);
    forall k | 0 <= k < |spans|
      ensures spans[k].first <= spans[k].stop
    {
      NoteSpanBounds(notes, k);
    }
    if notes != [] {
      assert notes[..0] == [] && notes[..|notes|] == notes;
    }
  }

  /** No note is skipped: with non-negative durations every note starts before `total_frames`. */
  lemma AllNotesPlayed(notes: seq<Note>)
    requires NonNegativeDurations(notes)
    ensures forall k :: 0 <= k < |notes| ==> Played(NoteSpans(notes)[k], TableTotal(notes))
  {
    forall k | 0 <= k < |notes|
      ensures Played(NoteSpans(notes)[k], TableTotal(notes))
    {
      NoteSpanBounds(notes, k);
    }
  }

  lemma {:induction false} FirstFaultFrom(notes: seq<Note>, spans: seq<Span>, db: map<string, DbValue>, total: int, k: nat)
    requires |spans| == |notes| && k < |notes|
    requires forall j :: 0 <= j < |notes| ==> Played(spans[j], total)
    requires TableFaults(db, notes[k].phoneme)
    ensures exists m :: FirstTableFault(notes, spans, db, total, m)
  {
    if exists j :: 0 <= j < k && TableFaults(db, notes[j].phoneme) {
      var j :| 0 <= j < k && TableFaults(db, notes[j].phoneme);
      FirstFaultFrom(notes, spans, db, total, j);
    } else {
      assert FirstTableFault(notes, spans, db, total, k);
    }
  }

  /**
   * The table renderer fails exactly when some note's label holds a bare
   * vector in the model, and then it names the first such note.
   */
  lemma TableFaultIff(notes: seq<Note>, db: map<string, DbValue>)
    requires NonNegativeDurations(notes)
    ensures (exists k :: FirstTableFault(notes, NoteSpans(notes), db, TableTotal(notes), k))
        <==> exists k :: 0 <= k < |notes| && TableFaults(db, notes[k].phoneme)
    ensures forall k :: FirstTableFault(notes, NoteSpans(notes), db, TableTotal(notes), k) ==>
      forall j :: 0 <= j < k ==> !TableFaults(db, notes[j].phoneme)
  {
    AllNotesPlayed(notes);
    if k :| 0 <= k < |notes| && TableFaults(db, notes[k].phoneme) {
      FirstFaultFrom(notes, NoteSpans(notes), db, TableTotal(notes), k);
    }
  }

  lemma {:induction false} TableWarnedMembers(notes: seq<Note>, spans: seq<Span>, db: map<string, DbValue>,
                                              total: int, n: nat, ph: string)
    requires n <= |notes| == |spans|
    requires forall j :: 0 <= j < |notes| ==> Played(spans[j], total)
    ensures ph in TableWarned(notes, spans, db, total, n)
        <==> exists k :: 0 <= k < n && notes[k].phoneme == ph && TableUnknown(db, ph)
  {
    if n > 0 {
      TableWarnedMembers(notes, spans, db, total, n - 1, ph);
    }
  }

  /** The warnings name exactly the labels of the notes that are neither silent nor in the model. */
  lemma TableWarnings(notes: seq<Note>, db: map<string, DbValue>, ph: string)
    requires NonNegativeDurations(notes)
    ensures ph in TableWarned(notes, NoteSpans(notes), db, TableTotal(notes), |notes|)
        <==> exists k :: 0 <= k < |notes| && notes[k].phoneme == ph && TableUnknown(db, ph)
  {
    AllNotesPlayed(notes);
    TableWarnedMembers(notes, NoteSpans(notes), db, TableTotal(notes), |notes|, ph);
  }

  /** A frame inside note `k`'s span carries that note's pitch and spectra, and no other note's. */
  lemma TableFrameOfNote(notes: seq<Note>, db: map<string, DbValue>, i: int, k: nat)
    requires NonNegativeDurations(notes) && k < |notes|
    requires Covers(NoteSpan(notes, k), TableTotal(notes), i)
    ensures 0 <= i < TableTotal(notes)
    ensures TableRendered(notes, db, TableTotal(notes))[i] == TableVoice(db, notes[k])
  {
    NoteSpanBounds(notes, k);
    NoteSpansTiled(notes);
    TiledCover(NoteSpans(notes), TableTotal(notes), i, k);
  }

  /**
   * Every frame up to the end of the last note is written by one note;
   * the ten frames after it keep the zeros of `np.zeros`.
   */
  lemma TableFramesCovered(notes: seq<Note>, db: map<string, DbValue>, i: int)
    requires NonNegativeDurations(notes) && 0 <= i < TableTotal(notes)
    ensures i < TableTotal(notes) - 10 ==> exists k :: 0 <= k < |notes| && Covers(NoteSpan(notes, k), TableTotal(notes), i)
                                                   && TableRendered(notes, db, TableTotal(notes))[i] == TableVoice(db, notes[k])
    ensures i >= TableTotal(notes) - 10 ==> TableRendered(notes, db, TableTotal(notes))[i] == Blank(TableBins)
  {
    var total := TableTotal(notes);
    var spans := NoteSpans(notes);
    if i < total - 10 {
      assert notes != [] by {
        if notes == [] {
          TimeToFrameIsFloor(0.0);
        }
      }
      NoteSpansTiled(notes);
      TiledCovered(spans, total, i);
      var k :| 0 <= k < |spans| && Covers(spans[k], total, i);
      TableFrameOfNote(notes, db, i, k);
    } else {
      forall k | 0 <= k < |notes|
        ensures !Covers(spans[k], total, i)
      {
        NoteSpanBounds(notes, k);
      }
    }
  }

  /** Every rendered frame has `FFT_SIZE // 2 + 1` bins of SP and of AP. */
  lemma TableWidths(notes: seq<Note>, db: map<string, DbValue>)
    requires FitsTable(db)
    ensures forall i :: 0 <= i < TableTotal(notes) ==>
      |TableRendered(notes, db, TableTotal(notes))[i].sp| == TableBins
      && |TableRendered(notes, db, TableTotal(notes))[i].ap| == TableBins
  {
    var total := TableTotal(notes);
    forall i | 0 <= i < total
      ensures |TableRendered(notes, db, total)[i].sp| == TableBins && |TableRendered(notes, db, total)[i].ap| == TableBins
    {
      match LastCover(NoteSpans(notes), total, i)
      case None =>
      case Some(k) =>
        assert TableVoices(notes, db)[k] == TableVoice(db, notes[k]);
    }
  }

  /**
   * What a frame of note `k` holds: the note's pitch; all-ones SP and zero
   * AP for a silent or unknown label; the label's means for a model phoneme.
   */
  lemma TableFrameCases(notes: seq<Note>, db: map<string, DbValue>, i: int, k: nat)
    requires NonNegativeDurations(notes) && k < |notes|
    requires Covers(NoteSpan(notes, k), TableTotal(notes), i)
    ensures 0 <= i < TableTotal(notes)
    ensures var frame := TableRendered(notes, db, TableTotal(notes))[i];
      var ph := notes[k].phoneme;
      && frame.f0 == notes[k].pitchHz
      && (IsTableSilence(ph) || TableUnknown(db, ph) ==>
            frame.sp == Fill(TableBins, 1.0) && frame.ap == Fill(TableBins, 0.0))
      && (!IsTableSilence(ph) && ph in db && db[ph].Means? ==>
            frame.sp == db[ph].spMean && frame.ap == db[ph].apMean)
  {
    TableFrameOfNote(notes, db, i, k);
  }
}

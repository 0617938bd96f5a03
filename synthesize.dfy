/**
 * The label renderer of src/synthesize.py: it picks the silence vectors out
 * of the acoustic model, then turns a label list into per-frame F0, SP and
 * AP buffers, which the WORLD vocoder (not part of this model) turns into
 * audio.
 */
module Synthesize {
  import opened Wrappers
  import opened Frames
  import opened SvsUtils
  import opened BuildDb

  /** WORLD's FFT size; the fallback silence vectors have `FftSize / 2 + 1` bins. */
  const FftSize: nat := 1024

  /** The reserved keys, when present, hold a bare SP vector and a bare AP vector of one width. */
  predicate SilenceKeysUsable(db: map<string, DbValue>) {
    SilenceSpKey in db ==>
      && SilenceApKey in db && db[SilenceSpKey].Vector? && db[SilenceApKey].Vector?
      && |db[SilenceApKey].v| == |db[SilenceSpKey].v|
  }

  /**
   * `SILENCE_SP` and `SILENCE_AP`: the vectors under the reserved keys, or,
   * for a model without them, 0.001 and 0.0 in each of `FftSize / 2 + 1` bins.
   */
  function SilenceVectors(db: map<string, DbValue>): (Row, Row)
    requires SilenceKeysUsable(db)
  {
    if SilenceSpKey in db then (db[SilenceSpKey].v, db[SilenceApKey].v)
    else (Fill(FftSize / 2 + 1, FallbackLevel), Fill(FftSize / 2 + 1, 0.0))
  }

  /** The bin count of the SP and AP buffers: `len(SILENCE_SP)`. */
  function Width(db: map<string, DbValue>): nat
    requires SilenceKeysUsable(db)
  {
    |SilenceVectors(db).0|
  }

  /**
   * A model whose vectors fit the buffers: the silence keys are usable and
   * every phoneme entry's means have `Width(db)` bins, as numpy's row
   * assignment needs.
   */
  predicate Usable(db: map<string, DbValue>) {
    && SilenceKeysUsable(db)
    && forall ph :: ph in db && db[ph].Means? ==>
         |db[ph].spMean| == Width(db) && |db[ph].apMean| == Width(db)
  }

  /** `SILENCE_PHONEMES` */
  predicate IsSilencePhoneme(ph: string) {
    ph in {"SP", "AP", "sil", "pau", "br", "#", ""}
  }

  /**
   * A label the model holds a bare vector for (a reserved key used as a
   * label): looking up its `"sp_mean"` raises, which aborts the rendering.
   */
  predicate Faults(db: map<string, DbValue>, ph: string) {
    !IsSilencePhoneme(ph) && ph in db && db[ph].Vector?
  }

  /** A label neither silent nor in the model: rendered as silence, with a warning. */
  predicate Unknown(db: map<string, DbValue>, ph: string) {
    !IsSilencePhoneme(ph) && ph !in db
  }

  /**
   * What the loop writes into each frame of a segment labelled `ph`. For a
   * label that `Faults` no frame is ever written, so its value is immaterial.
   */
  function Voice(db: map<string, DbValue>, ph: string, pitch: real): Paint
    requires SilenceKeysUsable(db)
  {
    var (silenceSp, silenceAp) := SilenceVectors(db);
    if !IsSilencePhoneme(ph) && ph in db && db[ph].Means? then Paint(pitch, db[ph].spMean, db[ph].apMean)
    else Paint(pitch, silenceSp, silenceAp)
  }

  function Voices(segs: seq<Segment>, db: map<string, DbValue>, pitch: real): (ps: seq<Paint>)
    requires SilenceKeysUsable(db)
    ensures |ps| == |segs|
  {
    seq(|segs|, k requires 0 <= k < |segs| => Voice(db, segs[k].phoneme, pitch))
  }

  /** Times the renderer can index with: none is negative. */
  predicate NonNegative(segs: seq<Segment>) {
    forall k :: 0 <= k < |segs| ==> segs[k].start >= 0.0 && segs[k].end >= 0.0
  }

  /** `total_frames`: ten frames past the end of the last segment, or past 1.0 s for an empty list. */
  function TotalFrames(segs: seq<Segment>): (total: nat)
    requires NonNegative(segs)
    ensures total >= 10
  {
    var totalTime := if segs != [] then segs[|segs| - 1].end else 1.0;
    TimeToFrameIsFloor(totalTime);
    TimeToFrame(totalTime) + 10
  }

  /** The loop skips a segment whose first frame is not below `total_frames`. */
  predicate Skipped(s: Segment, total: int) {
    TimeToFrame(s.start) >= total
  }

  /** The labels warned about, in the order the loop meets them. */
  function Warned(segs: seq<Segment>, db: map<string, DbValue>, total: int): seq<string> {
    if segs == [] then []
    else
      var s := segs[|segs| - 1];
      Warned(segs[..|segs| - 1], db, total)
        + (if !Skipped(s, total) && Unknown(db, s.phoneme) then [s.phoneme] else [])
  }

  /** Frame `i` of the buffers: the voice of the last segment writing it, or untouched zeros. */
  function RenderedFrame(segs: seq<Segment>, db: map<string, DbValue>, pitch: real, i: int): Paint
    requires NonNegative(segs) && SilenceKeysUsable(db)
  {
    PaintAt(SegmentSpans(segs), Voices(segs, db, pitch), TotalFrames(segs), Width(db), i)
  }

  /** The F0/SP/AP buffers, one `Paint` per frame. */
  function Rendered(segs: seq<Segment>, db: map<string, DbValue>, pitch: real): (frames: seq<Paint>)
    requires NonNegative(segs) && SilenceKeysUsable(db)
    ensures |frames| == TotalFrames(segs)
  {
    seq(TotalFrames(segs), i => RenderedFrame(segs, db, pitch, i))
  }

  /** What the vocoder receives, and the labels the renderer warned about. */
  datatype Rendering = Rendering(frames: seq<Paint>, warnings: seq<string>)

  /** The exception raised by looking up `"sp_mean"` in a bare vector. */
  datatype RenderError = NotAPhonemeEntry(phoneme: string)

  /** The first segment the loop reaches whose label `Faults` is segment `k`. */
  predicate FirstFault(segs: seq<Segment>, db: map<string, DbValue>, total: int, k: int) {
    && 0 <= k < |segs| && !Skipped(segs[k], total) && Faults(db, segs[k].phoneme)
    && forall j :: 0 <= j < k ==> !(!Skipped(segs[j], total) && Faults(db, segs[j].phoneme))
  }

  /**
   * The branch of the loop body that picks the SP and AP rows for label
   * `ph`: the silence vectors for silent and unknown labels (the latter
   * with a warning), the label's means otherwise.
   */
  method SegmentRows(db: map<string, DbValue>, silenceSp: Row, silenceAp: Row, ph: string, ghost pitch: real)
    returns (rows: Result<(Row, Row), RenderError>, warn: bool)
    requires SilenceKeysUsable(db) && (silenceSp, silenceAp) == SilenceVectors(db)
    ensures rows.Err? <==> Faults(db, ph)
    ensures rows.Err? ==> rows.error == NotAPhonemeEntry(ph)
    ensures rows.Ok? ==> rows.value == (Voice(db, ph, pitch).sp, Voice(db, ph, pitch).ap)
    ensures warn <==> Unknown(db, ph)
  {
    warn := false;
    if IsSilencePhoneme(ph) {
      rows := Ok((silenceSp, silenceAp));
    } else if ph in db {
      if db[ph].Vector? {
        return Err(NotAPhonemeEntry(ph)), false;
      }
      rows := Ok((db[ph].spMean, db[ph].apMean));
    } else {
      warn := true;
      rows := Ok((silenceSp, silenceAp));
    }
  }

  /** Painting `p` over frames `[first, stop)` of the three buffers, as three slice assignments. */
  method PaintSlices(f0: array<real>, sp: array<Row>, ap: array<Row>, first: int, stop: int, p: Paint)
    requires f0.Length == sp.Length == ap.Length && sp != ap
    requires 0 <= first && stop <= f0.Length
    modifies f0, sp, ap
    ensures forall i :: 0 <= i < f0.Length ==>
      Paint(f0[i], sp[i], ap[i]) == if first <= i < stop then p else old(Paint(f0[i], sp[i], ap[i]))
  {
    FillSlice(f0, first, stop, p.f0);
    FillSlice(sp, first, stop, p.sp);
    FillSlice(ap, first, stop, p.ap);
  }

  /**
   * One pass of the segment loop: a segment whose first frame is not below
   * `total_frames` is skipped; otherwise F0 gets `pitch` over
   * `[f1, min(f2, total_frames))`, then SP and AP get the label's rows, unless
   * the label `Faults`, which aborts the rendering.
   */
  method RenderSegment(f0: array<real>, sp: array<Row>, ap: array<Row>, seg: Segment,
                       db: map<string, DbValue>, silenceSp: Row, silenceAp: Row, pitch: real)
    returns (fault: bool, warn: bool)
    requires f0.Length == sp.Length == ap.Length && sp != ap
    requires seg.start >= 0.0
    requires SilenceKeysUsable(db) && (silenceSp, silenceAp) == SilenceVectors(db)
    modifies f0, sp, ap
    ensures fault <==> !Skipped(seg, f0.Length) && Faults(db, seg.phoneme)
    ensures warn <==> !Skipped(seg, f0.Length) && Unknown(db, seg.phoneme)
    ensures !fault ==> forall i :: 0 <= i < f0.Length ==>
      Paint(f0[i], sp[i], ap[i])
        == if Covers(SegmentSpan(seg), f0.Length, i) then Voice(db, seg.phoneme, pitch)
           else old(Paint(f0[i], sp[i], ap[i]))
  {
    var total := f0.Length;
    var f1 := TimeToFrame(seg.start);
    var f2 := TimeToFrame(seg.end);
    f2 := Min(f2, total);
    if f1 >= total {
      return false, false;
    }
    TimeToFrameIsFloor(seg.start);
    var rows;
    rows, warn := SegmentRows(db, silenceSp, silenceAp, seg.phoneme, pitch);
    if rows.Err? {
      FillSlice(f0, f1, f2, pitch);
      return true, false;
    }
    PaintSlices(f0, sp, ap, f1, f2, Paint(pitch, rows.value.0, rows.value.1));
    fault := false;
  }

  /**
   * The segment loop of `synthesize_from_lab` with the label list already
   * loaded: zeroed buffers of `total_frames` rows; for every segment not
   * skipped, F0 gets `pitch` and SP/AP get the silence vectors (silent and
   * unknown labels) or the label's means over `[f1, min(f2, total_frames))`.
   */
  method SynthesizeFromLab(segs: seq<Segment>, db: map<string, DbValue>, pitch: real)
    returns (r: Result<Rendering, RenderError>)
    requires NonNegative(segs) && Usable(db)
    ensures r.Err? <==> exists k :: FirstFault(segs, db, TotalFrames(segs), k)
    ensures r.Err? ==> exists k :: FirstFault(segs, db, TotalFrames(segs), k)
                                   && r.error == NotAPhonemeEntry(segs[k].phoneme)
    ensures r.Ok? ==> r.value.frames == Rendered(segs, db, pitch)
    ensures r.Ok? ==> r.value.warnings == Warned(segs, db, TotalFrames(segs))
  {
    var silenceSp: Row, silenceAp: Row;
    if SilenceSpKey in db {
      silenceSp := db[SilenceSpKey].v;
      silenceAp := db[SilenceApKey].v;
    } else {
      silenceSp := Fill(FftSize / 2 + 1, FallbackLevel);
      silenceAp := Fill(FftSize / 2 + 1, 0.0);
    }
    var totalTime := if segs != [] then segs[|segs| - 1].end else 1.0;
    var total := TimeToFrame(totalTime) + 10;
    assert total == TotalFrames(segs);
    var f0 := new real[total](_ => 0.0);
    var sp := new Row[total](_ => Zeros(|silenceSp|));
    var ap := new Row[total](_ => Zeros(|silenceAp|));
    var faultAt, warnings := RenderSegments(f0, sp, ap, segs, db, silenceSp, silenceAp, pitch);
    if faultAt.Some? {
      return Err(NotAPhonemeEntry(segs[faultAt.value].phoneme));
    }
    r := Ok(Rendering(seq(total, i requires 0 <= i < total reads f0, sp, ap => Paint(f0[i], sp[i], ap[i])), warnings));
  }

  /** The loop of `synthesize_from_lab`: every segment in turn, until a label that faults. */
  method RenderSegments(f0: array<real>, sp: array<Row>, ap: array<Row>, segs: seq<Segment>,
                        db: map<string, DbValue>, silenceSp: Row, silenceAp: Row, pitch: real)
    returns (faultAt: Option<nat>, warnings: seq<string>)
    requires f0.Length == sp.Length == ap.Length && sp != ap
    requires NonNegative(segs) && SilenceKeysUsable(db) && (silenceSp, silenceAp) == SilenceVectors(db)
    requires forall i :: 0 <= i < f0.Length ==> Paint(f0[i], sp[i], ap[i]) == Blank(Width(db))
    modifies f0, sp, ap
    ensures faultAt.Some? ==> FirstFault(segs, db, f0.Length, faultAt.value)
    ensures faultAt.None? ==> forall k :: 0 <= k < |segs| ==> !(!Skipped(segs[k], f0.Length) && Faults(db, segs[k].phoneme))
    ensures faultAt.None? ==> forall i :: 0 <= i < f0.Length ==>
      Paint(f0[i], sp[i], ap[i]) == PaintAt(SegmentSpans(segs), Voices(segs, db, pitch), f0.Length, Width(db), i)
    ensures faultAt.None? ==> warnings == Warned(segs, db, f0.Length)
  {
    var total := f0.Length;
    ghost var w := Width(db);
    ghost var spans := SegmentSpans(segs);
    ghost var voices := Voices(segs, db, pitch);
    warnings := [];
    for n := 0 to |segs|
      invariant forall i :: 0 <= i < total ==>
        Paint(f0[i], sp[i], ap[i]) == PaintAt(spans[..n], voices[..n], total, w, i)
      invariant forall k :: 0 <= k < n ==> !(!Skipped(segs[k], total) && Faults(db, segs[k].phoneme))
      invariant warnings == Warned(segs[..n], db, total)
    {
      RenderStep(segs, spans, voices, db, pitch, total, w, n);
      var fault, warn := RenderSegment(f0, sp, ap, segs[n], db, silenceSp, silenceAp, pitch);
      if fault {
        return Some(n), warnings;
      }
      if warn {
        warnings := warnings + [segs[n].phoneme];
      }
    }
    assert segs[..|segs|] == segs && spans[..|segs|] == spans && voices[..|segs|] == voices;
    faultAt := None;
  }

  /** How frame `i` and the warnings change when the loop moves past segment `n`. */
  lemma RenderStep(segs: seq<Segment>, spans: seq<Span>, voices: seq<Paint>, db: map<string, DbValue>,
                   pitch: real, total: nat, w: nat, n: nat)
    requires NonNegative(segs) && SilenceKeysUsable(db) && n < |segs|
    requires spans == SegmentSpans(segs) && voices == Voices(segs, db, pitch)
    ensures spans[n] == Span(TimeToFrame(segs[n].start), TimeToFrame(segs[n].end))
    ensures voices[n] == Voice(db, segs[n].phoneme, pitch)
    ensures forall i :: (PaintAt(spans[..n + 1], voices[..n + 1], total, w, i)
      == if Covers(spans[n], total, i) then voices[n] else PaintAt(spans[..n], voices[..n], total, w, i))
    ensures Warned(segs[..n + 1], db, total) == Warned(segs[..n], db, total)
      + (if !Skipped(segs[n], total) && Unknown(db, segs[n].phoneme) then [segs[n].phoneme] else [])
  {
    assert spans[..n + 1] == spans[..n] + [spans[n]];
    assert voices[..n + 1] == voices[..n] + [voices[n]];
    assert segs[..n + 1][..n] == segs[..n];
    forall i
      ensures PaintAt(spans[..n + 1], voices[..n + 1], total, w, i)
           == if Covers(spans[n], total, i) then voices[n] else PaintAt(spans[..n], voices[..n], total, w, i)
    {
      PaintAtSnoc(spans[..n], voices[..n], spans[n], voices[n], total, w, i);
    }
  }

  // ---------------------------------------------------------------------
  // Properties of the renderer
  // ---------------------------------------------------------------------

  /**
   * A model the builder produced is usable: its silence vectors are the
   * builder's, and the buffers are `b` bins wide (513 for an empty corpus).
   */
  lemma BuiltModelUsable(db: map<string, DbValue>, fs: seq<Frame>, b: nat)
    requires FramesOfWidth(fs, b) && IsPhonemeDb(db, fs, b)
    ensures Usable(db)
    ensures SilenceVectors(db) == (SilenceSp(fs, b), SilenceAp(fs, b))
    ensures Width(db) == if fs == [] then DefaultBins else b
  {
    PhonemeDbWellFormed(db, fs, b);
    SilenceWidths(fs, b);
  }

  /** Without the reserved keys the renderer falls back on what the builder stores for an empty corpus. */
  lemma FallbackIsEmptyCorpusSilence(db: map<string, DbValue>)
    requires SilenceSpKey !in db
    ensures SilenceVectors(db) == (SilenceSp([], 0), SilenceAp([], 0))
    ensures Width(db) == DefaultBins
  {
    assert Pool([]) == [];
  }

  /** An empty label list still renders 210 frames: one second plus ten. */
  lemma EmptyLabTotal()
    ensures TotalFrames([]) == 210
  {
    assert 1.0 * 1000.0 / FramePeriodMs == 200.0;
  }

  /**
   * The renderer and `align_phonemes_to_frames` agree: a frame some segment
   * writes carries `pitch` and the voice of the label the aligner puts
   * there; a frame no segment writes stays zero, where the aligner leaves `""`.
   */
  lemma RenderedFollowsAlignment(segs: seq<Segment>, db: map<string, DbValue>, pitch: real, i: nat)
    requires NonNegative(segs) && SilenceKeysUsable(db) && i < TotalFrames(segs)
    ensures var total := TotalFrames(segs);
      if exists k :: 0 <= k < |segs| && Covers(SegmentSpan(segs[k]), total, i) then
        && Rendered(segs, db, pitch)[i] == Voice(db, AlignedLabel(segs, total, i), pitch)
        && Rendered(segs, db, pitch)[i].f0 == pitch
      else
        && Rendered(segs, db, pitch)[i] == Blank(Width(db))
        && AlignedLabel(segs, total, i) == ""
  {
    var total := TotalFrames(segs);
    var spans := SegmentSpans(segs);
    if exists k :: 0 <= k < |segs| && Covers(SegmentSpan(segs[k]), total, i) {
      var k :| 0 <= k < |segs| && Covers(SegmentSpan(segs[k]), total, i);
      assert Covers(spans[k], total, i);
    } else {
      assert forall k :: 0 <= k < |spans| ==> !Covers(spans[k], total, i);
    }
  }

  /** Every frame has an SP and an AP row of `len(SILENCE_SP)` bins. */
  lemma RenderedWidths(segs: seq<Segment>, db: map<string, DbValue>, pitch: real)
    requires NonNegative(segs) && Usable(db)
    ensures forall i :: 0 <= i < TotalFrames(segs) ==>
      |Rendered(segs, db, pitch)[i].sp| == Width(db) && |Rendered(segs, db, pitch)[i].ap| == Width(db)
  {
    forall i | 0 <= i < TotalFrames(segs)
      ensures |Rendered(segs, db, pitch)[i].sp| == Width(db) && |Rendered(segs, db, pitch)[i].ap| == Width(db)
    {
      var c := LastCover(SegmentSpans(segs), TotalFrames(segs), i);
      if c.Some? {
        var ph := segs[c.value].phoneme;
        assert Rendered(segs, db, pitch)[i] == Voice(db, ph, pitch);
      }
    }
  }

  /** A label is warned about iff some segment the loop does not skip carries it and it is unknown. */
  lemma {:induction false} WarnedMembers(segs: seq<Segment>, db: map<string, DbValue>, total: int, ph: string)
    ensures ph in Warned(segs, db, total)
        <==> exists k :: 0 <= k < |segs| && segs[k].phoneme == ph && !Skipped(segs[k], total) && Unknown(db, ph)
  {
    if segs != [] {
      var m := |segs| - 1;
      WarnedMembers(segs[..m], db, total, ph);
      assert forall k :: 0 <= k < m ==> segs[..m][k] == segs[k];
      if exists k :: 0 <= k < |segs| && segs[k].phoneme == ph && !Skipped(segs[k], total) && Unknown(db, ph) {
        var k :| 0 <= k < |segs| && segs[k].phoneme == ph && !Skipped(segs[k], total) && Unknown(db, ph);
        if k < m {
          assert segs[..m][k] == segs[k];
        }
      }
    }
  }
}

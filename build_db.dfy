/**
 * The acoustic model builder (src/build_db.py, `build_phoneme_db`): from
 * per-utterance frame labels and WORLD spectral envelope (SP) and
 * aperiodicity (AP) rows, the per-phoneme element-wise mean of SP and AP,
 * plus one pooled silence entry stored under two reserved keys.
 */
module BuildDb {
  import opened Seqs

  /** One analysis frame's vector of frequency bins. */
  type Row = seq<real>

  /** The three arrays saved for one utterance: frame labels, SP rows and AP rows. */
  datatype Utterance = Utterance(labels: seq<string>, sp: seq<Row>, ap: seq<Row>)

  /** The builder keeps an utterance only when it has one label per SP frame. */
  predicate Admitted(u: Utterance) {
    |u.labels| == |u.sp|
  }

  /** The canonical silence and breath tags, pooled together. */
  predicate IsPause(ph: string) {
    ph == "SP" || ph == "AP"
  }

  /** A frame label that gets a bucket of its own: non-empty and not a pause. */
  predicate IsBucketed(ph: string) {
    ph != "" && !IsPause(ph)
  }

  /** The two keys under which the silence vectors are stored. */
  const SilenceSpKey: string := "__SILENCE_SP"
  const SilenceApKey: string := "__SILENCE_AP"

  predicate IsReserved(key: string) {
    key == SilenceSpKey || key == SilenceApKey
  }

  /** WORLD's default bin count (FFT size 1024), used when nothing was collected. */
  const DefaultBins: nat := 513
  /** The near-silent spectral level of the fallback silence vector. */
  const FallbackLevel: real := 0.001

  /** An entry of the pickled model: a phoneme's two means, or a bare silence vector. */
  datatype DbValue = Means(spMean: Row, apMean: Row) | Vector(v: Row)

  // ---------------------------------------------------------------------
  // The frames the builder reads, as one sequence
  // ---------------------------------------------------------------------

  /** One labelled frame of an admitted utterance. */
  datatype Frame = Frame(phoneme: string, sp: Row, ap: Row)

  /** Every admitted utterance has as many AP frames as SP frames (one analysis produced both). */
  predicate Aligned(utts: seq<Utterance>) {
    forall n :: 0 <= n < |utts| && Admitted(utts[n]) ==> |utts[n].ap| == |utts[n].sp|
  }

  function UttFrames(u: Utterance): (fs: seq<Frame>)
    requires Admitted(u) && |u.ap| == |u.sp|
    ensures |fs| == |u.labels|
  {
    seq(|u.labels|, i requires 0 <= i < |u.labels| => Frame(u.labels[i], u.sp[i], u.ap[i]))
  }

  /** The frames of the admitted utterances, in input order. */
  function AllFrames(utts: seq<Utterance>): seq<Frame>
    requires Aligned(utts)
  {
    if utts == [] then []
    else
      var u := utts[|utts| - 1];
      AllFrames(utts[..|utts| - 1]) + (if Admitted(u) then UttFrames(u) else [])
  }

  predicate FramesOfWidth(fs: seq<Frame>, b: nat) {
    forall f :: f in fs ==> |f.sp| == b && |f.ap| == b
  }

  /** What `np.mean(..., axis=0)` needs: every averaged SP and AP row has `b` bins. */
  predicate Shaped(utts: seq<Utterance>, b: nat) {
    Aligned(utts) && FramesOfWidth(AllFrames(utts), b)
  }

  function SpOf(fs: seq<Frame>): seq<Row> {
    MapSeq((f: Frame) => f.sp, fs)
  }

  function ApOf(fs: seq<Frame>): seq<Row> {
    MapSeq((f: Frame) => f.ap, fs)
  }

  function LabelsOf(fs: seq<Frame>): seq<string> {
    MapSeq((f: Frame) => f.phoneme, fs)
  }

  /** The frames labelled `ph`, in order. */
  function Bucket(fs: seq<Frame>, ph: string): (r: seq<Frame>)
    ensures forall f :: f in r ==> f in fs && f.phoneme == ph
  {
    if fs == [] then []
    else
      var f := fs[|fs| - 1];
      Bucket(fs[..|fs| - 1], ph) + (if f.phoneme == ph then [f] else [])
  }

  /** The frames labelled `SP` or `AP`, in order. */
  function Pool(fs: seq<Frame>): (r: seq<Frame>)
    ensures forall f :: f in r ==> f in fs && IsPause(f.phoneme)
  {
    if fs == [] then []
    else
      var f := fs[|fs| - 1];
      Pool(fs[..|fs| - 1]) + (if IsPause(f.phoneme) then [f] else [])
  }

  // ---------------------------------------------------------------------
  // Element-wise means
  // ---------------------------------------------------------------------

  predicate Uniform(rows: seq<Row>, b: nat) {
    forall r :: r in rows ==> |r| == b
  }

  /** The sum of column `j` over all rows. */
  function ColumnSum(rows: seq<Row>, j: nat): real
    requires forall r :: r in rows ==> j < |r|
  {
    if rows == [] then 0.0 else ColumnSum(rows[..|rows| - 1], j) + rows[|rows| - 1][j]
  }

  /** `np.mean(rows, axis=0)` */
  function Mean(rows: seq<Row>): (m: Row)
    requires |rows| > 0 && Uniform(rows, |rows[0]|)
    ensures |m| == |rows[0]|
  {
    seq(|rows[0]|, j requires 0 <= j < |rows[0]| => ColumnSum(rows, j) / (|rows| as real))
  }

  /** `np.ones(n) * x`, `np.zeros(n)` */
  function Fill(n: nat, x: real): (r: Row)
    ensures |r| == n && forall j :: 0 <= j < n ==> r[j] == x
  {
    seq(n, _ => x)
  }

  // ---------------------------------------------------------------------
  // What the builder produces
  // ---------------------------------------------------------------------

  lemma BucketWidth(fs: seq<Frame>, ph: string, b: nat)
    requires FramesOfWidth(fs, b)
    ensures Uniform(SpOf(Bucket(fs, ph)), b) && Uniform(ApOf(Bucket(fs, ph)), b)
  {
  }

  lemma PoolWidth(fs: seq<Frame>, b: nat)
    requires FramesOfWidth(fs, b)
    ensures Uniform(SpOf(Pool(fs)), b) && Uniform(ApOf(Pool(fs)), b)
  {
  }

  /** The model entry of a bucketed phoneme that has frames. */
  function PhonemeMeans(fs: seq<Frame>, ph: string, b: nat): DbValue
    requires FramesOfWidth(fs, b) && Bucket(fs, ph) != []
  {
    BucketWidth(fs, ph, b);
    Means(Mean(SpOf(Bucket(fs, ph))), Mean(ApOf(Bucket(fs, ph))))
  }

  /** `__SILENCE_SP`: the pool's SP mean, else 0.001 in every bin of the first collected SP frame, else of 513 bins. */
  function SilenceSp(fs: seq<Frame>, b: nat): Row
    requires FramesOfWidth(fs, b)
  {
    PoolWidth(fs, b);
    if Pool(fs) != [] then Mean(SpOf(Pool(fs)))
    else if fs != [] then Fill(|fs[0].sp|, FallbackLevel)
    else Fill(DefaultBins, FallbackLevel)
  }

  /** `__SILENCE_AP`: the pool's AP mean, else zeros as wide as the first collected AP frame, else 513 zeros. */
  function SilenceAp(fs: seq<Frame>, b: nat): Row
    requires FramesOfWidth(fs, b)
  {
    PoolWidth(fs, b);
    if Pool(fs) != [] then Mean(ApOf(Pool(fs)))
    else if fs != [] then Fill(|fs[0].ap|, 0.0)
    else Fill(DefaultBins, 0.0)
  }

  /**
   * A model the renderers can use: both reserved keys hold bare vectors of
   * `w` bins, and every other key holds an SP and an AP mean of `w` bins.
   */
  predicate WellFormedModel(db: map<string, DbValue>, w: nat) {
    && SilenceSpKey in db && db[SilenceSpKey].Vector? && |db[SilenceSpKey].v| == w
    && SilenceApKey in db && db[SilenceApKey].Vector? && |db[SilenceApKey].v| == w
    && forall ph :: ph in db && !IsReserved(ph) ==>
         db[ph].Means? && |db[ph].spMean| == w && |db[ph].apMean| == w
  }

  // ---------------------------------------------------------------------
  // build_phoneme_db
  // ---------------------------------------------------------------------

  /** One bucket of `stats`: the SP rows and the AP rows collected for a phoneme. */
  datatype Samples = Samples(sp: seq<Row>, ap: seq<Row>)

  /** Bucket `ph` of `stats` holds the rows of the frames of `fs` labelled `ph`, and exists only if there are some. */
  predicate StatsEntry(stats: map<string, Samples>, fs: seq<Frame>, ph: string) {
    && (ph in stats <==> IsBucketed(ph) && Bucket(fs, ph) != [])
    && (ph in stats ==> stats[ph] == Samples(SpOf(Bucket(fs, ph)), ApOf(Bucket(fs, ph))))
  }

  /** `stats` holds, for every bucketed label seen in `fs`, that label's rows in order. */
  ghost predicate StatsOf(stats: map<string, Samples>, fs: seq<Frame>) {
    forall ph :: StatsEntry(stats, fs, ph)
  }

  lemma BucketSnoc(fs: seq<Frame>, f: Frame, ph: string)
    ensures Bucket(fs + [f], ph) == Bucket(fs, ph) + (if f.phoneme == ph then [f] else [])
  {
    assert (fs + [f])[..|fs|] == fs;
  }

  lemma PoolSnoc(fs: seq<Frame>, f: Frame)
    ensures Pool(fs + [f]) == Pool(fs) + (if IsPause(f.phoneme) then [f] else [])
  {
    assert (fs + [f])[..|fs|] == fs;
  }

  /** The value the inner loop stores for `f`'s label. */
  function AddSample(stats: map<string, Samples>, f: Frame): map<string, Samples> {
    var s := if f.phoneme in stats then stats[f.phoneme] else Samples([], []);
    stats[f.phoneme := Samples(s.sp + [f.sp], s.ap + [f.ap])]
  }

  lemma StatsEntryStep(stats: map<string, Samples>, fs: seq<Frame>, f: Frame, ph: string)
    requires StatsEntry(stats, fs, f.phoneme) && StatsEntry(stats, fs, ph)
    ensures IsBucketed(f.phoneme) ==> StatsEntry(AddSample(stats, f), fs + [f], ph)
    ensures !IsBucketed(f.phoneme) ==> StatsEntry(stats, fs + [f], ph)
  {
    BucketRowsSnoc(fs, f, ph);
  }

  /** A bucket's rows grow by a new frame's rows exactly when the frame has that label. */
  lemma BucketRowsSnoc(fs: seq<Frame>, f: Frame, ph: string)
    ensures Bucket(fs + [f], ph) == [] <==> Bucket(fs, ph) == [] && f.phoneme != ph
    ensures SpOf(Bucket(fs + [f], ph)) == SpOf(Bucket(fs, ph)) + (if f.phoneme == ph then [f.sp] else [])
    ensures ApOf(Bucket(fs + [f], ph)) == ApOf(Bucket(fs, ph)) + (if f.phoneme == ph then [f.ap] else [])
  {
    BucketSnoc(fs, f, ph);
    if f.phoneme == ph {
      MapSeqSnoc((g: Frame) => g.sp, Bucket(fs, ph), f);
      MapSeqSnoc((g: Frame) => g.ap, Bucket(fs, ph), f);
    } else {
      assert Bucket(fs + [f], ph) == Bucket(fs, ph) + [];
    }
  }

  /** Adding one frame to `stats` the way the inner loop does keeps `StatsOf`. */
  lemma StatsStep(stats: map<string, Samples>, fs: seq<Frame>, f: Frame)
    requires StatsOf(stats, fs)
    ensures IsBucketed(f.phoneme) ==> StatsOf(AddSample(stats, f), fs + [f])
    ensures !IsBucketed(f.phoneme) ==> StatsOf(stats, fs + [f])
  {
    forall ph
      ensures IsBucketed(f.phoneme) ==> StatsEntry(AddSample(stats, f), fs + [f], ph)
      ensures !IsBucketed(f.phoneme) ==> StatsEntry(stats, fs + [f], ph)
    {
      StatsEntryStep(stats, fs, f, ph);
    }
  }

  lemma MapSeqAppend<A, B>(f: A -> B, xs: seq<A>, ys: seq<A>)
    ensures MapSeq(f, xs + ys) == MapSeq(f, xs) + MapSeq(f, ys)
  {
    assert forall n :: 0 <= n < |xs + ys| ==> MapSeq(f, xs + ys)[n] == (MapSeq(f, xs) + MapSeq(f, ys))[n];
  }

  /** An admitted utterance's frames give back its own SP rows, AP rows and labels. */
  lemma UttFramesRows(u: Utterance)
    requires Admitted(u) && |u.ap| == |u.sp|
    ensures SpOf(UttFrames(u)) == u.sp && ApOf(UttFrames(u)) == u.ap && LabelsOf(UttFrames(u)) == u.labels
  {
  }

  lemma AllFramesSnoc(utts: seq<Utterance>, u: Utterance)
    requires Aligned(utts + [u])
    requires Admitted(u) ==> |u.ap| == |u.sp|
    ensures Aligned(utts)
    ensures AllFrames(utts + [u]) == AllFrames(utts) + (if Admitted(u) then UttFrames(u) else [])
  {
    assert (utts + [u])[..|utts|] == utts;
  }

  /** The inner loop of `build_phoneme_db`: one admitted utterance's bucketed frames go into `stats`. */
  method AddUtterance(stats0: map<string, Samples>, u: Utterance, ghost seen: seq<Frame>)
    returns (stats: map<string, Samples>)
    requires Admitted(u) && |u.ap| == |u.sp|
    requires StatsOf(stats0, seen)
    ensures StatsOf(stats, seen + UttFrames(u))
  {
    stats := stats0;
    ghost var frames := UttFrames(u);
    assert seen + frames[..0] == seen;
    for i := 0 to |u.labels|
      invariant StatsOf(stats, seen + frames[..i])
    {
      assert frames[..i + 1] == frames[..i] + [frames[i]];
      assert seen + frames[..i + 1] == (seen + frames[..i]) + [frames[i]];
      ghost var before := stats;
      StatsStep(stats, seen + frames[..i], frames[i]);
      var ph := u.labels[i];
      if ph != "" && ph !in {"SP", "AP"} && i < |u.sp| {
        var s := if ph in stats then stats[ph] else Samples([], []);
        stats := stats[ph := Samples(s.sp + [u.sp[i]], s.ap + [u.ap[i]])];
        assert stats == AddSample(before, frames[i]);
      }
    }
    assert frames[..|u.labels|] == frames;
  }

  /**
   * The collection loop of `build_phoneme_db`: utterances whose label count
   * differs from their SP frame count are skipped whole; the others fill
   * `stats` and are appended to `all_sp`, `all_ap` and `all_ph`.
   */
  method CollectFrames(utts: seq<Utterance>)
    returns (stats: map<string, Samples>, allSp: seq<Row>, allAp: seq<Row>, allPh: seq<string>)
    requires Aligned(utts)
    ensures StatsOf(stats, AllFrames(utts))
    ensures allSp == SpOf(AllFrames(utts)) && allAp == ApOf(AllFrames(utts))
    ensures allPh == LabelsOf(AllFrames(utts))
  {
    stats, allSp, allAp, allPh := map[], [], [], [];
    ghost var seen: seq<Frame> := [];
    for n := 0 to |utts|
      invariant Aligned(utts[..n]) && seen == AllFrames(utts[..n])
      invariant allSp == SpOf(seen) && allAp == ApOf(seen) && allPh == LabelsOf(seen)
      invariant StatsOf(stats, seen)
    {
      assert utts[..n + 1] == utts[..n] + [utts[n]];
      assert Admitted(utts[n]) ==> |utts[n].ap| == |utts[n].sp|;
      AllFramesSnoc(utts[..n], utts[n]);
      var u := utts[n];
      if |u.labels| == |u.sp| {
        stats := AddUtterance(stats, u, seen);
        ghost var frames := UttFrames(u);
        UttFramesRows(u);
        MapSeqAppend((f: Frame) => f.sp, seen, frames);
        MapSeqAppend((f: Frame) => f.ap, seen, frames);
        MapSeqAppend((f: Frame) => f.phoneme, seen, frames);
        allSp := allSp + u.sp;
        allAp := allAp + u.ap;
        allPh := allPh + u.labels;
        seen := seen + frames;
      }
    }
    assert utts[..|utts|] == utts;
  }

  /** The loop of `build_phoneme_db` that stores each bucket's SP and AP means. */
  method BucketMeans(stats: map<string, Samples>, ghost fs: seq<Frame>, ghost b: nat)
    returns (db: map<string, DbValue>)
    requires StatsOf(stats, fs) && FramesOfWidth(fs, b)
    ensures forall ph :: ph in db <==> IsBucketed(ph) && Bucket(fs, ph) != []
    ensures forall ph :: ph in db ==> db[ph] == PhonemeMeans(fs, ph, b)
  {
    db := map[];
    var pending := stats.Keys;
    while pending != {}
      invariant pending <= stats.Keys
      invariant forall ph :: ph in db <==> ph in stats && ph !in pending
      invariant forall ph :: ph in db ==> Bucket(fs, ph) != [] && db[ph] == PhonemeMeans(fs, ph, b)
      decreases |pending|
    {
      var ph :| ph in pending;
      assert StatsEntry(stats, fs, ph);
      BucketWidth(fs, ph, b);
      var entry := Means(Mean(stats[ph].sp), Mean(stats[ph].ap));
      assert entry == PhonemeMeans(fs, ph, b);
      db := db[ph := entry];
      pending := pending - {ph};
    }
    forall ph
      ensures ph in db <==> IsBucketed(ph) && Bucket(fs, ph) != []
    {
      assert StatsEntry(stats, fs, ph);
    }
  }

  /** The pooled rows grow by frame `i`'s rows exactly when it is a pause. */
  lemma PoolRowsStep(fs: seq<Frame>, i: nat)
    requires i < |fs|
    ensures SpOf(Pool(fs[..i + 1])) == SpOf(Pool(fs[..i])) + (if IsPause(fs[i].phoneme) then [fs[i].sp] else [])
    ensures ApOf(Pool(fs[..i + 1])) == ApOf(Pool(fs[..i])) + (if IsPause(fs[i].phoneme) then [fs[i].ap] else [])
  {
    assert fs[..i + 1] == fs[..i] + [fs[i]];
    PoolSnoc(fs[..i], fs[i]);
    if IsPause(fs[i].phoneme) {
      MapSeqSnoc((f: Frame) => f.sp, Pool(fs[..i]), fs[i]);
      MapSeqSnoc((f: Frame) => f.ap, Pool(fs[..i]), fs[i]);
    } else {
      assert Pool(fs[..i] + [fs[i]]) == Pool(fs[..i]) + [];
    }
  }

  /** The loop of `build_phoneme_db` that gathers every `SP`/`AP` frame's rows. */
  method PoolSilence(allSp: seq<Row>, allAp: seq<Row>, allPh: seq<string>, ghost fs: seq<Frame>)
    returns (silenceSp: seq<Row>, silenceAp: seq<Row>)
    requires allSp == SpOf(fs) && allAp == ApOf(fs) && allPh == LabelsOf(fs)
    ensures silenceSp == SpOf(Pool(fs)) && silenceAp == ApOf(Pool(fs))
  {
    silenceSp, silenceAp := [], [];
    for i := 0 to |allPh|
      invariant silenceSp == SpOf(Pool(fs[..i])) && silenceAp == ApOf(Pool(fs[..i]))
    {
      PoolRowsStep(fs, i);
      var ph := allPh[i];
      assert ph == fs[i].phoneme && i < |allSp| && allSp[i] == fs[i].sp && allAp[i] == fs[i].ap;
      if ph in {"SP", "AP"} && i < |allSp| {
        assert IsPause(fs[i].phoneme);
        silenceSp := silenceSp + [allSp[i]];
        silenceAp := silenceAp + [allAp[i]];
      } else {
        assert !IsPause(fs[i].phoneme);
      }
    }
    assert fs[..|allPh|] == fs;
  }

  /**
   * `build_phoneme_db` with the feature files given as a sequence of
   * utterances. `b` is the bin count numpy needs every averaged row to share.
   */
  method BuildPhonemeDb(utts: seq<Utterance>, ghost b: nat) returns (db: map<string, DbValue>)
    requires Shaped(utts, b)
    ensures IsPhonemeDb(db, AllFrames(utts), b)
  {
    ghost var fs := AllFrames(utts);
    var stats, allSp, allAp, allPh := CollectFrames(utts);
    var means := BucketMeans(stats, fs, b);
    var silenceSp, silenceAp := PoolSilence(allSp, allAp, allPh, fs);
    var spVector, apVector := SilenceVectors(silenceSp, silenceAp, allSp, allAp, fs, b);
    db := means[SilenceSpKey := Vector(spVector)];
    db := db[SilenceApKey := Vector(apVector)];
    AssembledDb(means, fs, b);
  }

  /** Storing the silence vectors over the bucket means gives the whole model. */
  lemma AssembledDb(means: map<string, DbValue>, fs: seq<Frame>, b: nat)
    requires FramesOfWidth(fs, b)
    requires forall ph :: ph in means <==> IsBucketed(ph) && Bucket(fs, ph) != []
    requires forall ph :: ph in means ==> means[ph] == PhonemeMeans(fs, ph, b)
    ensures IsPhonemeDb(means[SilenceSpKey := Vector(SilenceSp(fs, b))][SilenceApKey := Vector(SilenceAp(fs, b))], fs, b)
  {
    ReservedKeysDiffer();
    StoreReserved(means, Vector(SilenceSp(fs, b)), Vector(SilenceAp(fs, b)), fs, b);
  }

  lemma ReservedKeysDiffer()
    ensures SilenceSpKey != SilenceApKey
  {
    assert SilenceSpKey[10] != SilenceApKey[10];
  }

  /** Values stored under the reserved keys leave every bucket entry as it was. */
  lemma StoreReserved(means: map<string, DbValue>, sp: DbValue, ap: DbValue, fs: seq<Frame>, b: nat)
    requires FramesOfWidth(fs, b)
    requires forall ph :: ph in means <==> IsBucketed(ph) && Bucket(fs, ph) != []
    requires forall ph :: ph in means ==> means[ph] == PhonemeMeans(fs, ph, b)
    ensures forall ph :: ph in means[SilenceSpKey := sp][SilenceApKey := ap] <==>
      IsReserved(ph) || (IsBucketed(ph) && Bucket(fs, ph) != [])
    ensures forall ph :: ph in means[SilenceSpKey := sp][SilenceApKey := ap] && !IsReserved(ph) ==>
      means[SilenceSpKey := sp][SilenceApKey := ap][ph] == PhonemeMeans(fs, ph, b)
  {
    var db := means[SilenceSpKey := sp][SilenceApKey := ap];
    forall ph | ph in db && !IsReserved(ph)
      ensures db[ph] == PhonemeMeans(fs, ph, b)
    {
      assert ph in means && db[ph] == means[ph];
    }
  }

  /** The end of `build_phoneme_db`: the pool's means, or the near-silent fallback. */
  method SilenceVectors(silenceSp: seq<Row>, silenceAp: seq<Row>, allSp: seq<Row>, allAp: seq<Row>,
                        ghost fs: seq<Frame>, ghost b: nat)
    returns (spVector: Row, apVector: Row)
    requires FramesOfWidth(fs, b)
    requires silenceSp == SpOf(Pool(fs)) && silenceAp == ApOf(Pool(fs))
    requires allSp == SpOf(fs) && allAp == ApOf(fs)
    ensures spVector == SilenceSp(fs, b) && apVector == SilenceAp(fs, b)
  {
    PoolWidth(fs, b);
    if silenceSp != [] {
      spVector := Mean(silenceSp);
      apVector := Mean(silenceAp);
    } else if allSp != [] {
      spVector := Fill(|allSp[0]|, FallbackLevel);
      apVector := Fill(|allAp[0]|, 0.0);
    } else {
      spVector := Fill(DefaultBins, FallbackLevel);
      apVector := Fill(DefaultBins, 0.0);
    }
  }

  /**
   * `db` is the model built from frames `fs`: one entry per bucketed label
   * that occurs, holding that label's means, and the two silence vectors
   * under the reserved keys, which win over a label spelled like them.
   */
  ghost predicate IsPhonemeDb(db: map<string, DbValue>, fs: seq<Frame>, b: nat)
    requires FramesOfWidth(fs, b)
  {
    && (forall ph :: ph in db <==> IsReserved(ph) || (IsBucketed(ph) && Bucket(fs, ph) != []))
    && (forall ph :: ph in db && !IsReserved(ph) ==> db[ph] == PhonemeMeans(fs, ph, b))
    && SilenceSpKey in db && db[SilenceSpKey] == Vector(SilenceSp(fs, b))
    && SilenceApKey in db && db[SilenceApKey] == Vector(SilenceAp(fs, b))
  }

  // ---------------------------------------------------------------------
  // Properties of the builder
  // ---------------------------------------------------------------------

  lemma {:induction false} AllFramesAppend(xs: seq<Utterance>, ys: seq<Utterance>)
    requires Aligned(xs + ys)
    ensures Aligned(xs) && Aligned(ys)
    ensures AllFrames(xs + ys) == AllFrames(xs) + AllFrames(ys)
    decreases |ys|
  {
    if ys != [] {
      var init := ys[..|ys| - 1];
      var u := ys[|ys| - 1];
      assert xs + ys == (xs + init) + [u];
      assert ys == init + [u];
      AlignedSnoc(xs + init, u);
      AllFramesSnoc(xs + init, u);
      AllFramesAppend(xs, init);
      AlignedSnoc(init, u);
      AllFramesSnoc(init, u);
    } else {
      assert xs + ys == xs;
    }
  }

  lemma AlignedSnoc(utts: seq<Utterance>, u: Utterance)
    ensures Aligned(utts + [u]) <==> Aligned(utts) && (Admitted(u) ==> |u.ap| == |u.sp|)
  {
    var all := utts + [u];
    if Aligned(all) {
      forall n | 0 <= n < |utts| && Admitted(utts[n])
        ensures |utts[n].ap| == |utts[n].sp|
      {
        assert all[n] == utts[n];
      }
      assert all[|utts|] == u;
    }
    if Aligned(utts) && (Admitted(u) ==> |u.ap| == |u.sp|) {
      forall n | 0 <= n < |all| && Admitted(all[n])
        ensures |all[n].ap| == |all[n].sp|
      {
        if n < |utts| {
          assert all[n] == utts[n];
        }
      }
    }
  }

  /**
   * An utterance whose label count differs from its SP frame count
   * contributes nothing: the frames are those of the other utterances.
   */
  lemma DroppedUtteranceIgnored(before: seq<Utterance>, u: Utterance, after: seq<Utterance>)
    requires Aligned(before + [u] + after)
    requires !Admitted(u)
    ensures Aligned(before + after)
    ensures AllFrames(before + [u] + after) == AllFrames(before + after)
  {
    AllFramesAppend(before + [u], after);
    AllFramesAppend(before, [u]);
    assert AllFrames([u]) == AllFrames([]) + [];
    assert forall n :: 0 <= n < |before + after| ==>
      (before + after)[n] == (before + [u] + after)[if n < |before| then n else n + 1];
    AllFramesAppend(before, after);
  }

  /** A bucket holds exactly the frames with that label. */
  lemma {:induction false} BucketMembers(fs: seq<Frame>, ph: string, f: Frame)
    ensures f in Bucket(fs, ph) <==> f in fs && f.phoneme == ph
  {
    if fs != [] {
      var init := fs[..|fs| - 1];
      assert fs == init + [fs[|fs| - 1]];
      BucketMembers(init, ph, f);
    }
  }

  /** The silence pool holds exactly the frames labelled `SP` or `AP`. */
  lemma {:induction false} PoolMembers(fs: seq<Frame>, f: Frame)
    ensures f in Pool(fs) <==> f in fs && IsPause(f.phoneme)
  {
    if fs != [] {
      var init := fs[..|fs| - 1];
      assert fs == init + [fs[|fs| - 1]];
      PoolMembers(init, f);
    }
  }

  lemma {:induction false} ColumnSumBounds(rows: seq<Row>, j: nat, lo: real, hi: real)
    requires forall r :: r in rows ==> j < |r| && lo <= r[j] <= hi
    ensures (|rows| as real) * lo <= ColumnSum(rows, j) <= (|rows| as real) * hi
  {
    if rows != [] {
      var init, last := rows[..|rows| - 1], rows[|rows| - 1];
      forall r | r in init
        ensures j < |r| && lo <= r[j] <= hi
      {
        assert r in rows;
      }
      ColumnSumBounds(init, j, lo, hi);
      assert last in rows;
      AddBounds(ColumnSum(init, j), last[j], |init| as real, |rows| as real, lo, hi);
    }
  }

  /** A sum of `n` values within bounds, plus one more, is a sum of `m = n + 1` values within them. */
  lemma AddBounds(sum: real, x: real, n: real, m: real, lo: real, hi: real)
    requires m == n + 1.0
    requires n * lo <= sum <= n * hi && lo <= x <= hi
    ensures m * lo <= sum + x <= m * hi
  {
    assert m * lo == n * lo + lo && m * hi == n * hi + hi;
  }

  /** Each bin of a mean lies between the smallest and the largest value of that bin. */
  lemma MeanBounds(rows: seq<Row>, j: nat, lo: real, hi: real)
    requires |rows| > 0 && Uniform(rows, |rows[0]|) && j < |rows[0]|
    requires forall r :: r in rows ==> lo <= r[j] <= hi
    ensures lo <= Mean(rows)[j] <= hi
  {
    ColumnSumBounds(rows, j, lo, hi);
    var n := |rows| as real;
    var s := ColumnSum(rows, j);
    assert Mean(rows)[j] == s / n;
    QuotientBounds(s, n, lo, hi);
  }

  lemma QuotientBounds(s: real, n: real, lo: real, hi: real)
    requires n > 0.0 && n * lo <= s <= n * hi
    ensures lo <= s / n <= hi
  {
    var m := s / n;
    assert m * n == s;
    assert (m - lo) * n == s - n * lo;
    assert (hi - m) * n == n * hi - s;
  }

  /** Averaging copies of one row gives that row back. */
  lemma MeanOfCopies(rows: seq<Row>, r: Row)
    requires |rows| > 0 && forall n :: 0 <= n < |rows| ==> rows[n] == r
    ensures Mean(rows) == r
  {
    forall j | 0 <= j < |r|
      ensures Mean(rows)[j] == r[j]
    {
      MeanBounds(rows, j, r[j], r[j]);
    }
  }

  /** The silence vectors have `b` bins when any frame was collected, 513 otherwise. */
  lemma SilenceWidths(fs: seq<Frame>, b: nat)
    requires FramesOfWidth(fs, b)
    ensures |SilenceSp(fs, b)| == |SilenceAp(fs, b)| == (if fs == [] then DefaultBins else b)
  {
    PoolWidth(fs, b);
    if Pool(fs) != [] {
      assert Pool(fs)[0] in Pool(fs);
    } else if fs != [] {
      assert fs[0] in fs;
    }
  }

  /**
   * The builder's output is a model the renderers can use: every vector
   * has `b` bins, or 513 when no admitted utterance had any frame.
   */
  lemma PhonemeDbWellFormed(db: map<string, DbValue>, fs: seq<Frame>, b: nat)
    requires FramesOfWidth(fs, b) && IsPhonemeDb(db, fs, b)
    ensures WellFormedModel(db, if fs == [] then DefaultBins else b)
  {
    SilenceWidths(fs, b);
    if fs == [] {
      forall ph
        ensures !(ph in db && !IsReserved(ph))
      {
        assert Bucket(fs, ph) == [];
      }
    } else {
      forall ph | ph in db && !IsReserved(ph)
        ensures db[ph].Means? && |db[ph].spMean| == |db[ph].apMean| == b
      {
        BucketWidth(fs, ph, b);
        var bucket := Bucket(fs, ph);
        assert bucket[0] in bucket;
        assert SpOf(bucket)[0] == bucket[0].sp;
      }
    }
  }
}

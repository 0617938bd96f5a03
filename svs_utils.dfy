/**
 * Label loading and frame alignment (src/svs_utils.py): reading `.lab`
 * files whose times are 100 ns ticks, mapping times to 5 ms analysis
 * frames, and spreading segments over a fixed-length per-frame label list.
 */
module SvsUtils {
  import opened Wrappers
  import opened Text
  import opened Frames

  /** `.lab` times count 100 ns ticks: 10,000,000 of them make a second. */
  const TicksPerSecond: int := 10_000_000

  /** The analysis frame period every caller passes, in milliseconds. */
  const FramePeriodMs: real := 5.0

  /** A labelled time range, in seconds, as `load_lab_file` returns it. */
  datatype Segment = Segment(start: real, end: real, phoneme: string)

  /** The `ValueError` raised by `int()` on a time token that is not an integer. */
  datatype LabError = BadTick(token: string)

  /** What one line of a `.lab` file contributes. */
  datatype LineParse = Skip | Seg(segment: Segment) | Fail(error: LabError)

  function TicksToSeconds(tick: int): real {
    tick as real / TicksPerSecond as real
  }

  /** A line with exactly three tokens is a segment; any other line is skipped. */
  function ParseLine(line: string): LineParse {
    var parts := Tokens(line);
    if |parts| != 3 then Skip
    else
      match (ParseInt(parts[0]), ParseInt(parts[1]))
      case (None, _) => Fail(BadTick(parts[0]))
      case (_, None) => Fail(BadTick(parts[1]))
      case (Some(s), Some(e)) => Seg(Segment(TicksToSeconds(s), TicksToSeconds(e), parts[2]))
  }

  /** The reading of every line, in file order. */
  function ParseLines(lines: seq<string>): (ps: seq<LineParse>)
    ensures |ps| == |lines|
  {
    seq(|lines|, n requires 0 <= n < |lines| => ParseLine(lines[n]))
  }

  /** Gathers line readings: the segments in order, or the first failure. */
  function Collect(ps: seq<LineParse>): Result<seq<Segment>, LabError> {
    if ps == [] then Ok([])
    else
      match Collect(ps[..|ps| - 1])
      case Err(e) => Err(e)
      case Ok(segs) =>
        match ps[|ps| - 1]
        case Skip => Ok(segs)
        case Seg(s) => Ok(segs + [s])
        case Fail(e) => Err(e)
  }

  /** The segments of a file, or the error of its first unreadable three-token line. */
  function ParseLab(lines: seq<string>): Result<seq<Segment>, LabError> {
    Collect(ParseLines(lines))
  }

  /** The lines `load_lab_file` turns into segments: those with exactly three tokens. */
  function Accepted(lines: seq<string>): (r: seq<string>)
    ensures forall k :: 0 <= k < |r| ==> |Tokens(r[k])| == 3
    ensures |r| <= |lines|
  {
    if lines == [] then []
    else Accepted(lines[..|lines| - 1])
         + (if |Tokens(lines[|lines| - 1])| == 3 then [lines[|lines| - 1]] else [])
  }

  lemma ParseLabStep(lines: seq<string>, n: nat)
    requires n < |lines|
    ensures ParseLab(lines[..n + 1])
         == match ParseLab(lines[..n])
            case Err(e) => Err(e)
            case Ok(segs) =>
              match ParseLine(lines[n])
              case Skip => Ok(segs)
              case Seg(s) => Ok(segs + [s])
              case Fail(e) => Err(e)
  {
    var ps := ParseLines(lines[..n + 1]);
    assert ps[..n] == ParseLines(lines[..n]);
  }

  /**
   * `load_lab_file` over the lines of a file: one segment per three-token
   * line, in file order; `int()` failing on a tick aborts the whole load.
   */
  method LoadLabFile(lines: seq<string>) returns (r: Result<seq<Segment>, LabError>)
    ensures r == ParseLab(lines)
  {
    var segments: seq<Segment> := [];
    for n := 0 to |lines|
      invariant ParseLab(lines[..n]) == Ok(segments)
    {
      ParseLabStep(lines, n);
      var parts := Tokens(lines[n]);
      if |parts| == 3 {
        var startTick := ParseInt(parts[0]);
        if startTick.None? {
          assert ParseLine(lines[n]) == Fail(BadTick(parts[0]));
          ParseLabFailSticks(lines, n + 1);
          return Err(BadTick(parts[0]));
        }
        var endTick := ParseInt(parts[1]);
        if endTick.None? {
          assert ParseLine(lines[n]) == Fail(BadTick(parts[1]));
          ParseLabFailSticks(lines, n + 1);
          return Err(BadTick(parts[1]));
        }
        var ph := parts[2];
        var startSec := TicksToSeconds(startTick.value);
        var endSec := TicksToSeconds(endTick.value);
        assert ParseLine(lines[n]) == Seg(Segment(startSec, endSec, ph));
        segments := segments + [Segment(startSec, endSec, ph)];
      } else {
        assert ParseLine(lines[n]) == Skip;
      }
    }
    assert lines[..|lines|] == lines;
    return Ok(segments);
  }

  lemma {:induction false} CollectFailSticks(ps: seq<LineParse>, n: nat)
    requires n <= |ps| && Collect(ps[..n]).Err?
    ensures Collect(ps) == Collect(ps[..n])
    decreases |ps| - n
  {
    if n < |ps| {
      assert ps[..n + 1][..n] == ps[..n];
      CollectFailSticks(ps, n + 1);
    } else {
      assert ps[..n] == ps;
    }
  }

  /** Once a prefix fails to load, so does the whole file, with the same error. */
  lemma ParseLabFailSticks(lines: seq<string>, n: nat)
    requires n <= |lines| && ParseLab(lines[..n]).Err?
    ensures ParseLab(lines) == ParseLab(lines[..n])
  {
    assert ParseLines(lines)[..n] == ParseLines(lines[..n]);
    CollectFailSticks(ParseLines(lines), n);
  }

  lemma {:induction false} CollectSucceeds(ps: seq<LineParse>)
    ensures Collect(ps).Ok? <==> forall n :: 0 <= n < |ps| ==> !ps[n].Fail?
  {
    if ps != [] {
      var m := |ps| - 1;
      CollectSucceeds(ps[..m]);
      assert forall n :: 0 <= n < m ==> ps[..m][n] == ps[n];
    }
  }

  /** A three-token line whose first or second token `int()` rejects. */
  predicate HasBadTick(line: string) {
    var parts := Tokens(line);
    |parts| == 3 && (ParseInt(parts[0]).None? || ParseInt(parts[1]).None?)
  }

  /** The token `int()` raises on: the start tick when it is bad, else the end tick. */
  function BadToken(line: string): string
    requires HasBadTick(line)
  {
    var parts := Tokens(line);
    if ParseInt(parts[0]).None? then parts[0] else parts[1]
  }

  /** A failed collection fails with the reading of its first failing line. */
  lemma {:induction false} CollectFirstFail(ps: seq<LineParse>)
    requires Collect(ps).Err?
    ensures exists k :: 0 <= k < |ps| && ps[k] == Fail(Collect(ps).error)
                        && forall j :: 0 <= j < k ==> !ps[j].Fail?
  {
    var m := |ps| - 1;
    var init := ps[..m];
    if Collect(init).Err? {
      CollectFirstFail(init);
      var k :| 0 <= k < |init| && init[k] == Fail(Collect(init).error)
                && forall j :: 0 <= j < k ==> !init[j].Fail?;
      assert ps[k] == init[k];
      assert forall j :: 0 <= j < k ==> ps[j] == init[j];
    } else {
      CollectSucceeds(init);
      assert forall j :: 0 <= j < m ==> ps[j] == init[j];
      assert ps[m] == Fail(Collect(ps).error);
    }
  }

  /**
   * A failed load fails on its first line with a bad tick, with the error
   * `int()` raises there; every earlier line is skipped or read.
   */
  lemma ParseLabFirstBadLine(lines: seq<string>)
    requires ParseLab(lines).Err?
    ensures exists k :: 0 <= k < |lines| && HasBadTick(lines[k])
                        && ParseLab(lines).error == BadTick(BadToken(lines[k]))
                        && forall j :: 0 <= j < k ==> !HasBadTick(lines[j])
  {
    var ps := ParseLines(lines);
    CollectFirstFail(ps);
    var k :| 0 <= k < |ps| && ps[k] == Fail(Collect(ps).error)
              && forall j :: 0 <= j < k ==> !ps[j].Fail?;
    assert ps[k] == ParseLine(lines[k]);
    ParseLineKinds(lines[k]);
    forall j | 0 <= j < k
      ensures !HasBadTick(lines[j])
    {
      assert ps[j] == ParseLine(lines[j]);
      ParseLineKinds(lines[j]);
    }
  }

  /** Loading succeeds exactly when every three-token line has integer ticks. */
  lemma ParseLabSucceeds(lines: seq<string>)
    ensures ParseLab(lines).Ok? <==> forall n :: 0 <= n < |lines| ==> !HasBadTick(lines[n])
  {
    var ps := ParseLines(lines);
    CollectSucceeds(ps);
    forall n | 0 <= n < |lines|
      ensures ps[n].Fail? <==> HasBadTick(lines[n])
    {
      assert ps[n] == ParseLine(lines[n]);
      ParseLineKinds(lines[n]);
    }
  }

  /** A line is skipped exactly when it does not have three tokens, and fails exactly on a bad tick. */
  lemma ParseLineKinds(line: string)
    ensures ParseLine(line).Skip? <==> |Tokens(line)| != 3
    ensures ParseLine(line).Fail? <==> HasBadTick(line)
    ensures HasBadTick(line) ==> ParseLine(line) == Fail(BadTick(BadToken(line)))
  {
    var parts := Tokens(line);
    if |parts| == 3 {
      var a, b := ParseInt(parts[0]), ParseInt(parts[1]);
      assert ParseLine(line) == if a.None? then Fail(BadTick(parts[0]))
        else if b.None? then Fail(BadTick(parts[1]))
        else Seg(Segment(TicksToSeconds(a.value), TicksToSeconds(b.value), parts[2]));
    }
  }

  /** Segment `s` is what the three-token line `line` describes. */
  predicate Describes(s: Segment, line: string) {
    var parts := Tokens(line);
    && |parts| == 3
    && s.phoneme == parts[2]
    && ParseInt(parts[0]).Some? && s.start * TicksPerSecond as real == ParseInt(parts[0]).value as real
    && ParseInt(parts[1]).Some? && s.end * TicksPerSecond as real == ParseInt(parts[1]).value as real
  }

  lemma ParseLineDescribes(line: string)
    requires ParseLine(line).Seg?
    ensures Describes(ParseLine(line).segment, line)
  {
    var parts := Tokens(line);
    assert ParseInt(parts[0]).Some? && ParseInt(parts[1]).Some?;
    var ps, pe := ParseInt(parts[0]).value, ParseInt(parts[1]).value;
    assert ParseLine(line).segment == Segment(TicksToSeconds(ps), TicksToSeconds(pe), parts[2]);
    TicksBack(ps);
    TicksBack(pe);
  }

  /** Seconds made from ticks turn back into the same ticks. */
  lemma TicksBack(tick: int)
    ensures TicksToSeconds(tick) * TicksPerSecond as real == tick as real
  {
  }

  /**
   * A successful load yields one segment per three-token line, in order,
   * whose label is the third token and whose times are the ticks divided
   * by 10,000,000.
   */
  lemma {:induction false} ParseLabSegments(lines: seq<string>)
    requires ParseLab(lines).Ok?
    ensures |ParseLab(lines).value| == |Accepted(lines)|
    ensures forall k :: 0 <= k < |Accepted(lines)| ==> Describes(ParseLab(lines).value[k], Accepted(lines)[k])
  {
    if lines != [] {
      var m := |lines| - 1;
      var init, last := lines[..m], lines[m];
      ParseLabStep(lines, m);
      assert lines[..m + 1] == lines;
      ParseLabSegments(init);
      var p := ParseLine(last);
      ParseLineKinds(last);
      var segs, acc := ParseLab(init).value, Accepted(init);
      if p.Seg? {
        ParseLineDescribes(last);
        assert ParseLab(lines).value == segs + [p.segment];
        assert Accepted(lines) == acc + [last];
        forall k | 0 <= k < |acc|
          ensures Describes(ParseLab(lines).value[k], Accepted(lines)[k])
        {
          assert ParseLab(lines).value[k] == segs[k] && Accepted(lines)[k] == acc[k];
        }
      } else {
        assert ParseLab(lines).value == segs;
        assert Accepted(lines) == acc + [];
      }
    }
  }

  /** Python's `int(x)` on a float: truncation toward zero. */
  function Trunc(x: real): int {
    if x >= 0.0 then x.Floor else -((-x).Floor)
  }

  /** `time_to_frame`: the index of the 5 ms frame a time in seconds falls in. */
  function TimeToFrame(t: real): int {
    Trunc(t * 1000.0 / FramePeriodMs)
  }

  /** For a non-negative time the frame is the floor: its 5 ms interval contains the time. */
  lemma TimeToFrameIsFloor(t: real)
    requires t >= 0.0
    ensures TimeToFrame(t) >= 0
    ensures TimeToFrame(t) as real * FramePeriodMs <= t * 1000.0 < (TimeToFrame(t) + 1) as real * FramePeriodMs
  {
  }

  /** Later times never map to earlier frames. */
  lemma TimeToFrameMonotone(t1: real, t2: real)
    requires t1 <= t2
    ensures TimeToFrame(t1) <= TimeToFrame(t2)
  {
  }

  /** On tick values the frame index is a whole division: 50,000 ticks per 5 ms frame. */
  lemma TickFrame(tick: nat)
    ensures TimeToFrame(TicksToSeconds(tick)) == tick / 50_000
  {
    var q, r := tick / 50_000, tick % 50_000;
    assert tick == 50_000 * q + r;
    assert TicksToSeconds(tick) * 1000.0 / FramePeriodMs == q as real + r as real / 50_000.0;
  }

  /** The frame range a segment asks for. */
  function SegmentSpan(s: Segment): Span {
    Span(TimeToFrame(s.start), TimeToFrame(s.end))
  }

  function SegmentSpans(segs: seq<Segment>): (spans: seq<Span>)
    ensures |spans| == |segs|
  {
    seq(|segs|, k requires 0 <= k < |segs| => SegmentSpan(segs[k]))
  }

  /** The label frame `i` ends up with: that of the last segment writing it, or `""`. */
  function AlignedLabel(segs: seq<Segment>, total: nat, i: int): string {
    match LastCover(SegmentSpans(segs), total, i)
    case None => ""
    case Some(k) => segs[k].phoneme
  }

  lemma AlignedLabelSnoc(segs: seq<Segment>, n: nat, total: nat, i: int)
    requires n < |segs|
    ensures AlignedLabel(segs[..n + 1], total, i)
         == if Covers(SegmentSpan(segs[n]), total, i) then segs[n].phoneme else AlignedLabel(segs[..n], total, i)
  {
    assert SegmentSpans(segs[..n + 1]) == SegmentSpans(segs[..n]) + [SegmentSpan(segs[n])];
    LastCoverSnoc(SegmentSpans(segs[..n]), SegmentSpan(segs[n]), total, i);
  }

  /**
   * `align_phonemes_to_frames`: a list of `total` labels, all `""` at first;
   * each segment in turn writes its label over `range(f1, min(f2, total))`.
   */
  method AlignPhonemes(segs: seq<Segment>, total: nat) returns (labels: seq<string>)
    requires forall k :: 0 <= k < |segs| ==> segs[k].start >= 0.0
    ensures |labels| == total
    ensures forall i :: 0 <= i < total ==> labels[i] == AlignedLabel(segs, total, i)
  {
    var phonemeSeq := new string[total](_ => "");
    for n := 0 to |segs|
      invariant forall i :: 0 <= i < total ==> phonemeSeq[i] == AlignedLabel(segs[..n], total, i)
    {
      var seg := segs[n];
      var f1 := TimeToFrame(seg.start);
      var f2 := TimeToFrame(seg.end);
      var stop := Min(f2, total);
      var i := f1;
      while i < stop
        invariant f1 <= i && (i <= stop || i == f1)
        invariant forall j :: 0 <= j < total ==>
          phonemeSeq[j] == if f1 <= j < i then seg.phoneme else AlignedLabel(segs[..n], total, j)
      {
        phonemeSeq[i] := seg.phoneme;
        i := i + 1;
      }
      forall j | 0 <= j < total
        ensures phonemeSeq[j] == AlignedLabel(segs[..n + 1], total, j)
      {
        AlignedLabelSnoc(segs, n, total, j);
      }
    }
    assert segs[..|segs|] == segs;
    labels := phonemeSeq[..];
  }

  /**
   * The last segment in input order that covers a frame decides its label,
   * whatever the segments' times; a frame no segment covers stays `""`.
   */
  lemma AlignedLabelLastWins(segs: seq<Segment>, total: nat, i: int, j: nat)
    requires j < |segs| && Covers(SegmentSpan(segs[j]), total, i)
    requires forall k :: j < k < |segs| ==> !Covers(SegmentSpan(segs[k]), total, i)
    ensures AlignedLabel(segs, total, i) == segs[j].phoneme
  {
    LastCoverUnique(SegmentSpans(segs), total, i, j);
  }

  lemma AlignedLabelUncovered(segs: seq<Segment>, total: nat, i: int)
    requires forall k :: 0 <= k < |segs| ==> !Covers(SegmentSpan(segs[k]), total, i)
    ensures AlignedLabel(segs, total, i) == ""
  {
    assert LastCover(SegmentSpans(segs), total, i).None?;
  }

  /** A segment whose first frame is not below `min(f2, total)` changes no frame. */
  lemma EmptySegmentWritesNothing(segs: seq<Segment>, s: Segment, total: nat, i: int)
    requires TimeToFrame(s.start) >= Min(TimeToFrame(s.end), total)
    ensures AlignedLabel(segs + [s], total, i) == AlignedLabel(segs, total, i)
  {
    AlignedLabelSnoc(segs + [s], |segs|, total, i);
    assert (segs + [s])[..|segs|] == segs;
    assert (segs + [s])[..|segs| + 1] == segs + [s];
  }
}

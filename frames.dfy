/**
 * The frame grid shared by the label aligner and both timeline renderers:
 * each writes, for every item of its input in order, the frames
 * `range(first, min(stop, total))` of a buffer of `total` frames, so that
 * a later item overwrites an earlier one.
 */
module Frames {
  import opened Wrappers

  function Min(a: int, b: int): int {
    if a <= b then a else b
  }

  /** The frame range `[first, stop)` an item asks to write. */
  datatype Span = Span(first: int, stop: int)

  /** Frame `i` of a buffer of `total` frames lies in `range(first, min(stop, total))`. */
  predicate Covers(span: Span, total: int, i: int) {
    span.first <= i < Min(span.stop, total)
  }

  /** The index of the last span, in input order, that writes frame `i`. */
  function LastCover(spans: seq<Span>, total: int, i: int): (r: Option<nat>)
    ensures r.Some? ==> r.value < |spans| && Covers(spans[r.value], total, i)
    ensures r.Some? ==> forall k :: r.value < k < |spans| ==> !Covers(spans[k], total, i)
    ensures r.None? <==> forall k :: 0 <= k < |spans| ==> !Covers(spans[k], total, i)
  {
    if spans == [] then None
    else if Covers(spans[|spans| - 1], total, i) then Some(|spans| - 1)
    else LastCover(spans[..|spans| - 1], total, i)
  }

  /** Appending a span either takes frame `i` over or leaves its writer alone. */
  lemma LastCoverSnoc(spans: seq<Span>, s: Span, total: int, i: int)
    ensures LastCover(spans + [s], total, i)
         == if Covers(s, total, i) then Some(|spans|) else LastCover(spans, total, i)
  {
    assert (spans + [s])[..|spans|] == spans;
  }

  /** The contract of `LastCover` pins its result down: the covering span no later span overrides. */
  lemma LastCoverUnique(spans: seq<Span>, total: int, i: int, j: nat)
    requires j < |spans| && Covers(spans[j], total, i)
    requires forall k :: j < k < |spans| ==> !Covers(spans[k], total, i)
    ensures LastCover(spans, total, i) == Some(j)
  {
  }

  /** Spans laid end to end, as a cursor that only moves forward produces them. */
  predicate Tiled(spans: seq<Span>) {
    && (forall k :: 0 <= k < |spans| ==> spans[k].first <= spans[k].stop)
    && (forall k :: 0 <= k < |spans| - 1 ==> spans[k].stop == spans[k + 1].first)
  }

  lemma {:induction false} TiledAfter(spans: seq<Span>, j: nat, k: nat)
    requires Tiled(spans)
    requires j < k < |spans|
    ensures spans[j].stop <= spans[k].first
    decreases k - j
  {
    if j + 1 < k {
      TiledAfter(spans, j + 1, k);
    }
  }

  /** With tiled spans no frame is written twice: its writer is the one span that contains it. */
  lemma TiledCover(spans: seq<Span>, total: int, i: int, j: nat)
    requires Tiled(spans)
    requires j < |spans| && Covers(spans[j], total, i)
    ensures LastCover(spans, total, i) == Some(j)
  {
    forall k | j < k < |spans|
      ensures !Covers(spans[k], total, i)
    {
      TiledAfter(spans, j, k);
    }
  }

  /** Tiled spans leave no gap: every frame from the first start to the last stop is covered. */
  lemma {:induction false} TiledCovered(spans: seq<Span>, total: int, i: int)
    requires Tiled(spans) && spans != []
    requires spans[0].first <= i < spans[|spans| - 1].stop && spans[|spans| - 1].stop <= total
    ensures exists k :: 0 <= k < |spans| && Covers(spans[k], total, i)
  {
    var m := |spans| - 1;
    if i < spans[m].first {
      var init := spans[..m];
      assert Tiled(init) && init[0] == spans[0];
      assert init[m - 1].stop == spans[m].first;
      TiledAfter(spans, m - 1, m);
      TiledCovered(init, total, i);
      var k :| 0 <= k < |init| && Covers(init[k], total, i);
      assert Covers(spans[k], total, i);
    } else {
      assert Covers(spans[m], total, i);
    }
  }

  /** What a renderer writes into one frame: F0, spectral envelope and aperiodicity. */
  datatype Paint = Paint(f0: real, sp: seq<real>, ap: seq<real>)

  function Zeros(n: nat): (v: seq<real>)
    ensures |v| == n && forall j :: 0 <= j < n ==> v[j] == 0.0
  {
    seq(n, _ => 0.0)
  }

  /** An untouched row of the zero-filled `np.zeros` buffers of width `width`. */
  function Blank(width: nat): Paint {
    Paint(0.0, Zeros(width), Zeros(width))
  }

  /** Frame `i` after painting `paints[k]` over `spans[k]` for every `k` in order. */
  function PaintAt(spans: seq<Span>, paints: seq<Paint>, total: int, width: nat, i: int): Paint
    requires |paints| == |spans|
  {
    match LastCover(spans, total, i)
    case None => Blank(width)
    case Some(k) => paints[k]
  }

  lemma PaintAtSnoc(spans: seq<Span>, paints: seq<Paint>, s: Span, p: Paint, total: int, width: nat, i: int)
    requires |paints| == |spans|
    ensures PaintAt(spans + [s], paints + [p], total, width, i)
         == if Covers(s, total, i) then p else PaintAt(spans, paints, total, width, i)
  {
    LastCoverSnoc(spans, s, total, i);
  }

  /**
   * numpy's `buf[first:stop] = x` with `0 <= first` and `stop <= len(buf)`:
   * the slice is empty when `stop <= first`, and nothing else changes.
   */
  method FillSlice<T>(buf: array<T>, first: int, stop: int, x: T)
    requires 0 <= first && stop <= buf.Length
    modifies buf
    ensures forall i :: 0 <= i < buf.Length ==> buf[i] == if first <= i < stop then x else old(buf[i])
  {
    var i := first;
    while i < stop
      invariant first <= i && (i <= stop || i == first)
      invariant forall j :: 0 <= j < buf.Length ==> buf[j] == if first <= j < i then x else old(buf[j])
    {
      buf[i] := x;
      i := i + 1;
    }
  }
}

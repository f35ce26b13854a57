/**
 * Falling-sands drawing: a draw memo's strokes become `paint` calls on the
 * universe with clamped coordinates and brush size, and the transaction
 * feed is consumed through a cursor so each transaction is drawn once.
 */
module SandDraw {
  import opened Options
  import opened JsValues
  import SandFrames

  const MIN_BRUSH: int := 1
  const MAX_BRUSH: int := 20
  /** A stroke is `[x1, y1, x2, y2, size, species]`. */
  const STROKE_FIELDS: nat := 6

  /** A point produced by the stroke interpolation (`Math.round` results). */
  datatype Point = Point(x: Number, y: Number)

  /** One `universe.paint(x, y, size, species)` call. */
  datatype Paint = Paint(x: int, y: int, size: int, species: int)

  /** The stroke interpolation, which works on floating point and is a parameter here. */
  type Interpolation = seq<Json> -> seq<Point>

  predicate IsDrawMemo(memo: Json)
  {
    Get(memo, "app") == Str("falling-sands") && Get(memo, "type") == Str("draw") && Get(memo, "s").Arr?
  }

  /** A paint call inside the grid with a brush size in range. */
  predicate InGrid(p: Paint)
  {
    0 <= p.x < SandFrames.WIDTH && 0 <= p.y < SandFrames.HEIGHT
    && MIN_BRUSH <= p.size <= MAX_BRUSH && -TWO_31 <= p.species < TWO_31
  }

  function PaintAt(pt: Point, size: int, species: int): Paint
  {
    Paint(Clamp(ToInt32(pt.x), 0, SandFrames.WIDTH - 1), Clamp(ToInt32(pt.y), 0, SandFrames.HEIGHT - 1), size, species)
  }

  function PointPaints(pts: seq<Point>, size: int, species: int): (r: seq<Paint>)
    ensures |r| == |pts|
    ensures forall k :: 0 <= k < |r| ==> r[k] == PaintAt(pts[k], size, species)
    decreases |pts|
  {
    if pts == [] then [] else PointPaints(pts[..|pts| - 1], size, species) + [PaintAt(pts[|pts| - 1], size, species)]
  }

  /** A stroke that is an array of at least six values is painted; anything else is skipped. */
  predicate IsStroke(seg: Json)
  {
    seg.Arr? && |seg.items| >= STROKE_FIELDS
  }

  function StrokeSize(seg: Json): int
    requires IsStroke(seg)
  {
    Clamp(ToInt32(ToNumber(seg.items[4])), MIN_BRUSH, MAX_BRUSH)
  }

  function StrokeSpecies(seg: Json): int
    requires IsStroke(seg)
  {
    ToInt32(ToNumber(seg.items[5]))
  }

  function StrokePaints(seg: Json, interpolate: Interpolation): seq<Paint>
  {
    if !IsStroke(seg) then []
    else PointPaints(interpolate(seg.items), StrokeSize(seg), StrokeSpecies(seg))
  }

  function StrokesPaints(strokes: seq<Json>, interpolate: Interpolation): seq<Paint>
    decreases |strokes|
  {
    if strokes == [] then []
    else StrokesPaints(strokes[..|strokes| - 1], interpolate) + StrokePaints(strokes[|strokes| - 1], interpolate)
  }

  /** Everything a memo paints (nothing unless it is a draw memo). */
  function MemoPaints(memo: Json, interpolate: Interpolation): seq<Paint>
  {
    if IsDrawMemo(memo) then StrokesPaints(Get(memo, "s").items, interpolate) else []
  }

  /** Every paint call of a memo lies in the grid with a brush of 1 to 20. */
  lemma {:induction false} StrokesInGrid(strokes: seq<Json>, interpolate: Interpolation)
    ensures forall p :: p in StrokesPaints(strokes, interpolate) ==> InGrid(p)
    decreases |strokes|
  {
    if strokes != [] {
      StrokesInGrid(strokes[..|strokes| - 1], interpolate);
    }
  }

  lemma MemoInGrid(memo: Json, interpolate: Interpolation)
    ensures forall p :: p in MemoPaints(memo, interpolate) ==> InGrid(p)
  {
    if IsDrawMemo(memo) {
      StrokesInGrid(Get(memo, "s").items, interpolate);
    }
  }

  /** A stroke shorter than six values adds no paint call. */
  lemma ShortStrokeSkipped(strokes: seq<Json>, seg: Json, interpolate: Interpolation)
    requires !IsStroke(seg)
    ensures StrokesPaints(strokes + [seg], interpolate) == StrokesPaints(strokes, interpolate)
  {
    assert (strokes + [seg])[..|strokes|] == strokes;
  }

  /** A point inside the grid is painted exactly where it is. */
  lemma InsidePointUnmoved(x: int, y: int, size: int, species: int)
    requires 0 <= x < SandFrames.WIDTH && 0 <= y < SandFrames.HEIGHT
    ensures PaintAt(Point(Int(x), Int(y)), size, species) == Paint(x, y, size, species)
  {
  }

  /** The inner loop of `applyDrawMemo` for one stroke. */
  method PaintStroke(seg: Json, interpolate: Interpolation) returns (paints: seq<Paint>)
    ensures paints == StrokePaints(seg, interpolate)
  {
    paints := [];
    if !seg.Arr? || |seg.items| < STROKE_FIELDS {
      return;
    }
    var species := ToInt32(ToNumber(seg.items[5]));
    var size := Clamp(ToInt32(ToNumber(seg.items[4])), MIN_BRUSH, MAX_BRUSH);
    var pts := interpolate(seg.items);
    var j := 0;
    while j < |pts|
      invariant 0 <= j <= |pts|
      invariant paints == PointPaints(pts[..j], size, species)
    {
      assert pts[..j + 1][..j] == pts[..j];
      var x := Clamp(ToInt32(pts[j].x), 0, SandFrames.WIDTH - 1);
      var y := Clamp(ToInt32(pts[j].y), 0, SandFrames.HEIGHT - 1);
      paints := paints + [Paint(x, y, size, species)];
      j := j + 1;
    }
    assert pts[..j] == pts;
  }

  /** The outer loop of `applyDrawMemo`, stroke by stroke. */
  method PaintStrokes(strokes: seq<Json>, interpolate: Interpolation) returns (paints: seq<Paint>)
    ensures paints == StrokesPaints(strokes, interpolate)
  {
    paints := [];
    var i := 0;
    while i < |strokes|
      invariant 0 <= i <= |strokes|
      invariant paints == StrokesPaints(strokes[..i], interpolate)
    {
      assert strokes[..i + 1][..i] == strokes[..i];
      var drawn := PaintStroke(strokes[i], interpolate);
      paints := paints + drawn;
      i := i + 1;
    }
    assert strokes[..i] == strokes;
  }

  /** `applyDrawMemo`: false for anything but a draw memo, else every stroke is painted. */
  method ApplyDrawMemo(memo: Json, interpolate: Interpolation) returns (applied: bool, paints: seq<Paint>)
    ensures applied == IsDrawMemo(memo)
    ensures paints == MemoPaints(memo, interpolate)
  {
    if !IsDrawMemo(memo) {
      return false, [];
    }
    paints := PaintStrokes(Get(memo, "s").items, interpolate);
    applied := true;
  }

  /** A transaction of the mock store; only its memo is read. */
  datatype MockTx = MockTx(memo: Json, fromPubkey: Json)

  /** One transaction: a falsy memo is skipped, a memo that does not parse is skipped. */
  function TxPaints(tx: MockTx, parse: string -> Option<Json>, interpolate: Interpolation): seq<Paint>
  {
    if !Truthy(tx.memo) then []
    else
      var parsed := parse(ToStr(tx.memo));
      if parsed.None? then [] else MemoPaints(parsed.value, interpolate)
  }

  /** The paints of the transactions from index `from` to the end, in order. */
  function FeedPaints(txs: seq<MockTx>, from: nat, parse: string -> Option<Json>, interpolate: Interpolation): seq<Paint>
    decreases |txs|
  {
    if |txs| <= from then []
    else FeedPaints(txs[..|txs| - 1], from, parse, interpolate) + TxPaints(txs[|txs| - 1], parse, interpolate)
  }

  /** A feed that grew is drawn only from where the cursor stopped: each transaction once. */
  lemma {:induction false} FeedExactlyOnce(txs: seq<MockTx>, more: seq<MockTx>, parse: string -> Option<Json>, interpolate: Interpolation)
    ensures FeedPaints(txs + more, |txs|, parse, interpolate) == FeedPaints(more, 0, parse, interpolate)
    decreases |more|
  {
    if more == [] {
      assert txs + more == txs;
    } else {
      var init := more[..|more| - 1];
      assert (txs + more)[..|txs + more| - 1] == txs + init;
      FeedExactlyOnce(txs, init, parse, interpolate);
    }
  }

  /** Nothing new: nothing drawn. */
  lemma FeedNothingNew(txs: seq<MockTx>, parse: string -> Option<Json>, interpolate: Interpolation)
    ensures FeedPaints(txs, |txs|, parse, interpolate) == []
  {
  }

  /** One more transaction drawn adds its paints at the end. */
  lemma FeedPaintsStep(txs: seq<MockTx>, from: nat, i: nat, parse: string -> Option<Json>, interpolate: Interpolation)
    requires from <= i < |txs|
    ensures FeedPaints(txs[..i + 1], from, parse, interpolate)
      == FeedPaints(txs[..i], from, parse, interpolate) + TxPaints(txs[i], parse, interpolate)
  {
    assert txs[..i + 1][..i] == txs[..i];
  }

  /** Draws the transactions from index `from` to the end, in order. */
  method DrawFrom(txs: seq<MockTx>, from: nat, parse: string -> Option<Json>, interpolate: Interpolation)
    returns (paints: seq<Paint>)
    ensures paints == FeedPaints(txs, from, parse, interpolate)
  {
    paints := [];
    if |txs| <= from {
      return;
    }
    var i := from;
    while i < |txs|
      invariant from <= i <= |txs|
      invariant paints == FeedPaints(txs[..i], from, parse, interpolate)
    {
      FeedPaintsStep(txs, from, i, parse, interpolate);
      var tx := txs[i];
      if Truthy(tx.memo) {
        var memo := parse(ToStr(tx.memo));
        if memo.Some? {
          var _, drawn := ApplyDrawMemo(memo.value, interpolate);
          paints := paints + drawn;
        }
      }
      i := i + 1;
    }
    assert txs[..i] == txs;
  }

  /** The draw cursor: the index of the first transaction not yet drawn. */
  class DrawFeed {
    var lastProcessedTxIdx: nat

    constructor ()
      ensures lastProcessedTxIdx == 0
    {
      lastProcessedTxIdx := 0;
    }

    /**
     * `processMockTransactions` / `processDrawings`: draws every transaction
     * from the cursor to the end in order, then moves the cursor to the end.
     */
    method Process(txs: seq<MockTx>, parse: string -> Option<Json>, interpolate: Interpolation)
      returns (paints: seq<Paint>)
      modifies this
      ensures lastProcessedTxIdx == |txs|
      ensures paints == FeedPaints(txs, old(lastProcessedTxIdx), parse, interpolate)
    {
      paints := DrawFrom(txs, lastProcessedTxIdx, parse, interpolate);
      lastProcessedTxIdx := |txs|;
    }
  }
}

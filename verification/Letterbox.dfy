/** Putting a turned picture into the output buffer: a background, then the fitted
    rows (host-rs/src/video/pixels.rs:97-130). The scaler is not part of this model;
    its result arrives as `fitted`. */
module Letterbox {
  import opened Arithmetic
  import opened Basics
  import opened Bytes
  import Fit
  import opened Flips

  function Depth(layout: Layout): nat { if layout.Rgba? then 4 else 2 }

  /** The buffer holds whole strides, as the sinks report their sizes. */
  predicate Holds(p: Picture, len: nat) {
    0 < p.stride && RowBytes(p) <= p.stride && p.height * p.stride <= len
  }

  /** The rectangle is inside the output. */
  predicate Inside(p: Picture, rect: Fit.Rect) {
    rect.x + rect.width <= p.width && rect.y + rect.height <= p.height
  }

  predicate Covers(p: Picture, rect: Fit.Rect, row: nat, col: nat) {
    && rect.y <= row < rect.y + rect.height
    && Depth(p.layout) * rect.x <= col < Depth(p.layout) * (rect.x + rect.width)
  }

  // ----- Background -----

  /** What the two fills leave at position `i`. Opaque black for RGBA is laid out by
      absolute position, black for YUYV by column; padding becomes 128 there. */
  function Background(p: Picture, i: nat): u8
    requires p.stride > 0
  {
    if p.layout.Rgba? then if i % 4 == 3 then 255 else 0
    else if RowOf(p, i) < p.height && ColumnOf(p, i) < RowBytes(p) && ColumnOf(p, i) % 2 == 0 then 16
    else 128
  }

  /** The same with the lumas of rows before `y`, and of columns before `x` in row `y`. */
  function LumaFill(p: Picture, y: nat, x: nat, i: nat): u8
    requires p.stride > 0
  {
    var row, col := RowOf(p, i), ColumnOf(p, i);
    if col < RowBytes(p) && col % 2 == 0 && (row < y || (row == y && col < x)) then 16 else 128
  }

  method FillBackground(bytes: array<u8>, p: Picture)
    requires Holds(p, bytes.Length)
    modifies bytes
    ensures forall i :: 0 <= i < bytes.Length ==> bytes[i] == Background(p, i)
  {
    if p.layout.Rgba? {
      forall i | 0 <= i < bytes.Length { bytes[i] := 0; }
      var alpha := 3;
      while alpha < bytes.Length
        invariant alpha % 4 == 3 && alpha >= 3
        invariant forall i :: 0 <= i < bytes.Length ==> bytes[i] == if i % 4 == 3 && i < alpha then 255 else 0
      {
        bytes[alpha] := 255;
        alpha := alpha + 4;
      }
    } else {
      forall i | 0 <= i < bytes.Length { bytes[i] := 128; }
      var y := 0;
      hide LumaFill;
      forall i: nat ensures LumaFill(p, 0, 0, i) == 128 { FillNext(p, 0, i); }
      while y < p.height
        invariant 0 <= y <= p.height
        invariant forall i :: 0 <= i < bytes.Length ==> bytes[i] == LumaFill(p, y, 0, i)
      {
        FillRow(bytes, p, y);
        y := y + 1;
      }
      forall i: nat ensures LumaFill(p, p.height, 0, i) == Background(p, i) { FillNext(p, p.height, i); }
    }
  }

  method FillRow(bytes: array<u8>, p: Picture, y: nat)
    requires Holds(p, bytes.Length) && y < p.height && p.layout.Yuyv?
    requires forall i :: 0 <= i < bytes.Length ==> bytes[i] == LumaFill(p, y, 0, i)
    modifies bytes
    ensures forall i :: 0 <= i < bytes.Length ==> bytes[i] == LumaFill(p, y + 1, 0, i)
  {
    hide LumaFill;
    RowsFit(y, p.stride, p.height);
    var x := 0;
    while x < RowBytes(p)
      invariant 0 <= x <= RowBytes(p) && x % 2 == 0
      invariant forall i :: 0 <= i < bytes.Length ==> bytes[i] == LumaFill(p, y, x, i)
    {
      ghost var now := bytes[..];
      var at := y * p.stride + x;
      bytes[at] := 16;
      forall i | 0 <= i < bytes.Length ensures bytes[i] == LumaFill(p, y, x + 2, i) {
        FillStep(p, y, x, i);
        assert i != at ==> bytes[i] == now[i];
      }
      x := x + 2;
    }
    forall i: nat ensures LumaFill(p, y, RowBytes(p), i) == LumaFill(p, y + 1, 0, i) { FillNext(p, y, i); }
  }

  lemma FillStep(p: Picture, y: nat, x: nat, i: nat)
    requires p.stride > 0 && RowBytes(p) <= p.stride && x % 2 == 0 && x < RowBytes(p)
    ensures LumaFill(p, y, x + 2, i) == if i == Place(p, y, x) then 16 else LumaFill(p, y, x, i)
    ensures Place(p, y, x) == y * p.stride + x
  {
    PlaceSplits(p, y, x);
    Splits(p, i);
    hide RowOf, ColumnOf;
  }

  lemma FillNext(p: Picture, y: nat, i: nat)
    requires p.stride > 0 && RowBytes(p) <= p.stride
    ensures LumaFill(p, y, RowBytes(p), i) == LumaFill(p, y + 1, 0, i)
    ensures LumaFill(p, 0, 0, i) == 128
    ensures p.layout.Yuyv? ==> LumaFill(p, p.height, 0, i) == Background(p, i)
  {
    hide RowOf, ColumnOf, RowBytes;
  }

  // ----- Rows -----

  /** A scaled picture, at least as many rows and bytes as the rectangle needs. */
  datatype Scaled = Scaled(bytes: bytes, stride: nat)

  predicate Supplies(fitted: Scaled, p: Picture, rect: Fit.Rect) {
    && Depth(p.layout) * rect.width <= fitted.stride
    && rect.height * fitted.stride <= |fitted.bytes|
  }

  /** The canvas with the first `rows` rows of the picture in place. */
  function Canvas(fitted: Scaled, p: Picture, rect: Fit.Rect, rows: nat, i: nat): u8
    requires p.stride > 0
  {
    var row, col := RowOf(p, i), ColumnOf(p, i);
    if Covers(p, rect, row, col) && row < rect.y + rows then
      Get(fitted.bytes, (row - rect.y) * fitted.stride + (col - Depth(p.layout) * rect.x))
    else Background(p, i)
  }

  /** MAIN RESULT: with a rectangle inside the output every copy stays in bounds;
      afterwards each position shows the scaled picture inside the rectangle and the
      background everywhere else. */
  method Compose(bytes: array<u8>, p: Picture, rect: Fit.Rect, fitted: Scaled)
    requires Holds(p, bytes.Length) && Inside(p, rect) && Supplies(fitted, p, rect)
    modifies bytes
    ensures forall i :: 0 <= i < bytes.Length ==> bytes[i] == Canvas(fitted, p, rect, rect.height, i)
  {
    hide Canvas, Background;
    FillBackground(bytes, p);
    forall i: nat ensures Canvas(fitted, p, rect, 0, i) == Background(p, i) { CanvasEmpty(fitted, p, rect, i); }
    var y := 0;
    while y < rect.height
      invariant 0 <= y <= rect.height
      invariant forall i :: 0 <= i < bytes.Length ==> bytes[i] == Canvas(fitted, p, rect, y, i)
    {
      CopyRow(bytes, p, rect, fitted, y);
      y := y + 1;
    }
  }

  lemma CanvasEmpty(fitted: Scaled, p: Picture, rect: Fit.Rect, i: nat)
    requires p.stride > 0
    ensures Canvas(fitted, p, rect, 0, i) == Background(p, i)
  {
    hide RowOf, ColumnOf, Background;
  }

  method CopyRow(bytes: array<u8>, p: Picture, rect: Fit.Rect, fitted: Scaled, y: nat)
    requires Holds(p, bytes.Length) && Inside(p, rect) && Supplies(fitted, p, rect) && y < rect.height
    requires forall i :: 0 <= i < bytes.Length ==> bytes[i] == Canvas(fitted, p, rect, y, i)
    modifies bytes
    ensures forall i :: 0 <= i < bytes.Length ==> bytes[i] == Canvas(fitted, p, rect, y + 1, i)
  {
    hide Canvas, Background, Covers;
    ghost var now := bytes[..];
    RowReaches(p, rect, fitted, bytes.Length, y);
    var from, at := y * fitted.stride, (y + rect.y) * p.stride + rect.x * Depth(p.layout);
    Paste(bytes, at, fitted.bytes[from..from + rect.width * Depth(p.layout)]);
    RowPasted(now, bytes[..], p, rect, fitted, y, from, at);
  }

  lemma RowPasted(now: bytes, next: bytes, p: Picture, rect: Fit.Rect, fitted: Scaled, y: nat, from: nat, at: nat)
    requires p.stride > 0 && RowBytes(p) <= p.stride && Inside(p, rect) && y < rect.height && Supplies(fitted, p, rect)
    requires from == y * fitted.stride && at == (y + rect.y) * p.stride + rect.x * Depth(p.layout)
    requires from + rect.width * Depth(p.layout) <= |fitted.bytes| && |next| == |now|
    requires forall i :: 0 <= i < |now| ==> now[i] == Canvas(fitted, p, rect, y, i)
    requires var row := fitted.bytes[from..from + rect.width * Depth(p.layout)];
             forall i :: 0 <= i < |next| ==> next[i] == if at <= i < at + |row| then row[i - at] else now[i]
    ensures forall i :: 0 <= i < |next| ==> next[i] == Canvas(fitted, p, rect, y + 1, i)
  {
    hide Canvas, Depth, Supplies, Inside, RowBytes;
    forall i | 0 <= i < |next| ensures next[i] == Canvas(fitted, p, rect, y + 1, i) {
      CanvasStep(fitted, p, rect, y, from, at, i);
    }
  }

  method Paste(bytes: array<u8>, at: nat, row: bytes)
    requires at + |row| <= bytes.Length
    modifies bytes
    ensures forall i :: 0 <= i < bytes.Length ==> bytes[i] == if at <= i < at + |row| then row[i - at]
        else old(bytes[i])
  {
    var k := 0;
    while k < |row|
      invariant 0 <= k <= |row|
      invariant forall i :: 0 <= i < bytes.Length ==> bytes[i] == if at <= i < at + k then row[i - at]
        else old(bytes[i])
    {
      bytes[at + k] := row[k];
      k := k + 1;
    }
  }

  lemma RowReaches(p: Picture, rect: Fit.Rect, fitted: Scaled, len: nat, y: nat)
    requires Holds(p, len) && Inside(p, rect) && Supplies(fitted, p, rect) && y < rect.height
    ensures y * fitted.stride + rect.width * Depth(p.layout) <= |fitted.bytes|
    ensures (y + rect.y) * p.stride + rect.x * Depth(p.layout) + rect.width * Depth(p.layout) <= len
  {
    RowsFit(y, fitted.stride, rect.height);
    RowsFit(y + rect.y, p.stride, p.height);
  }

  lemma CanvasStep(fitted: Scaled, p: Picture, rect: Fit.Rect, y: nat, from: nat, at: nat, i: nat)
    requires p.stride > 0 && RowBytes(p) <= p.stride && Inside(p, rect) && y < rect.height && Supplies(fitted, p, rect)
    requires from == y * fitted.stride && at == (y + rect.y) * p.stride + rect.x * Depth(p.layout)
    requires from + rect.width * Depth(p.layout) <= |fitted.bytes|
    ensures Canvas(fitted, p, rect, y + 1, i)
            == if at <= i < at + rect.width * Depth(p.layout) then fitted.bytes[from + (i - at)]
               else Canvas(fitted, p, rect, y, i)
  {
    Splits(p, i);
    if at <= i < at + rect.width * Depth(p.layout) {
      var col := i - (y + rect.y) * p.stride;
      PlaceSplits(p, y + rect.y, col);
      assert i == Place(p, y + rect.y, col);
    }
    hide RowOf, ColumnOf, Background;
  }

  // ----- What the canvas shows -----

  /** The whole step, with the rectangle the program computes: it is always inside. */
  lemma FittedIsInside(p: Picture, width: nat, height: nat)
    requires Fit.FitRect(width, height, p.width, p.height).Ok?
    ensures Inside(p, Fit.FitRect(width, height, p.width, p.height).value)
  {
    Fit.FitIsTight(width, height, p.width, p.height);
  }

  /** Whether pixel (x, y) is black: luma 16 with neutral chroma, or opaque black. */
  predicate BlackAt(fitted: Scaled, p: Picture, rect: Fit.Rect, x: nat, y: nat)
    requires p.stride > 0
  {
    var at := Place(p, y, Depth(p.layout) * x);
    if p.layout.Yuyv? then Shown(fitted, p, rect, at) == 16 && Shown(fitted, p, rect, at + 1) == 128
    else
      && Shown(fitted, p, rect, at) == 0 && Shown(fitted, p, rect, at + 1) == 0
      && Shown(fitted, p, rect, at + 2) == 0 && Shown(fitted, p, rect, at + 3) == 255
  }

  function Shown(fitted: Scaled, p: Picture, rect: Fit.Rect, i: nat): u8
    requires p.stride > 0
  {
    Canvas(fitted, p, rect, rect.height, i)
  }

  /** MAIN RESULT: inside the rectangle pixel (x, y) of the scaled picture shows, byte by
      byte, at that offset from the rectangle's corner. */
  lemma PictureIsPlaced(fitted: Scaled, p: Picture, rect: Fit.Rect, depth: nat, x: nat, y: nat, c: nat)
    requires 0 < p.stride && RowBytes(p) <= p.stride && Inside(p, rect) && Supplies(fitted, p, rect)
    requires depth == (if p.layout.Rgba? then 4 else 2) && x < rect.width && y < rect.height && c < depth
    ensures && y * fitted.stride + depth * x + c < |fitted.bytes|
            && Shown(fitted, p, rect, (rect.y + y) * p.stride + depth * (rect.x + x) + c)
               == fitted.bytes[y * fitted.stride + depth * x + c]
  {
    SuppliedByte(fitted, p, rect, depth, x, y, c);
    PlacedBytes(fitted, p, rect, depth, x, y, c);
    hide Shown, RowBytes, Inside, Supplies;
  }

  lemma SuppliedByte(fitted: Scaled, p: Picture, rect: Fit.Rect, depth: nat, x: nat, y: nat, c: nat)
    requires Supplies(fitted, p, rect) && depth == Depth(p.layout) && x < rect.width && y < rect.height && c < depth
    ensures y * fitted.stride + depth * x + c < |fitted.bytes|
  {
    RowsFit(y, fitted.stride, rect.height);
  }

  lemma PlacedBytes(fitted: Scaled, p: Picture, rect: Fit.Rect, depth: nat, x: nat, y: nat, c: nat)
    requires 0 < p.stride && RowBytes(p) <= p.stride && Inside(p, rect) && depth == Depth(p.layout) && c < depth
    requires x < rect.width && y < rect.height
    ensures Shown(fitted, p, rect, (rect.y + y) * p.stride + depth * (rect.x + x) + c)
         == Get(fitted.bytes, y * fitted.stride + depth * x + c)
  {
    var col := depth * (rect.x + x) + c;
    assert col < RowBytes(p) && col - depth * rect.x == depth * x + c;
    PlaceSplits(p, rect.y + y, col);
    PlacedAt(fitted, p, rect, rect.y + y, col);
    hide Shown, RowOf, ColumnOf;
  }

  lemma PlacedAt(fitted: Scaled, p: Picture, rect: Fit.Rect, row: nat, col: nat)
    requires p.stride > 0 && Covers(p, rect, row, col) && col < p.stride
    requires RowOf(p, Place(p, row, col)) == row && ColumnOf(p, Place(p, row, col)) == col
    ensures Shown(fitted, p, rect, Place(p, row, col))
         == Get(fitted.bytes, (row - rect.y) * fitted.stride + (col - Depth(p.layout) * rect.x))
  {
    hide RowOf, ColumnOf, Background;
  }

  /** MAIN RESULT: outside the rectangle every YUYV pixel is black whatever the row
      length; for RGBA that holds in a row exactly when the row starts on a multiple
      of four, since the alpha bytes are laid out by absolute position. */
  lemma BackgroundIsBlack(fitted: Scaled, p: Picture, rect: Fit.Rect, x: nat, y: nat)
    requires p.stride > 0 && RowBytes(p) <= p.stride && x < p.width && y < p.height
    requires !(rect.y <= y < rect.y + rect.height && rect.x <= x < rect.x + rect.width)
    ensures BlackAt(fitted, p, rect, x, y) <==> p.layout.Yuyv? || y * p.stride % 4 == 0
  {
    var at := Place(p, y, Depth(p.layout) * x);
    OutsideAt(fitted, p, rect, x, y, 0);
    OutsideAt(fitted, p, rect, x, y, 1);
    if p.layout.Rgba? {
      OutsideAt(fitted, p, rect, x, y, 2);
      OutsideAt(fitted, p, rect, x, y, 3);
      OpaqueAt(p, y * p.stride, x);
    } else {
      NeutralAt(p, x, y);
    }
    hide Shown, Background;
  }

  lemma OpaqueAt(p: Picture, row: nat, x: nat)
    requires p.layout.Rgba? && p.stride > 0
    ensures (Background(p, row + 4 * x) == 0 && Background(p, row + 4 * x + 1) == 0
        && Background(p, row + 4 * x + 2) == 0
             && Background(p, row + 4 * x + 3) == 255) <==> row % 4 == 0
  {
  }

  lemma NeutralAt(p: Picture, x: nat, y: nat)
    requires p.layout.Yuyv? && p.stride > 0 && RowBytes(p) <= p.stride && x < p.width && y < p.height
    ensures Background(p, Place(p, y, 2 * x)) == 16 && Background(p, Place(p, y, 2 * x + 1)) == 128
    ensures Place(p, y, 2 * x + 1) == Place(p, y, 2 * x) + 1
  {
    PlaceSplits(p, y, 2 * x);
    PlaceSplits(p, y, 2 * x + 1);
    hide RowOf, ColumnOf;
  }

  lemma OutsideAt(fitted: Scaled, p: Picture, rect: Fit.Rect, x: nat, y: nat, c: nat)
    requires p.stride > 0 && RowBytes(p) <= p.stride && x < p.width && y < p.height && c < Depth(p.layout)
    requires !(rect.y <= y < rect.y + rect.height && rect.x <= x < rect.x + rect.width)
    ensures Place(p, y, Depth(p.layout) * x + c) == Place(p, y, Depth(p.layout) * x) + c
    ensures Shown(fitted, p, rect, Place(p, y, Depth(p.layout) * x) + c)
            == Background(p, Place(p, y, Depth(p.layout) * x) + c)
  {
    PlaceSplits(p, y, Depth(p.layout) * x + c);
    hide Background, RowOf, ColumnOf;
  }
}

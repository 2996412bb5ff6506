/** Turning an RGB picture (host-rs/src/video/transform.rs:33-70,
    host/src/image_transform.cpp:10-18, 55-65, 89-139).

    Each row occupies `stride` bytes, of which the first three per pixel are picture
    and the rest padding. */
module Rotate {
  import opened Arithmetic
  import opened Basics
  import opened Bytes

  /** A picture's measures: `width` by `height` pixels, `stride` bytes to a row. */
  datatype Shape = Shape(width: nat, height: nat, stride: nat)

  predicate Quarter(angle: u16) { angle == 90 || angle == 270 }

  predicate Known(angle: u16) { angle == 0 || angle == 90 || angle == 180 || angle == 270 }

  /** The turned picture's measures. */
  function Turned(from: Shape, outStride: nat, angle: u16): Shape {
    if Quarter(angle) then Shape(from.height, from.width, outStride) else Shape(from.width, from.height, outStride)
  }

  /** Where pixel (x, y) goes. */
  function Turn(from: Shape, angle: u16, x: nat, y: nat): (nat, nat)
    requires x < from.width && y < from.height
  {
    if angle == 0 then (x, y)
    else if angle == 90 then (from.height - y - 1, x)
    else if angle == 180 then (from.width - x - 1, from.height - y - 1)
    else (y, from.width - x - 1)
  }

  /** Where the turned picture's pixel (dx, dy) comes from. */
  function Back(from: Shape, angle: u16, dx: nat, dy: nat): (nat, nat)
    requires Known(angle) && dx < Turned(from, 0, angle).width && dy < Turned(from, 0, angle).height
  {
    if angle == 0 then (dx, dy)
    else if angle == 90 then (dy, from.height - dx - 1)
    else if angle == 180 then (from.width - dx - 1, from.height - dy - 1)
    else (from.width - dy - 1, dx)
  }

  lemma BackOfTurn(from: Shape, angle: u16, x: nat, y: nat)
    requires Known(angle) && x < from.width && y < from.height
    ensures var d, to := Turn(from, angle, x, y), Turned(from, 0, angle);
            d.0 < to.width && d.1 < to.height && Back(from, angle, d.0, d.1) == (x, y)
  {
  }

  lemma TurnOfBack(from: Shape, angle: u16, dx: nat, dy: nat)
    requires Known(angle) && dx < Turned(from, 0, angle).width && dy < Turned(from, 0, angle).height
    ensures var s := Back(from, angle, dx, dy);
            s.0 < from.width && s.1 < from.height && Turn(from, angle, s.0, s.1) == (dx, dy)
  {
  }

  // ----- Bytes of a picture -----

  predicate Fits(shape: Shape, len: nat) {
    shape.width > 0 && shape.height > 0 && shape.stride >= 3 * shape.width && shape.height * shape.stride <= len
  }

  /** Where byte `c` of pixel (x, y) is. */
  function At(shape: Shape, x: nat, y: nat, c: nat): nat { y * shape.stride + 3 * x + c }

  /** What position `i` holds: byte `c` of pixel (x, y), or padding when x is past the row. */
  datatype Spot = Spot(x: nat, y: nat, c: nat)

  function SpotOf(shape: Shape, i: nat): Spot
    requires shape.stride > 0
  {
    Spot(i % shape.stride / 3, i / shape.stride, i % shape.stride % 3)
  }

  predicate Inside(shape: Shape, i: nat)
    requires shape.stride > 0
  {
    SpotOf(shape, i).y < shape.height && SpotOf(shape, i).x < shape.width
  }

  lemma SpotOfAt(shape: Shape, x: nat, y: nat, c: nat)
    requires x < shape.width && y < shape.height && c < 3 && shape.stride >= 3 * shape.width
    ensures SpotOf(shape, At(shape, x, y, c)) == Spot(x, y, c)
    ensures At(shape, x, y, c) == At(shape, x, y, 0) + c && At(shape, x, y, 0) + 3 <= shape.height * shape.stride
  {
    RowsFit(y, shape.stride, shape.height);
    Unique(y * shape.stride + (3 * x + c), shape.stride, y, 3 * x + c);
  }

  lemma AtOfSpot(shape: Shape, i: nat)
    requires shape.stride > 0
    ensures var s := SpotOf(shape, i); At(shape, s.x, s.y, s.c) == i && s.c < 3
  {
  }

  function ByteAt(bytes: bytes, shape: Shape, x: nat, y: nat, c: nat): u8
    requires Fits(shape, |bytes|) && x < shape.width && y < shape.height && c < 3
  {
    SpotOfAt(shape, x, y, c);
    bytes[At(shape, x, y, c)]
  }

  // ----- The rotated buffer -----

  /** Pixel (x, y)'s place in reading order. */
  function InOrder(shape: Shape, x: nat, y: nat): nat { y * shape.width + x }

  /** The source pixel that position `i` of the destination shows, in reading order. */
  function Origin(from: Shape, to: Shape, angle: u16, i: nat): (n: nat)
    requires Known(angle) && to == Turned(from, to.stride, angle) && to.stride > 0 && Inside(to, i)
  {
    var spot := SpotOf(to, i);
    var (x, y) := Back(from, angle, spot.x, spot.y);
    InOrder(from, x, y)
  }

  /** The source byte that position `i` shows. */
  function Shown(source: bytes, from: Shape, to: Shape, angle: u16, i: nat): u8
    requires Known(angle) && to == Turned(from, to.stride, angle) && Fits(from, |source|) && to.stride > 0
        && Inside(to, i)
  {
    var spot := SpotOf(to, i);
    var (x, y) := Back(from, angle, spot.x, spot.y);
    TurnOfBack(from, angle, spot.x, spot.y);
    AtOfSpot(to, i);
    ByteAt(source, from, x, y, spot.c)
  }

  /** The destination once the first `done` source pixels have been copied: each
      picture byte from its origin, every other byte as it was. */
  function Copied(source: bytes, from: Shape, old_: bytes, to: Shape, angle: u16, done: nat, i: nat): u8
    requires Known(angle) && to == Turned(from, to.stride, angle) && Fits(from, |source|) && Fits(to, |old_|)
    requires i < |old_|
  {
    if Inside(to, i) && Origin(from, to, angle, i) < done then Shown(source, from, to, angle, i) else old_[i]
  }

  predicate Progress(source: bytes, from: Shape, old_: bytes, to: Shape, angle: u16, done: nat, now: bytes)
    requires Known(angle) && to == Turned(from, to.stride, angle) && Fits(from, |source|) && Fits(to, |old_|)
  {
    |now| == |old_| && forall i :: 0 <= i < |now| ==> now[i] == Copied(source, from, old_, to, angle, done, i)
  }

  function Rotated(source: bytes, from: Shape, old_: bytes, to: Shape, angle: u16): (r: bytes)
    requires Known(angle) && to == Turned(from, to.stride, angle) && Fits(from, |source|) && Fits(to, |old_|)
    ensures |r| == |old_|
  {
    seq(|old_|, i requires 0 <= i < |old_| => Copied(source, from, old_, to, angle, from.width * from.height, i))
  }

  /** The three bytes of one pixel, as a copy leaves them. */
  function Put(now: bytes, at: nat, pixel: bytes): (r: bytes)
    requires |pixel| == 3 && at + 3 <= |now|
    ensures |r| == |now|
  {
    now[..at] + pixel + now[at + 3..]
  }

  /** Pixel (x, y), read at `s`, belongs at `at`. */
  predicate Moves(from: Shape, to: Shape, angle: u16, x: nat, y: nat, s: nat, at: nat) {
    && Known(angle) && to == Turned(from, to.stride, angle)
    && x < from.width && y < from.height && from.stride >= 3 * from.width && to.stride >= 3 * to.width
    && s == At(from, x, y, 0)
    && var d := Turn(from, angle, x, y);
       d.0 < to.width && d.1 < to.height && at == At(to, d.0, d.1, 0)
  }

  /** Copying one more pixel. */
  lemma OneMore(source: bytes, from: Shape, old_: bytes, to: Shape, angle: u16, x: nat, y: nat, now: bytes, s: nat,
      at: nat)
    requires Known(angle) && to == Turned(from, to.stride, angle) && Fits(from, |source|) && Fits(to, |old_|)
    requires Moves(from, to, angle, x, y, s, at) && s + 3 <= |source| && at + 3 <= |old_| == |now|
    requires Progress(source, from, old_, to, angle, InOrder(from, x, y), now)
    ensures Progress(source, from, old_, to, angle, InOrder(from, x, y) + 1, Put(now, at, source[s..s + 3]))
  {
    var next := Put(now, at, source[s..s + 3]);
    hide At, Copied, Put, Origin, Inside, ByteAt, Moves;
    forall i | 0 <= i < |next| ensures next[i] == Copied(source, from, old_, to, angle, InOrder(from, x, y) + 1, i) {
      OneByte(source, from, old_, to, angle, x, y, now, s, at, i);
    }
  }

  lemma OneByte(source: bytes, from: Shape, old_: bytes, to: Shape, angle: u16, x: nat, y: nat, now: bytes, s: nat,
      at: nat, i: nat)
    requires Known(angle) && to == Turned(from, to.stride, angle) && Fits(from, |source|) && Fits(to, |old_|)
    requires Moves(from, to, angle, x, y, s, at) && s + 3 <= |source| && at + 3 <= |old_| == |now| && i < |now|
    requires now[i] == Copied(source, from, old_, to, angle, InOrder(from, x, y), i)
    ensures Put(now, at, source[s..s + 3])[i] == Copied(source, from, old_, to, angle, InOrder(from, x, y) + 1, i)
  {
    var d := Turn(from, angle, x, y);
    BackOfTurn(from, angle, x, y);
    SpotOfAt(from, x, y, 0);
    SpotOfAt(to, d.0, d.1, 0);
    if at <= i < at + 3 {
      var c := i - at;
      SpotOfAt(to, d.0, d.1, c);
      SpotOfAt(from, x, y, c);
      hide At, SpotOf, Turn, Back;
      assert i == At(to, d.0, d.1, c);
      assert Origin(from, to, angle, i) == InOrder(from, x, y);
      assert Shown(source, from, to, angle, i) == source[s + c];
    } else if Inside(to, i) && Origin(from, to, angle, i) == InOrder(from, x, y) {
      ShowsOnce(from, to, angle, x, y, at, i);
    }
  }

  /** No other position shows pixel (x, y). */
  lemma ShowsOnce(from: Shape, to: Shape, angle: u16, x: nat, y: nat, at: nat, i: nat)
    requires Known(angle) && to == Turned(from, to.stride, angle) && to.stride > 0 && Inside(to, i)
    requires x < from.width && y < from.height && Origin(from, to, angle, i) == InOrder(from, x, y)
    requires var d := Turn(from, angle, x, y); d.0 >= 0 && d.1 >= 0 && at == At(to, d.0, d.1, 0)
    ensures at <= i < at + 3
  {
    var spot := SpotOf(to, i);
    var (px, py) := Back(from, angle, spot.x, spot.y);
    AtOfSpot(to, i);
    TurnOfBack(from, angle, spot.x, spot.y);
    hide SpotOf, Turn, Back;
    RowMajor(from.width, px, py);
    RowMajor(from.width, x, y);
    assert px == x && py == y;
  }

  method Rotate(source: bytes, from: Shape, destination: array<u8>, outStride: nat, angle: u16) returns (ok: bool)
    modifies destination
    ensures ok <==>
      && (angle == 0 || angle == 90 || angle == 180 || angle == 270) && from.width > 0 && from.height > 0
      && from.stride >= 3 * from.width && from.height * from.stride <= |source|
      && (if angle == 90 || angle == 270
          then outStride >= 3 * from.height && from.width * outStride <= destination.Length
          else outStride >= 3 * from.width && from.height * outStride <= destination.Length)
    ensures ok ==> destination[..] == Rotated(source, from, old(destination[..]), Turned(from, outStride, angle), angle)
    ensures !ok ==> destination[..] == old(destination[..])
  {
    hide Progress, Rotated, InOrder;
    var to := Turned(from, outStride, angle);
    if from.width == 0 || from.height == 0 || from.stride < from.width * 3 || outStride < to.width * 3 { return false; }
    RowsHold(|source|, from.stride, from.height);
    RowsHold(destination.Length, outStride, to.height);
    if |source| / from.stride < from.height || destination.Length / outStride < to.height { return false; }
    ghost var was := destination[..];
    NothingDone(source, from, was, to, angle);
    var y := 0;
    while y < from.height
      invariant 0 <= y <= from.height && (y > 0 ==> Known(angle))
      invariant !Known(angle) ==> destination[..] == was
      invariant Known(angle) ==> Progress(source, from, was, to, angle, InOrder(from, 0, y), destination[..])
    {
      var x := 0;
      while x < from.width
        invariant 0 <= x <= from.width && (x > 0 ==> Known(angle))
        invariant !Known(angle) ==> destination[..] == was
        invariant Known(angle) ==> Progress(source, from, was, to, angle, InOrder(from, x, y), destination[..])
      {
        if !Known(angle) { return false; }
        CopyPixel(source, from, destination, to, angle, x, y, was);
        NextColumn(from, x, y);
        x := x + 1;
      }
      NextRow(from, y);
      y := y + 1;
    }
    AllDone(source, from, was, to, angle, destination[..]);
    return true;
  }

  lemma NextColumn(shape: Shape, x: nat, y: nat)
    ensures InOrder(shape, x, y) + 1 == InOrder(shape, x + 1, y)
  {
  }

  /** `len / stride < height`, as the buffer checks ask. */
  lemma RowsHold(len: nat, stride: nat, height: nat)
    requires stride > 0
    ensures len / stride < height <==> len < height * stride
  {
    if len < height * stride {
      QuotientBelow(len, stride, height);
    } else {
      QuotientAtLeast(len, stride, height);
    }
  }

  method CopyPixel(source: bytes, from: Shape, destination: array<u8>, to: Shape, angle: u16, x: nat, y: nat,
      ghost was: bytes)
    requires Known(angle) && to == Turned(from, to.stride, angle) && Fits(from, |source|) && Fits(to, |was|)
    requires x < from.width && y < from.height && destination.Length == |was|
    requires Progress(source, from, was, to, angle, InOrder(from, x, y), destination[..])
    modifies destination
    ensures Progress(source, from, was, to, angle, InOrder(from, x, y) + 1, destination[..])
  {
    var d := Turn(from, angle, x, y);
    ghost var now := destination[..];
    BackOfTurn(from, angle, x, y);
    SpotOfAt(from, x, y, 0);
    SpotOfAt(to, d.0, d.1, 0);
    assert from.height * from.stride <= |source| && to.height * to.stride <= |was|;
    var s, at := y * from.stride + x * 3, d.1 * to.stride + d.0 * 3;
    OneMore(source, from, was, to, angle, x, y, now, s, at);
    hide Progress, Turn, Turned, At;
    destination[at] := source[s];
    destination[at + 1] := source[s + 1];
    destination[at + 2] := source[s + 2];
    assert destination[..] == Put(now, at, source[s..s + 3]);
  }

  lemma NothingDone(source: bytes, from: Shape, old_: bytes, to: Shape, angle: u16)
    requires to == Turned(from, to.stride, angle) && Fits(from, |source|) && Fits(to, |old_|)
    ensures Known(angle) ==> Progress(source, from, old_, to, angle, InOrder(from, 0, 0), old_)
  {
  }

  lemma AllDone(source: bytes, from: Shape, old_: bytes, to: Shape, angle: u16, now: bytes)
    requires Known(angle) && to == Turned(from, to.stride, angle) && Fits(from, |source|) && Fits(to, |old_|)
    requires Progress(source, from, old_, to, angle, InOrder(from, 0, from.height), now)
    ensures now == Rotated(source, from, old_, to, angle)
  {
    assert InOrder(from, 0, from.height) == from.width * from.height;
    hide Copied;
  }

  // ----- What a rotation means -----

  /** MAIN RESULT: every source pixel arrives, whole, at its turned place. */
  lemma PixelArrives(source: bytes, from: Shape, old_: bytes, to: Shape, angle: u16, x: nat, y: nat, c: nat)
    requires Known(angle) && to == Turned(from, to.stride, angle) && Fits(from, |source|) && Fits(to, |old_|)
    requires x < from.width && y < from.height && c < 3
    ensures var d := Turn(from, angle, x, y);
            && 0 <= d.0 < to.width && 0 <= d.1 < to.height
            && ByteAt(Rotated(source, from, old_, to, angle), to, d.0, d.1, c) == ByteAt(source, from, x, y, c)
  {
    var d := Turn(from, angle, x, y);
    BackOfTurn(from, angle, x, y);
    SpotOfAt(to, d.0, d.1, c);
    var i := At(to, d.0, d.1, c);
    hide At, SpotOf, Turn, Back;
    OrderBound(from, x, y);
    assert i < |old_|;
    assert Origin(from, to, angle, i) == InOrder(from, x, y);
    assert Shown(source, from, to, angle, i) == ByteAt(source, from, x, y, c);
  }

  predicate Holds(bytes: bytes, i: int, value: u8) { 0 <= i < |bytes| && bytes[i] == value }

  /** MAIN RESULT: the turn is clockwise, byte by byte. The top left pixel goes to the top
      right at 90 degrees, the bottom right at 180 and the bottom left at 270. */
  lemma TurnsClockwise(source: bytes, from: Shape, old_: bytes, to: Shape, angle: u16, x: nat, y: nat, c: nat)
    requires Known(angle) && to == Turned(from, to.stride, angle) && Fits(from, |source|) && Fits(to, |old_|)
    requires x < from.width && y < from.height && c < 3
    ensures var w, h, out := from.width, from.height, Rotated(source, from, old_, to, angle);
            var at := y * from.stride + 3 * x + c;
            && at < |source|
            && (angle == 0 ==> Holds(out, y * to.stride + 3 * x + c, source[at]))
            && (angle == 90 ==> Holds(out, x * to.stride + 3 * (h - 1 - y) + c, source[at]))
            && (angle == 180 ==> Holds(out, (h - 1 - y) * to.stride + 3 * (w - 1 - x) + c, source[at]))
            && (angle == 270 ==> Holds(out, (w - 1 - x) * to.stride + 3 * y + c, source[at]))
  {
    PixelArrives(source, from, old_, to, angle, x, y, c);
    var d := Turn(from, angle, x, y);
    SpotOfAt(from, x, y, c);
    SpotOfAt(to, d.0, d.1, c);
    hide Rotated, SpotOf;
  }

  lemma OrderBound(shape: Shape, x: nat, y: nat)
    requires x < shape.width && y < shape.height
    ensures InOrder(shape, x, y) < shape.width * shape.height
  {
    RowsFit(y, shape.width, shape.height);
  }

  /** MAIN RESULT: padding, and anything past the last row, is never written. */
  lemma PaddingIsKept(source: bytes, from: Shape, old_: bytes, to: Shape, angle: u16, i: nat)
    requires Known(angle) && to == Turned(from, to.stride, angle) && Fits(from, |source|) && Fits(to, |old_|)
    requires i < |old_| && !Inside(to, i)
    ensures Rotated(source, from, old_, to, angle)[i] == old_[i]
  {
  }

  /** Two quarter turns in sequence: through a middle picture of any stride. */
  predicate Chain(source: bytes, from: Shape, midOld: bytes, mid: Shape, first: u16, endOld: bytes, end: Shape,
      second: u16) {
    && Known(first) && Known(second) && mid == Turned(from, mid.stride, first) && end == Turned(mid, end.stride, second)
    && Fits(from, |source|) && Fits(mid, |midOld|) && Fits(end, |endOld|)
  }

  /** MAIN RESULT: a quarter turn back undoes a quarter turn, pixel by pixel, and two
      quarter turns are a half turn. */
  lemma QuarterTurns(source: bytes, from: Shape, midOld: bytes, mid: Shape, endOld: bytes, end: Shape, back: bool,
      x: nat, y: nat, c: nat)
    requires Chain(source, from, midOld, mid, 90, endOld, end, if back then 270 else 90)
    requires x < from.width && y < from.height && c < 3
    ensures var twice := Rotated(Rotated(source, from, midOld, mid, 90), mid, endOld, end, if back then 270 else 90);
            && end.width == from.width && end.height == from.height
            && ByteAt(twice, end, if back then x else from.width - x - 1, if back then y else from.height - y - 1, c)
               == ByteAt(source, from, x, y, c)
  {
    var d := Turn(from, 90, x, y);
    PixelArrives(source, from, midOld, mid, 90, x, y, c);
    PixelArrives(Rotated(source, from, midOld, mid, 90), mid, endOld, end, if back then 270 else 90, d.0, d.1, c);
    hide Rotated, ByteAt;
  }

  /** Without padding the buffers themselves agree. */
  lemma TurningBackRestores(source: bytes, from: Shape, midOld: bytes, mid: Shape, endOld: bytes)
    requires Chain(source, from, midOld, mid, 90, endOld, from, 270)
    requires from.stride == 3 * from.width && |source| == |endOld| == from.height * from.stride
    ensures Rotated(Rotated(source, from, midOld, mid, 90), mid, endOld, from, 270) == source
  {
    var twice := Rotated(Rotated(source, from, midOld, mid, 90), mid, endOld, from, 270);
    forall i | 0 <= i < |source| ensures twice[i] == source[i] {
      var spot := SpotOf(from, i);
      AtOfSpot(from, i);
      QuotientBelow(i, from.stride, from.height);
      hide Rotated;
      assert spot.x < from.width && spot.y < from.height;
      QuarterTurns(source, from, midOld, mid, endOld, from, true, spot.x, spot.y, spot.c);
    }
  }

  // ----- The C++ form -----

  const SIZE_MAX: nat := U64_LIMIT - 1

  predicate CppFits(shape: Shape, len: nat) {
    && shape.width != 0 && shape.height != 0 && shape.width <= SIZE_MAX / 3
    && shape.stride >= shape.width * 3 && shape.stride > 0 && shape.height <= len / shape.stride
  }

  /** For buffers that can exist on a 64-bit machine the two sets of checks accept
      the same calls. */
  lemma ChecksAgree(shape: Shape, len: nat)
    requires shape.stride < U64_LIMIT
    ensures CppFits(shape, len) <==> Fits(shape, len)
  {
    if shape.stride > 0 {
      if shape.height * shape.stride <= len {
        QuotientAtLeast(len, shape.stride, shape.height);
      } else {
        QuotientBelow(len, shape.stride, shape.height);
      }
    }
  }

  /** copy_n: `len` bytes from `s` on to `at` on. */
  method CopyBytes(source: bytes, s: nat, destination: array<u8>, at: nat, len: nat)
    requires s + len <= |source| && at + len <= destination.Length
    modifies destination
    ensures destination[..at] == old(destination[..at]) && destination[at + len..] == old(destination[at + len..])
    ensures destination[at..at + len] == source[s..s + len]
  {
    var k := 0;
    while k < len
      invariant 0 <= k <= len
      invariant destination[..at] == old(destination[..at])
      invariant destination[at..at + k] == source[s..s + k]
      invariant destination[at + k..] == old(destination[at + k..])
    {
      destination[at + k] := source[s + k];
      k := k + 1;
      assert destination[at..at + k] == destination[at..at + k - 1] + [source[s + k - 1]];
      assert source[s..s + k] == source[s..s + k - 1] + [source[s + k - 1]];
    }
  }

  /** Row `y` of the C++ loops: copied whole when nothing turns, else pixel by pixel. */
  method RotateRowCpp(source: bytes, from: Shape, destination: array<u8>, to: Shape, angle: u16, y: nat,
      ghost was: bytes)
    requires Known(angle) && to == Turned(from, to.stride, angle) && Fits(from, |source|) && Fits(to, |was|)
    requires y < from.height && destination.Length == |was|
    requires Progress(source, from, was, to, angle, InOrder(from, 0, y), destination[..])
    modifies destination
    ensures Progress(source, from, was, to, angle, InOrder(from, from.width, y), destination[..])
  {
    hide Progress;
    if angle == 0 {
      ghost var now := destination[..];
      RowsFit(y, from.stride, from.height);
      RowsFit(y, to.stride, to.height);
      var s, at := y * from.stride, y * to.stride;
      CopyBytes(source, s, destination, at, 3 * from.width);
      SlicesOf(destination[..], at, 3 * from.width);
      SlicesOf(now, at, 3 * from.width);
      RowCopied(source, from, was, to, y, at, now, destination[..]);
    } else {
      var x := 0;
      while x < from.width
        invariant 0 <= x <= from.width
        invariant Progress(source, from, was, to, angle, InOrder(from, x, y), destination[..])
      {
        CopyPixel(source, from, destination, to, angle, x, y, was);
        x := x + 1;
      }
    }
  }

  lemma SlicesOf(all: bytes, at: nat, len: nat)
    requires at + len <= |all|
    ensures all == all[..at] + all[at..at + len] + all[at + len..]
  {
  }

  /** The C++ loops, row by row. */
  method RotateCpp(source: bytes, from: Shape, destination: array<u8>, outStride: nat, angle: u16) returns (ok: bool)
    requires Known(angle) && from.stride < U64_LIMIT && outStride < U64_LIMIT
    modifies destination
    ensures ok <==> Fits(from, |source|) && Fits(Turned(from, outStride, angle), destination.Length)
    ensures ok ==> destination[..] == Rotated(source, from, old(destination[..]), Turned(from, outStride, angle), angle)
    ensures !ok ==> destination[..] == old(destination[..])
  {
    hide Progress, Rotated;
    var to := Turned(from, outStride, angle);
    ChecksAgree(from, |source|);
    ChecksAgree(to, destination.Length);
    if !CppFits(from, |source|) || !CppFits(to, destination.Length) { return false; }
    ghost var was := destination[..];
    var y := 0;
    NothingDone(source, from, was, to, angle);
    while y < from.height
      invariant 0 <= y <= from.height
      invariant Progress(source, from, was, to, angle, InOrder(from, 0, y), destination[..])
    {
      RotateRowCpp(source, from, destination, to, angle, y, was);
      NextRow(from, y);
      y := y + 1;
    }
    AllDone(source, from, was, to, angle, destination[..]);
    return true;
  }

  lemma NextRow(shape: Shape, y: nat)
    ensures InOrder(shape, shape.width, y) == InOrder(shape, 0, y + 1)
  {
    assert (y + 1) * shape.width == y * shape.width + shape.width;
  }

  /** A whole row copied is every pixel of it copied. */
  lemma RowCopied(source: bytes, from: Shape, old_: bytes, to: Shape, y: nat, top: nat, now: bytes, next: bytes)
    requires to == Turned(from, to.stride, 0) && Fits(from, |source|) && Fits(to, |old_|) && y < from.height
    requires top == At(to, 0, y, 0) && |next| == |now|
    requires At(from, 0, y, 0) + 3 * from.width <= |source| && top + 3 * from.width <= |now|
    requires Progress(source, from, old_, to, 0, InOrder(from, 0, y), now)
    requires next[..top] == now[..top] && next[top + 3 * from.width..] == now[top + 3 * from.width..]
    requires next[top..top + 3 * from.width] == source[At(from, 0, y, 0)..At(from, 0, y, 0) + 3 * from.width]
    ensures Progress(source, from, old_, to, 0, InOrder(from, from.width, y), next)
  {
    var len := 3 * from.width;
    hide At, InOrder, Copied, Fits;
    forall i | 0 <= i < |next| ensures next[i] == Copied(source, from, old_, to, 0, InOrder(from, from.width, y), i) {
      if top <= i < top + len {
        assert next[i] == next[top..top + len][i - top];
        CopiedByte(source, from, old_, to, y, i - top);
      } else {
        assert next[i] == now[i] by {
          if i < top { assert next[..top][i] == now[..top][i]; }
          else { assert next[top + len..][i - top - len] == now[top + len..][i - top - len]; }
        }
        OtherRow(source, from, old_, to, y, i);
      }
    }
  }

  lemma CopiedByte(source: bytes, from: Shape, old_: bytes, to: Shape, y: nat, k: nat)
    requires to == Turned(from, to.stride, 0) && Fits(from, |source|) && Fits(to, |old_|) && y < from.height
        && k < 3 * from.width
    ensures var (i, s) := (At(to, 0, y, 0) + k, At(from, 0, y, 0) + k);
            i < |old_| && s < |source| && Copied(source, from, old_, to, 0, InOrder(from, from.width, y), i)
              == source[s]
  {
    var x, c := k / 3, k % 3;
    SpotOfAt(to, x, y, c);
    SpotOfAt(from, x, y, c);
    assert At(to, x, y, c) == At(to, 0, y, 0) + k && At(from, x, y, c) == At(from, 0, y, 0) + k;
    hide At, SpotOf;
  }

  /** Outside row `y`, having copied it changes nothing. */
  lemma OtherRow(source: bytes, from: Shape, old_: bytes, to: Shape, y: nat, i: nat)
    requires to == Turned(from, to.stride, 0) && Fits(from, |source|) && Fits(to, |old_|) && i < |old_|
    requires !(At(to, 0, y, 0) <= i < At(to, 0, y, 0) + 3 * from.width)
    ensures Copied(source, from, old_, to, 0, InOrder(from, 0, y), i)
            == Copied(source, from, old_, to, 0, InOrder(from, from.width, y), i)
  {
    AtOfSpot(to, i);
    var spot := SpotOf(to, i);
    hide SpotOf, Shown, InOrder;
    if Inside(to, i) {
      assert spot.y != y;
      OtherPlace(from, spot.x, spot.y, y);
    }
  }

  lemma OtherPlace(shape: Shape, x: nat, y: nat, row: nat)
    requires x < shape.width && y != row
    ensures InOrder(shape, x, y) < InOrder(shape, 0, row) <==> InOrder(shape, x, y) < InOrder(shape, shape.width, row)
  {
    if y < row {
      RowsFit(y, shape.width, row);
    } else {
      Ordered(row + 1, y, shape.width);
      NextRow(shape, row);
    }
  }
}

/** Mirroring a picture in place (host-rs/src/video/transform.rs:71-109,
    host/src/yuyv.cpp:9-49).

    A YUYV row holds two pixels in four bytes: luma, U, luma, V. */
module Flips {
  import opened Arithmetic
  import opened Basics
  import opened Bytes

  datatype Layout = Yuyv | Rgba

  datatype Picture = Picture(layout: Layout, width: nat, height: nat, stride: nat)

  function RowBytes(p: Picture): nat { p.width * if p.layout.Rgba? then 4 else 2 }

  /** Whole four-byte groups in a row; an odd YUYV width leaves two bytes over. */
  function Groups(p: Picture): nat { if p.layout.Rgba? then p.width else p.width / 2 }

  predicate Fits(p: Picture, len: nat) {
    && 0 < p.stride && RowBytes(p) <= p.stride
    && (p.height > 0 ==> (p.height - 1) * p.stride + RowBytes(p) <= len)
  }

  // ----- Which byte goes where -----

  /** A group's own reordering: YUYV swaps its two lumas. */
  function Within(layout: Layout, c: nat): (d: nat)
    requires c < 4
    ensures d < 4
  {
    if layout.Yuyv? && c % 2 == 0 then 2 - c else c
  }

  /** The column a mirrored row's byte `b` comes from. */
  function Mirror(p: Picture, b: nat): (m: nat)
    requires b < RowBytes(p)
    ensures m < RowBytes(p)
  {
    if b / 4 < Groups(p) then (Groups(p) - 1 - b / 4) * 4 + Within(p.layout, b % 4) else b
  }

  lemma MirrorTwice(p: Picture, b: nat)
    requires b < RowBytes(p)
    ensures Mirror(p, Mirror(p, b)) == b
  {
    if b / 4 < Groups(p) {
      var g, c := Groups(p) - 1 - b / 4, Within(p.layout, b % 4);
      assert Mirror(p, b) == g * 4 + c && Mirror(p, b) / 4 == g && Mirror(p, b) % 4 == c;
    }
  }

  function Place(p: Picture, row: nat, col: nat): nat { row * p.stride + col }

  function RowOf(p: Picture, i: nat): nat
    requires p.stride > 0
  {
    i / p.stride
  }

  function ColumnOf(p: Picture, i: nat): nat
    requires p.stride > 0
  {
    i % p.stride
  }

  lemma PlaceSplits(p: Picture, row: nat, col: nat)
    requires col < p.stride
    ensures RowOf(p, Place(p, row, col)) == row && ColumnOf(p, Place(p, row, col)) == col
  {
    Unique(Place(p, row, col), p.stride, row, col);
  }

  lemma Splits(p: Picture, i: nat)
    requires p.stride > 0
    ensures Place(p, RowOf(p, i), ColumnOf(p, i)) == i && ColumnOf(p, i) < p.stride
  {
  }

  /** The position whose old byte `i` receives. */
  function Origin(p: Picture, horizontal: bool, vertical: bool, i: nat): nat
    requires p.stride > 0 && RowBytes(p) <= p.stride
  {
    var row, col := RowOf(p, i), ColumnOf(p, i);
    if row < p.height && col < RowBytes(p) then
      Place(p, if vertical then p.height - 1 - row else row, if horizontal then Mirror(p, col) else col)
    else i
  }

  lemma PlaceWithin(p: Picture, len: nat, row: nat, col: nat)
    requires Fits(p, len) && row < p.height && col < RowBytes(p)
    ensures Place(p, row, col) < len
  {
    Ordered(row, p.height - 1, p.stride);
  }

  lemma OriginWithin(p: Picture, horizontal: bool, vertical: bool, len: nat, i: nat)
    requires Fits(p, len) && i < len
    ensures Origin(p, horizontal, vertical, i) < len
  {
    hide Mirror, Place, RowBytes, RowOf, ColumnOf;
    var row, col := RowOf(p, i), ColumnOf(p, i);
    if row < p.height && col < RowBytes(p) {
      PlaceWithin(p, len, if vertical then p.height - 1 - row else row, if horizontal then Mirror(p, col) else col);
    }
  }

  function Flipped(bytes: bytes, p: Picture, horizontal: bool, vertical: bool): (r: bytes)
    requires Fits(p, |bytes|)
    ensures |r| == |bytes|
  {
    seq(|bytes|, i requires 0 <= i < |bytes| =>
      OriginWithin(p, horizontal, vertical, |bytes|, i);
      bytes[Origin(p, horizontal, vertical, i)])
  }

  // ----- The loops -----

  function Get(s: bytes, i: nat): u8 { if i < |s| then s[i] else 0 }

  /** A swap of positions `i` and `j`, as a map of positions. */
  function Exchange(i: nat, j: nat, k: nat): nat { if k == i then j else if k == j then i else k }

  method Swap(bytes: array<u8>, i: nat, j: nat)
    requires i < bytes.Length && j < bytes.Length
    modifies bytes
    ensures forall k :: 0 <= k < bytes.Length ==> bytes[k] == Get(old(bytes[..]), Exchange(i, j, k))
  {
    bytes[i], bytes[j] := bytes[j], bytes[i];
  }

  /** Where position `i` comes from once the first `done` groups from `at` on have
      had their lumas swapped. */
  function LumaOrigin(at: nat, done: nat, i: nat): nat {
    if at <= i < at + 4 * done then at + (i - at) / 4 * 4 + Within(Yuyv, (i - at) % 4) else i
  }

  lemma LumaStep(at: nat, done: nat, i: nat)
    ensures LumaOrigin(at, done + 1, i) == LumaOrigin(at, done, Exchange(at + 4 * done, at + 4 * done + 2, i))
  {
  }

  method SwapLumas(bytes: array<u8>, at: nat, groups: nat)
    requires at + 4 * groups <= bytes.Length
    modifies bytes
    ensures forall i :: 0 <= i < bytes.Length ==> bytes[i] == Get(old(bytes[..]), LumaOrigin(at, groups, i))
  {
    ghost var was := bytes[..];
    var g := 0;
    while g < groups
      invariant 0 <= g <= groups
      invariant forall i :: 0 <= i < bytes.Length ==> bytes[i] == Get(was, LumaOrigin(at, g, i))
    {
      ghost var now := bytes[..];
      Swap(bytes, at + 4 * g, at + 4 * g + 2);
      forall i | 0 <= i < bytes.Length ensures bytes[i] == Get(was, LumaOrigin(at, g + 1, i)) {
        LumaStep(at, g, i);
        hide LumaOrigin;
        assert bytes[i] == now[Exchange(at + 4 * g, at + 4 * g + 2, i)];
      }
      g := g + 1;
    }
  }

  /** The same once the outer `p` of `groups` groups, and `c` bytes of the next pair,
      have changed places. */
  function GroupOrigin(at: nat, groups: nat, p: nat, c: nat, i: nat): nat {
    if at <= i < at + 4 * groups then
      var g, d := (i - at) / 4, (i - at) % 4;
      if g < p || g >= groups - p || ((g == p || g == groups - 1 - p) && d < c)
      then at + (groups - 1 - g) * 4 + d
      else i
    else i
  }

  lemma GroupStep(at: nat, groups: nat, p: nat, c: nat, i: nat)
    requires p < groups / 2 && c < 4
    ensures GroupOrigin(at, groups, p, c + 1, i)
            == GroupOrigin(at, groups, p, c, Exchange(at + p * 4 + c, at + (groups - p - 1) * 4 + c, i))
  {
  }

  lemma GroupNext(at: nat, groups: nat, p: nat, i: nat)
    ensures p < groups / 2 ==> GroupOrigin(at, groups, p, 4, i) == GroupOrigin(at, groups, p + 1, 0, i)
    ensures p == groups / 2 ==> GroupOrigin(at, groups, p, 0, i) == GroupOrigin(at, groups, groups, 0, i)
    ensures GroupOrigin(at, groups, 0, 0, i) == i
  {
  }

  ghost predicate GroupsMoved(now: bytes, was: bytes, at: nat, groups: nat, p: nat, c: nat) {
    |now| == |was| && forall i :: 0 <= i < |now| ==> now[i] == Get(was, GroupOrigin(at, groups, p, c, i))
  }

  lemma MovedNext(now: bytes, was: bytes, at: nat, groups: nat, p: nat)
    ensures p < groups / 2 && GroupsMoved(now, was, at, groups, p, 4) ==> GroupsMoved(now, was, at, groups, p + 1, 0)
    ensures p == groups / 2 && GroupsMoved(now, was, at, groups, p, 0) ==> GroupsMoved(now, was, at, groups, groups, 0)
    ensures now == was ==> GroupsMoved(now, was, at, groups, 0, 0)
  {
    hide GroupOrigin;
    forall i: nat ensures GroupOrigin(at, groups, 0, 0, i) == i { GroupNext(at, groups, 0, i); }
    forall i: nat
      ensures p < groups / 2 ==> GroupOrigin(at, groups, p, 4, i) == GroupOrigin(at, groups, p + 1, 0, i)
      ensures p == groups / 2 ==> GroupOrigin(at, groups, p, 0, i) == GroupOrigin(at, groups, groups, 0, i)
    {
      GroupNext(at, groups, p, i);
    }
  }

  lemma MovedOne(now: bytes, next: bytes, was: bytes, at: nat, groups: nat, p: nat, c: nat)
    requires GroupsMoved(now, was, at, groups, p, c) && p < groups / 2 && c < 4 && at + 4 * groups <= |was|
    requires |next| == |now|
    requires forall k :: 0 <= k < |next| ==>
        next[k] == Get(now, Exchange(at + p * 4 + c, at + (groups - p - 1) * 4 + c, k))
    ensures GroupsMoved(next, was, at, groups, p, c + 1)
  {
    hide GroupOrigin;
    forall i | 0 <= i < |next| ensures next[i] == Get(was, GroupOrigin(at, groups, p, c + 1, i)) {
      GroupStep(at, groups, p, c, i);
      assert next[i] == now[Exchange(at + p * 4 + c, at + (groups - p - 1) * 4 + c, i)];
    }
  }

  method ReverseGroups(bytes: array<u8>, at: nat, groups: nat)
    requires at + 4 * groups <= bytes.Length
    modifies bytes
    ensures GroupsMoved(bytes[..], old(bytes[..]), at, groups, groups, 0)
  {
    hide GroupsMoved;
    ghost var was := bytes[..];
    var p := 0;
    MovedNext(bytes[..], was, at, groups, 0);
    while p < groups / 2
      invariant 0 <= p <= groups / 2
      invariant GroupsMoved(bytes[..], was, at, groups, p, 0)
    {
      var c := 0;
      while c < 4
        invariant 0 <= c <= 4
        invariant GroupsMoved(bytes[..], was, at, groups, p, c)
      {
        ghost var now := bytes[..];
        Swap(bytes, at + p * 4 + c, at + (groups - p - 1) * 4 + c);
        MovedOne(now, bytes[..], was, at, groups, p, c);
        c := c + 1;
      }
      MovedNext(bytes[..], was, at, groups, p);
      p := p + 1;
    }
    MovedNext(bytes[..], was, at, groups, p);
  }

  // ----- Rows -----

  /** Where position `i` comes from once rows before `rows` have been mirrored. */
  function MirrorOrigin(p: Picture, rows: nat, i: nat): nat
    requires p.stride > 0 && RowBytes(p) <= p.stride
  {
    var row, col := RowOf(p, i), ColumnOf(p, i);
    if row < rows && col < RowBytes(p) then Place(p, row, Mirror(p, col)) else i
  }

  ghost predicate Mirrored(now: bytes, was: bytes, p: Picture, rows: nat)
    requires p.stride > 0 && RowBytes(p) <= p.stride
  {
    |now| == |was| && forall i :: 0 <= i < |now| ==> now[i] == Get(was, MirrorOrigin(p, rows, i))
  }

  /** Mirroring one row: its groups reversed, after the lumas for YUYV. */
  method MirrorRow(bytes: array<u8>, p: Picture, y: nat, ghost was: bytes)
    requires Fits(p, bytes.Length) && y < p.height && Mirrored(bytes[..], was, p, y)
    modifies bytes
    ensures Mirrored(bytes[..], was, p, y + 1)
  {
    ghost var now := bytes[..];
    var at := y * p.stride;
    assert at == Place(p, y, 0);
    RowWithin(p, bytes.Length, y);
    if p.layout.Yuyv? { SwapLumas(bytes, at, Groups(p)); }
    ghost var mid := bytes[..];
    ReverseGroups(bytes, at, Groups(p));
    hide Mirrored;
    RowMirrored(now, mid, bytes[..], was, p, y);
  }

  lemma RowWithin(p: Picture, len: nat, y: nat)
    requires Fits(p, len) && y < p.height
    ensures Place(p, y, 0) + RowBytes(p) <= len && 4 * Groups(p) <= RowBytes(p)
  {
    Ordered(y, p.height - 1, p.stride);
  }

  lemma RowMirrored(now: bytes, mid: bytes, next: bytes, was: bytes, p: Picture, y: nat)
    requires Fits(p, |was|) && y < p.height && Mirrored(now, was, p, y) && |mid| == |now|
    requires p.layout.Rgba? ==> mid == now
    requires p.layout.Yuyv? ==> forall i :: 0 <= i < |mid| ==>
        mid[i] == Get(now, LumaOrigin(Place(p, y, 0), Groups(p), i))
    requires GroupsMoved(next, mid, Place(p, y, 0), Groups(p), Groups(p), 0)
    ensures Mirrored(next, was, p, y + 1)
  {
    hide GroupOrigin, LumaOrigin, MirrorOrigin, Place;
    var at, groups := Place(p, y, 0), Groups(p);
    forall i | 0 <= i < |next| ensures next[i] == Get(was, MirrorOrigin(p, y + 1, i)) {
      var j := GroupOrigin(at, groups, groups, 0, i);
      var k := if p.layout.Yuyv? then LumaOrigin(at, groups, j) else j;
      RowSteps(p, |was|, y, i);
      assert next[i] == mid[j] == now[k];
    }
  }

  lemma FitsRows(p: Picture, len: nat)
    requires Fits(p, len)
    ensures p.stride > 0 && RowBytes(p) <= p.stride
  {
  }

  /** The two row steps together are one mirror of that row's columns. */
  lemma RowSteps(p: Picture, len: nat, y: nat, i: nat)
    requires Fits(p, len) && y < p.height && i < len
    ensures var at, groups := Place(p, y, 0), Groups(p);
            var j := GroupOrigin(at, groups, groups, 0, i);
            var k := if p.layout.Yuyv? then LumaOrigin(at, groups, j) else j;
            j < len && k < len && MirrorOrigin(p, y, k) == MirrorOrigin(p, y + 1, i)
  {
    hide RowOf, ColumnOf, GroupOrigin, LumaOrigin, Mirror, RowBytes, Groups, Fits;
    var at := Place(p, y, 0);
    RowWithin(p, len, y);
    assert p.stride > 0 && RowBytes(p) <= p.stride by { FitsRows(p, len); }
    if at <= i < at + RowBytes(p) {
      PlaceSplits(p, y, i - at);
      assert i == Place(p, y, i - at);
      MirrorInSteps(p, at, i - at);
      assert at + Mirror(p, i - at) == Place(p, y, Mirror(p, i - at));
      PlaceSplits(p, y, Mirror(p, i - at));
    } else {
      ElsewhereInSteps(p, at, i);
      NotThisRow(p, y, i);
    }
  }

  lemma MirrorInSteps(p: Picture, at: nat, b: nat)
    requires b < RowBytes(p)
    ensures var j := GroupOrigin(at, Groups(p), Groups(p), 0, at + b);
            (if p.layout.Yuyv? then LumaOrigin(at, Groups(p), j) else j) == at + Mirror(p, b)
            && at <= j < at + RowBytes(p)
  {
  }

  lemma ElsewhereInSteps(p: Picture, at: nat, i: nat)
    requires !(at <= i < at + RowBytes(p))
    ensures var j := GroupOrigin(at, Groups(p), Groups(p), 0, i);
            j == i && LumaOrigin(at, Groups(p), j) == i
  {
  }

  lemma NotThisRow(p: Picture, y: nat, i: nat)
    requires p.stride > 0 && RowBytes(p) <= p.stride && !(Place(p, y, 0) <= i < Place(p, y, 0) + RowBytes(p))
    ensures MirrorOrigin(p, y, i) == MirrorOrigin(p, y + 1, i)
  {
    Splits(p, i);
    hide RowOf, ColumnOf, Mirror, RowBytes;
  }

  // ----- Upside down -----

  /** Where position `i` comes from once `rows` rows from either edge, and the first
      `cols` bytes of the next pair, have changed places. */
  function TurnOrigin(p: Picture, rows: nat, cols: nat, i: nat): nat
    requires p.stride > 0 && RowBytes(p) <= p.stride
  {
    var row, col := RowOf(p, i), ColumnOf(p, i);
    if row < p.height && col < RowBytes(p)
       && (row < rows || row >= p.height - rows || ((row == rows || row == p.height - 1 - rows) && col < cols))
    then Place(p, p.height - 1 - row, col)
    else i
  }

  ghost predicate TurnedOver(now: bytes, was: bytes, p: Picture, rows: nat, cols: nat)
    requires p.stride > 0 && RowBytes(p) <= p.stride
  {
    |now| == |was| && forall i :: 0 <= i < |now| ==> now[i] == Get(was, TurnOrigin(p, rows, cols, i))
  }

  lemma TurnStep(p: Picture, y: nat, x: nat, i: nat)
    requires p.stride > 0 && RowBytes(p) <= p.stride && y < p.height / 2 && x < RowBytes(p)
    ensures TurnOrigin(p, y, x + 1, i)
            == TurnOrigin(p, y, x, Exchange(Place(p, y, x), Place(p, p.height - y - 1, x), i))
  {
    PlaceSplits(p, y, x);
    PlaceSplits(p, p.height - y - 1, x);
    Splits(p, i);
    hide RowOf, ColumnOf, Place, RowBytes;
  }

  lemma TurnNext(p: Picture, y: nat, i: nat)
    requires p.stride > 0 && RowBytes(p) <= p.stride
    ensures y < p.height / 2 ==> TurnOrigin(p, y, RowBytes(p), i) == TurnOrigin(p, y + 1, 0, i)
    ensures TurnOrigin(p, 0, 0, i) == i
    ensures y == p.height / 2 ==> TurnOrigin(p, y, 0, i) == Origin(p, false, true, i)
  {
    Splits(p, i);
    hide RowOf, ColumnOf, Place, RowBytes, Mirror;
  }

  lemma TurnedOne(now: bytes, next: bytes, was: bytes, p: Picture, y: nat, x: nat)
    requires Fits(p, |was|) && y < p.height / 2 && x < RowBytes(p) && TurnedOver(now, was, p, y, x)
    requires |next| == |now|
    requires forall k :: 0 <= k < |next| ==>
        next[k] == Get(now, Exchange(Place(p, y, x), Place(p, p.height - y - 1, x), k))
    ensures TurnedOver(next, was, p, y, x + 1)
  {
    PlaceWithin(p, |was|, y, x);
    PlaceWithin(p, |was|, p.height - y - 1, x);
    hide TurnOrigin, Place;
    forall i | 0 <= i < |next| ensures next[i] == Get(was, TurnOrigin(p, y, x + 1, i)) {
      TurnStep(p, y, x, i);
      assert next[i] == now[Exchange(Place(p, y, x), Place(p, p.height - y - 1, x), i)];
    }
  }

  lemma TurnedNext(now: bytes, was: bytes, p: Picture, y: nat)
    requires p.stride > 0 && RowBytes(p) <= p.stride
    ensures y < p.height / 2 && TurnedOver(now, was, p, y, RowBytes(p)) ==> TurnedOver(now, was, p, y + 1, 0)
    ensures now == was ==> TurnedOver(now, was, p, 0, 0)
  {
    hide TurnOrigin;
    forall i: nat
      ensures y < p.height / 2 ==> TurnOrigin(p, y, RowBytes(p), i) == TurnOrigin(p, y + 1, 0, i)
      ensures TurnOrigin(p, 0, 0, i) == i
    {
      TurnNext(p, y, i);
    }
  }

  method TurnOver(bytes: array<u8>, p: Picture)
    requires Fits(p, bytes.Length)
    modifies bytes
    ensures bytes[..] == Flipped(old(bytes[..]), p, false, true)
  {
    hide TurnedOver, Flipped;
    ghost var was := bytes[..];
    TurnedNext(bytes[..], was, p, 0);
    var y := 0;
    while y < p.height / 2
      invariant 0 <= y <= p.height / 2
      invariant TurnedOver(bytes[..], was, p, y, 0)
    {
      var x := 0;
      while x < RowBytes(p)
        invariant 0 <= x <= RowBytes(p)
        invariant TurnedOver(bytes[..], was, p, y, x)
      {
        ghost var now := bytes[..];
        PlaceWithin(p, bytes.Length, y, x);
        PlaceWithin(p, bytes.Length, p.height - y - 1, x);
        Swap(bytes, Place(p, y, x), Place(p, p.height - y - 1, x));
        TurnedOne(now, bytes[..], was, p, y, x);
        x := x + 1;
      }
      TurnedNext(bytes[..], was, p, y);
      y := y + 1;
    }
    TurnedAll(bytes[..], was, p);
  }

  lemma TurnedAll(now: bytes, was: bytes, p: Picture)
    requires Fits(p, |was|) && TurnedOver(now, was, p, p.height / 2, 0)
    ensures now == Flipped(was, p, false, true)
  {
    hide TurnOrigin, Origin;
    forall i | 0 <= i < |now| ensures now[i] == Flipped(was, p, false, true)[i] {
      TurnNext(p, p.height / 2, i);
      OriginWithin(p, false, true, |was|, i);
    }
  }

  // ----- Both -----

  method MirrorAll(bytes: array<u8>, p: Picture)
    requires Fits(p, bytes.Length)
    modifies bytes
    ensures bytes[..] == Flipped(old(bytes[..]), p, true, false)
  {
    hide Mirrored, Flipped;
    ghost var was := bytes[..];
    MirroredNone(was, p);
    var y := 0;
    while y < p.height
      invariant 0 <= y <= p.height
      invariant Mirrored(bytes[..], was, p, y)
    {
      MirrorRow(bytes, p, y, was);
      y := y + 1;
    }
    MirroredAll(bytes[..], was, p);
  }

  lemma MirroredNone(was: bytes, p: Picture)
    requires Fits(p, |was|)
    ensures Mirrored(was, was, p, 0)
  {
  }

  lemma MirroredAll(now: bytes, was: bytes, p: Picture)
    requires Fits(p, |was|) && Mirrored(now, was, p, p.height)
    ensures now == Flipped(was, p, true, false)
  {
    forall i | 0 <= i < |now| ensures now[i] == Flipped(was, p, true, false)[i] {
      SameOrigin(p, i);
      hide MirrorOrigin, Origin;
      OriginWithin(p, true, false, |was|, i);
    }
  }

  lemma SameOrigin(p: Picture, i: nat)
    requires p.stride > 0 && RowBytes(p) <= p.stride
    ensures MirrorOrigin(p, p.height, i) == Origin(p, true, false, i)
  {
  }

  /** The Rust form: rows first, then the exchange of rows. */
  method Flip(bytes: array<u8>, p: Picture, horizontal: bool, vertical: bool)
    requires Fits(p, bytes.Length)
    modifies bytes
    ensures bytes[..] == Flipped(old(bytes[..]), p, horizontal, vertical)
  {
    hide Flipped;
    ghost var was := bytes[..];
    FlipNothing(was, p);
    if horizontal { MirrorAll(bytes, p); }
    ghost var mid := bytes[..];
    if vertical { TurnOver(bytes, p); }
    FlipsCompose(was, p, horizontal, false, false, vertical);
    FlipNothing(mid, p);
  }

  /** The C++ forms: odd widths and short buffers are refused, and nothing changes. */
  predicate CppAccepts(p: Picture, len: nat) {
    && p.width != 0 && p.height != 0 && p.width % 2 == 0 && p.width <= (U64_LIMIT - 1) / 2
    && p.stride >= p.width * 2 && p.height <= len / p.stride
  }

  lemma CppAcceptsLess(p: Picture, len: nat)
    requires CppAccepts(p, len) && p.layout.Yuyv?
    ensures Fits(p, len)
  {
    Ordered(p.height, len / p.stride, p.stride);
    assert (p.height - 1) * p.stride + p.stride == p.height * p.stride;
    assert len / p.stride * p.stride <= len;
  }

  ghost predicate LumasMoved(now: bytes, was: bytes, at: nat, done: nat) {
    |now| == |was| && forall i :: 0 <= i < |now| ==> now[i] == Get(was, LumaOrigin(at, done, i))
  }

  lemma NoLumaMoved(was: bytes, at: nat)
    ensures LumasMoved(was, was, at, 0)
  {
  }

  lemma LumaMoved(now: bytes, next: bytes, was: bytes, at: nat, done: nat)
    requires LumasMoved(now, was, at, done) && |next| == |now| && at + done * 4 + 2 < |was|
    requires forall i :: 0 <= i < |next| ==> next[i] == Get(now, Exchange(at + done * 4, at + done * 4 + 2, i))
    ensures LumasMoved(next, was, at, done + 1)
  {
    hide LumaOrigin;
    forall i | 0 <= i < |next| ensures next[i] == Get(was, LumaOrigin(at, done + 1, i)) {
      LumaStep(at, done, i);
      assert next[i] == now[Exchange(at + 4 * done, at + 4 * done + 2, i)];
    }
  }

  /** The four bytes of pair `left` change places with those of its mirror pair. */
  method SwapPairsCpp(bytes: array<u8>, row: nat, pairs: nat, left: nat, ghost mid: bytes)
    requires left < pairs / 2 && row + 4 * pairs <= bytes.Length && GroupsMoved(bytes[..], mid, row, pairs, left, 0)
    modifies bytes
    ensures GroupsMoved(bytes[..], mid, row, pairs, left + 1, 0)
  {
    assert |mid| == bytes.Length;
    hide GroupsMoved, Exchange;
    var right := pairs - left - 1;
    for index := 0 to 4
      invariant GroupsMoved(bytes[..], mid, row, pairs, left, index)
    {
      ghost var before := bytes[..];
      Swap(bytes, row + left * 4 + index, row + right * 4 + index);
      MovedOne(before, bytes[..], mid, row, pairs, left, index);
    }
    MovedNext(bytes[..], mid, row, pairs, left);
  }

  /** One row in C++: the lumas of each pair, then the pairs end to end, byte by byte. */
  method MirrorRowCpp(bytes: array<u8>, p: Picture, y: nat, ghost was: bytes)
    requires p.layout.Yuyv? && Fits(p, bytes.Length) && y < p.height && Mirrored(bytes[..], was, p, y)
    modifies bytes
    ensures Mirrored(bytes[..], was, p, y + 1)
  {
    hide Mirrored, GroupsMoved, LumasMoved, Exchange;
    ghost var now := bytes[..];
    RowWithin(p, bytes.Length, y);
    MirroredSize(now, was, p, y);
    assert Fits(p, |was|);
    var pairs, row := p.width / 2, y * p.stride;
    assert row == Place(p, y, 0) && pairs == Groups(p) && row + 4 * pairs <= bytes.Length;
    hide Place, Groups, RowBytes, Fits;
    NoLumaMoved(now, row);
    for pair := 0 to pairs
      invariant LumasMoved(bytes[..], now, row, pair)
    {
      ghost var before := bytes[..];
      Swap(bytes, row + pair * 4, row + pair * 4 + 2);
      LumaMoved(before, bytes[..], now, row, pair);
    }
    ghost var mid := bytes[..];
    MovedNext(mid, mid, row, pairs, 0);
    for left := 0 to pairs / 2
      invariant GroupsMoved(bytes[..], mid, row, pairs, left, 0)
    {
      SwapPairsCpp(bytes, row, pairs, left, mid);
    }
    MovedNext(bytes[..], mid, row, pairs, pairs / 2);
    RowMirroredCpp(now, mid, bytes[..], was, p, y);
  }

  lemma RowMirroredCpp(now: bytes, mid: bytes, next: bytes, was: bytes, p: Picture, y: nat)
    requires p.layout.Yuyv? && Fits(p, |was|) && y < p.height && Mirrored(now, was, p, y)
    requires LumasMoved(mid, now, Place(p, y, 0), Groups(p))
    requires GroupsMoved(next, mid, Place(p, y, 0), Groups(p), Groups(p), 0)
    ensures Mirrored(next, was, p, y + 1)
  {
    hide LumaOrigin, GroupsMoved, Mirrored;
    assert |now| == |was| by { MirroredSize(now, was, p, y); }
    RowMirrored(now, mid, next, was, p, y);
  }

  lemma MirroredSize(now: bytes, was: bytes, p: Picture, y: nat)
    requires p.stride > 0 && RowBytes(p) <= p.stride && Mirrored(now, was, p, y)
    ensures |now| == |was|
  {
  }

  method FlipHorizontalCpp(bytes: array<u8>, p: Picture) returns (ok: bool)
    requires p.layout.Yuyv?
    modifies bytes
    ensures ok == CppAccepts(p, bytes.Length)
    ensures ok ==> Fits(p, bytes.Length) && bytes[..] == Flipped(old(bytes[..]), p, true, false)
    ensures !ok ==> bytes[..] == old(bytes[..])
  {
    hide Mirrored, Flipped;
    if !CppAccepts(p, bytes.Length) { return false; }
    CppAcceptsLess(p, bytes.Length);
    ghost var was := bytes[..];
    MirroredNone(was, p);
    for y := 0 to p.height
      invariant Mirrored(bytes[..], was, p, y)
    {
      MirrorRowCpp(bytes, p, y, was);
    }
    MirroredAll(bytes[..], was, p);
    return true;
  }

  /** Position `k` once the `n` bytes from `first` and from `second` have changed places. */
  function ExchangeRanges(first: nat, second: nat, n: nat, k: nat): nat
    requires first + n <= second
  {
    if first <= k < first + n then second + (k - first)
    else if second <= k < second + n then first + (k - second)
    else k
  }

  method SwapRanges(bytes: array<u8>, first: nat, second: nat, n: nat)
    requires first + n <= second && second + n <= bytes.Length
    modifies bytes
    ensures forall k :: 0 <= k < bytes.Length ==> bytes[k] == Get(old(bytes[..]), ExchangeRanges(first, second, n, k))
  {
    for i := 0 to n
      invariant forall k :: 0 <= k < bytes.Length ==>
        bytes[k] == Get(old(bytes[..]), ExchangeRanges(first, second, i, k))
    {
      Swap(bytes, first + i, second + i);
    }
  }

  lemma RowsTurned(now: bytes, next: bytes, was: bytes, p: Picture, y: nat)
    requires Fits(p, |was|) && y < p.height / 2 && TurnedOver(now, was, p, y, 0) && |next| == |now|
    requires Place(p, y, 0) + RowBytes(p) <= Place(p, p.height - y - 1, 0)
    requires forall k :: 0 <= k < |next| ==>
      next[k] == Get(now, ExchangeRanges(Place(p, y, 0), Place(p, p.height - y - 1, 0), RowBytes(p), k))
    ensures TurnedOver(next, was, p, y + 1, 0)
  {
    RowWithin(p, |was|, y);
    RowWithin(p, |was|, p.height - y - 1);
    var top, bottom := Place(p, y, 0), Place(p, p.height - y - 1, 0);
    forall i | 0 <= i < |next| ensures next[i] == Get(was, TurnOrigin(p, y + 1, 0, i)) {
      RowTurns(p, y, i);
      TurnNext(p, y, i);
      hide TurnOrigin, Place, RowBytes, ExchangeRanges;
      var j := ExchangeRanges(top, bottom, RowBytes(p), i);
      assert j < |now| by { RangesWithin(top, bottom, RowBytes(p), |now|, i); }
      assert next[i] == now[j];
    }
  }

  lemma RangesWithin(first: nat, second: nat, n: nat, len: nat, k: nat)
    requires first + n <= second && second + n <= len && k < len
    ensures ExchangeRanges(first, second, n, k) < len
  {
  }

  lemma RowTurns(p: Picture, y: nat, i: nat)
    requires p.stride > 0 && RowBytes(p) <= p.stride && y < p.height / 2
    requires Place(p, y, 0) + RowBytes(p) <= Place(p, p.height - y - 1, 0)
    ensures TurnOrigin(p, y, RowBytes(p), i)
         == TurnOrigin(p, y, 0, ExchangeRanges(Place(p, y, 0), Place(p, p.height - y - 1, 0), RowBytes(p), i))
  {
    var top, bottom, n := Place(p, y, 0), Place(p, p.height - y - 1, 0), RowBytes(p);
    Splits(p, i);
    if top <= i < top + n {
      PlaceSplits(p, y, i - top);
      PlaceSplits(p, p.height - y - 1, i - top);
    } else if bottom <= i < bottom + n {
      PlaceSplits(p, y, i - bottom);
      PlaceSplits(p, p.height - y - 1, i - bottom);
    }
    hide RowOf, ColumnOf, RowBytes;
  }

  method SwapRowsCpp(bytes: array<u8>, p: Picture, top: nat, ghost was: bytes)
    requires p.layout.Yuyv? && Fits(p, bytes.Length) && top < p.height / 2 && TurnedOver(bytes[..], was, p, top, 0)
    modifies bytes
    ensures TurnedOver(bytes[..], was, p, top + 1, 0)
  {
    ghost var now := bytes[..];
    assert |was| == bytes.Length;
    hide TurnedOver;
    RowWithin(p, bytes.Length, p.height - top - 1);
    RowsApart(p, top, p.height - top - 1);
    var first, second := top * p.stride, (p.height - top - 1) * p.stride;
    assert first == Place(p, top, 0) && second == Place(p, p.height - top - 1, 0) && RowBytes(p) == p.width * 2;
    hide Place, RowBytes, ExchangeRanges;
    SwapRanges(bytes, first, second, p.width * 2);
    RowsTurned(now, bytes[..], was, p, top);
  }

  method FlipVerticalCpp(bytes: array<u8>, p: Picture) returns (ok: bool)
    requires p.layout.Yuyv?
    modifies bytes
    ensures ok == CppAccepts(p, bytes.Length)
    ensures ok ==> Fits(p, bytes.Length) && bytes[..] == Flipped(old(bytes[..]), p, false, true)
    ensures !ok ==> bytes[..] == old(bytes[..])
  {
    hide TurnedOver, Flipped;
    if !CppAccepts(p, bytes.Length) { return false; }
    CppAcceptsLess(p, bytes.Length);
    ghost var was := bytes[..];
    TurnedNext(was, was, p, 0);
    for top := 0 to p.height / 2
      invariant TurnedOver(bytes[..], was, p, top, 0)
    {
      SwapRowsCpp(bytes, p, top, was);
    }
    TurnedAll(bytes[..], was, p);
    return true;
  }

  lemma RowsApart(p: Picture, y: nat, z: nat)
    requires y < z && RowBytes(p) <= p.stride
    ensures Place(p, y, 0) + RowBytes(p) <= Place(p, z, 0)
  {
    Ordered(y + 1, z, p.stride);
    assert (y + 1) * p.stride == y * p.stride + p.stride;
  }

  // ----- What a flip means -----

  lemma FlipNothing(bytes: bytes, p: Picture)
    requires Fits(p, |bytes|)
    ensures Flipped(bytes, p, false, false) == bytes
  {
    forall i | 0 <= i < |bytes| ensures Origin(p, false, false, i) == i { Splits(p, i); }
  }

  lemma OriginTwice(p: Picture, h1: bool, v1: bool, h2: bool, v2: bool, i: nat)
    requires p.stride > 0 && RowBytes(p) <= p.stride
    ensures Origin(p, h1, v1, Origin(p, h2, v2, i)) == Origin(p, h1 != h2, v1 != v2, i)
  {
    Splits(p, i);
    var row, col := RowOf(p, i), ColumnOf(p, i);
    if row < p.height && col < RowBytes(p) {
      MirrorTwice(p, col);
      var (r, c) := (if v2 then p.height - 1 - row else row, if h2 then Mirror(p, col) else col);
      PlaceSplits(p, r, c);
      hide RowOf, ColumnOf, Place, RowBytes, Mirror;
    }
  }

  /** MAIN RESULT: flips compose as their axes do - each is its own inverse, the two
      commute, and together they are a half turn. */
  lemma FlipsCompose(bytes: bytes, p: Picture, h1: bool, v1: bool, h2: bool, v2: bool)
    requires Fits(p, |bytes|)
    ensures Flipped(Flipped(bytes, p, h1, v1), p, h2, v2) == Flipped(bytes, p, h1 != h2, v1 != v2)
  {
    var once := Flipped(bytes, p, h1, v1);
    forall i | 0 <= i < |bytes| ensures Flipped(once, p, h2, v2)[i] == Flipped(bytes, p, h1 != h2, v1 != v2)[i] {
      OriginWithin(p, h2, v2, |bytes|, i);
      OriginWithin(p, h1, v1, |bytes|, Origin(p, h2, v2, i));
      OriginTwice(p, h1, v1, h2, v2, i);
      hide Origin;
    }
  }

  /** Padding and everything past the last row stay. */
  lemma PaddingStays(bytes: bytes, p: Picture, horizontal: bool, vertical: bool, i: nat)
    requires Fits(p, |bytes|) && i < |bytes| && (RowOf(p, i) >= p.height || ColumnOf(p, i) >= RowBytes(p))
    ensures Flipped(bytes, p, horizontal, vertical)[i] == bytes[i]
  {
  }

  /** A pixel's luma and its two shared chroma bytes, in a YUYV row. */
  function LumaColumn(x: nat): nat { 2 * x }

  function ChromaColumn(x: nat, v: bool): nat { x / 2 * 4 + if v then 3 else 1 }

  /** MAIN RESULT: in an even YUYV width each pixel keeps its own luma and chroma and
      moves to the mirrored column, or row, or both. */
  lemma PixelsMove(bytes: bytes, p: Picture, horizontal: bool, vertical: bool, x: nat, y: nat, v: bool)
    requires Fits(p, |bytes|) && p.layout.Yuyv? && p.width % 2 == 0 && x < p.width && y < p.height
    ensures var (tx, ty) := (if horizontal then p.width - 1 - x else x, if vertical then p.height - 1 - y else y);
            var flipped := Flipped(bytes, p, horizontal, vertical);
            && Get(flipped, Place(p, y, LumaColumn(x))) == Get(bytes, Place(p, ty, LumaColumn(tx)))
            && Get(flipped, Place(p, y, ChromaColumn(x, v))) == Get(bytes, Place(p, ty, ChromaColumn(tx, v)))
  {
    ColumnsMirror(p, x, v);
    hide Mirror;
    BytesMove(bytes, p, horizontal, vertical, LumaColumn(x), y);
    BytesMove(bytes, p, horizontal, vertical, ChromaColumn(x, v), y);
  }

  /** MAIN RESULT: in an RGBA picture the four bytes of a pixel move together, unchanged,
      to the mirrored column, or row, or both. */
  lemma RgbaPixelsMove(bytes: bytes, p: Picture, horizontal: bool, vertical: bool, x: nat, y: nat, c: nat)
    requires Fits(p, |bytes|) && p.layout.Rgba? && x < p.width && y < p.height && c < 4
    ensures var (tx, ty) := (if horizontal then p.width - 1 - x else x, if vertical then p.height - 1 - y else y);
            Get(Flipped(bytes, p, horizontal, vertical), y * p.stride + 4 * x + c)
            == Get(bytes, ty * p.stride + 4 * tx + c)
  {
    RgbaMirrors(p, x, c);
    hide Mirror;
    BytesMove(bytes, p, horizontal, vertical, 4 * x + c, y);
  }

  lemma RgbaMirrors(p: Picture, x: nat, c: nat)
    requires p.layout.Rgba? && x < p.width && c < 4
    ensures 4 * x + c < RowBytes(p) && Mirror(p, 4 * x + c) == 4 * (p.width - 1 - x) + c
  {
  }

  lemma ColumnsMirror(p: Picture, x: nat, v: bool)
    requires p.layout.Yuyv? && p.width % 2 == 0 && x < p.width
    ensures LumaColumn(x) < RowBytes(p) && ChromaColumn(x, v) < RowBytes(p)
    ensures Mirror(p, LumaColumn(x)) == LumaColumn(p.width - 1 - x)
    ensures Mirror(p, ChromaColumn(x, v)) == ChromaColumn(p.width - 1 - x, v)
  {
  }

  lemma BytesMove(bytes: bytes, p: Picture, horizontal: bool, vertical: bool, b: nat, y: nat)
    requires Fits(p, |bytes|) && b < RowBytes(p) && y < p.height
    ensures Get(Flipped(bytes, p, horizontal, vertical), Place(p, y, b))
            == Get(bytes, Place(p, if vertical then p.height - 1 - y else y, if horizontal then Mirror(p, b) else b))
  {
    PlaceWithin(p, |bytes|, y, b);
    PlaceSplits(p, y, b);
    OriginWithin(p, horizontal, vertical, |bytes|, Place(p, y, b));
    hide RowOf, ColumnOf, Place, Mirror, RowBytes;
  }
}

/** The preview record as bytes, and the pictures put into it
    (host-rs/src/preview.rs:33-162, 179-268). */
module PreviewRecord {
  import opened Basics
  import opened Arithmetic
  import opened Bytes
  import Seqlock = PreviewSeqlock

  type Frame = Seqlock.Frame

  const HEADER: nat := 32
  const MAGIC: bytes := [0x4D, 0x42, 0x57, 0x50]
  const VERSION: u32 := 1
  const PREVIEW_WIDTH: nat := 320

  /** `as u32` keeps the low 32 bits of each size. */
  function HeaderBytes(number: u64, width: nat, height: nat, len: nat): (raw: bytes)
    ensures |raw| == HEADER
  {
    MAGIC + LE(VERSION, 4) + LE(number, 8) + LE(width % U32_LIMIT, 4) + LE(height % U32_LIMIT, 4)
    + LE(len % U32_LIMIT, 4) + [0, 0, 0, 0]
  }

  /** The sizes are multiplied in 64 bits, wrapping. */
  function ParseHeader(raw: bytes): Seqlock.Head
    requires |raw| == HEADER
  {
    Widths();
    var width, height, len := FromLE(raw[16..20]), FromLE(raw[20..24]), FromLE(raw[24..28]);
    if raw[..4] != MAGIC || FromLE(raw[4..8]) != VERSION then Seqlock.Blank
    else if width == 0 || height == 0 || len != width * height * 4 % U64_LIMIT || len > Seqlock.CAPACITY
      then Seqlock.Blank
    else Seqlock.Head(FromLE(raw[8..16]), width, height)
  }

  lemma HeaderFields(number: u64, width: nat, height: nat, len: nat)
    ensures var raw := HeaderBytes(number, width, height, len);
            && raw[..4] == MAGIC && FromLE(raw[4..8]) == VERSION && FromLE(raw[8..16]) == number
            && FromLE(raw[16..20]) == width % U32_LIMIT && FromLE(raw[20..24]) == height % U32_LIMIT
            && FromLE(raw[24..28]) == len % U32_LIMIT && raw[28..] == [0, 0, 0, 0]
  {
    hide LE, FromLE, Pow256;
    Widths();
    FromLEofLE(VERSION, 4);
    FromLEofLE(number, 8);
    FromLEofLE(width % U32_LIMIT, 4);
    FromLEofLE(height % U32_LIMIT, 4);
    FromLEofLE(len % U32_LIMIT, 4);
    var raw := HeaderBytes(number, width, height, len);
    assert raw[4..8] == LE(VERSION, 4);
    assert raw[8..16] == LE(number, 8);
    assert raw[16..20] == LE(width % U32_LIMIT, 4);
    assert raw[20..24] == LE(height % U32_LIMIT, 4);
    assert raw[24..28] == LE(len % U32_LIMIT, 4);
  }

  lemma AcceptedIsSmall(frame: Frame)
    requires Seqlock.Accepted(frame)
    ensures |frame.pixels| < U32_LIMIT
    ensures frame.width > 0 && frame.height > 0 ==> frame.width < U32_LIMIT && frame.height < U32_LIMIT
  {
    if frame.width > 0 && frame.height > 0 {
      assert frame.width <= frame.width * frame.height;
      assert frame.height <= frame.width * frame.height;
    }
  }

  lemma ParsesTo(raw: bytes, number: u64, frame: Frame)
    requires |raw| == HEADER && raw[..4] == MAGIC && FromLE(raw[4..8]) == VERSION && FromLE(raw[8..16]) == number
    requires FromLE(raw[16..20]) == frame.width % U32_LIMIT && FromLE(raw[20..24]) == frame.height % U32_LIMIT
    requires FromLE(raw[24..28]) == |frame.pixels| && |frame.pixels| <= Seqlock.CAPACITY
    requires |frame.pixels| == frame.width * frame.height * 4
    requires frame.width > 0 && frame.height > 0 ==> frame.width < U32_LIMIT && frame.height < U32_LIMIT
    ensures ParseHeader(raw) == Seqlock.HeadFor(number, frame)
  {
    hide FromLE;
    Widths();
  }

  /** What a publish writes first is what a reader parses: the round trip behind
      the interleaved model's header steps. */
  lemma ParseOfHeader(number: u64, frame: Frame)
    requires Seqlock.Accepted(frame)
    ensures ParseHeader(HeaderBytes(number, frame.width, frame.height, |frame.pixels|))
        == Seqlock.HeadFor(number, frame)
  {
    hide HeaderBytes, LE, FromLE, ParseHeader, Seqlock.HeadFor;
    HeaderFields(number, frame.width, frame.height, |frame.pixels|);
    AcceptedIsSmall(frame);
    ParsesTo(HeaderBytes(number, frame.width, frame.height, |frame.pixels|), number, frame);
  }

  /** Overwriting the eight sequence bytes changes the parsed number and nothing else. */
  lemma ParseOfRenumbered(raw: bytes, number: u64)
    requires |raw| == HEADER
    ensures ParseHeader(raw[..8] + LE(number, 8) + raw[16..])
            == (var old_ := ParseHeader(raw); if old_.Blank? then old_ else old_.(seq_ := number))
  {
    hide LE, FromLE, Pow256;
    Widths();
    FromLEofLE(number, 8);
    var next := raw[..8] + LE(number, 8) + raw[16..];
    assert next[..4] == raw[..4];
    assert next[4..8] == raw[4..8];
    assert next[8..16] == LE(number, 8);
    assert next[16..20] == raw[16..20] && next[20..24] == raw[20..24] && next[24..28] == raw[24..28];
  }

  /** A header that parses describes a picture the record can hold, unless its
      sizes wrapped, which takes 2^62 pixels. */
  lemma ParsedSizes(raw: bytes)
    requires |raw| == HEADER
    ensures var head := ParseHeader(raw);
            !head.Blank? ==>
              head.width > 0 && head.height > 0
              && (Seqlock.Length(head) <= Seqlock.CAPACITY || head.width * head.height >= 0x4000_0000_0000_0000)
  {
    Widths();
  }

  /** MAIN RESULT: the header byte by byte. It parses to a number and two sizes if and only
      if it starts with MBWP and version 1 and carries the number, the sizes and the length
      they give, low byte first, at 8, 16, 20 and 24, none of them zero or too long. */
  lemma HeaderLayout(raw: bytes, number: u64, width: nat, height: nat)
    requires |raw| == 32
    ensures ParseHeader(raw) == Seqlock.Head(number, width, height) <==>
              && raw[0] as char == 'M' && raw[1] as char == 'B' && raw[2] as char == 'W' && raw[3] as char == 'P'
              && Holds4(raw, 4, 1) && Holds8(raw, 8, number) && Holds4(raw, 16, width) && Holds4(raw, 20, height)
              && Holds4(raw, 24, width * height * 4 % 0x1_0000_0000_0000_0000)
              && width > 0 && height > 0 && width * height * 4 % 0x1_0000_0000_0000_0000 <= 320 * 1024 * 4
  {
    LowByteFirst4(raw, 4, 1);
    LowByteFirst8(raw, 8, number);
    LowByteFirst4(raw, 16, width);
    LowByteFirst4(raw, 20, height);
    LowByteFirst4(raw, 24, width * height * 4 % U64_LIMIT);
    hide FromLE, Holds4, Holds8;
    assert raw[..4] == [raw[0], raw[1], raw[2], raw[3]];
  }

  // ----- Publish and read, one after the other -----

  /** The whole record after a successful publish. */
  function Stored(file: bytes, number: u64, frame: Frame): bytes
    requires Seqlock.Accepted(frame) && |file| >= HEADER + Seqlock.CAPACITY
  {
    HeaderBytes(number, frame.width, frame.height, |frame.pixels|) + frame.pixels + file[HEADER + |frame.pixels|..]
  }

  /** `latest` when nothing is written meanwhile. */
  function Latest(file: bytes): Option<Frame> {
    if |file| < HEADER then None
    else
      match ParseHeader(file[..HEADER])
      case Blank => None
      case Head(number, width, height) =>
        var len := width * height * 4 % U64_LIMIT;
        if number % 2 == 1 || |file| < HEADER + len then None
        else Some(Seqlock.Frame(width, height, file[HEADER..HEADER + len]))
  }

  lemma EvenIsEven(n: u64)
    ensures Seqlock.EvenAbove(n) % 2 == 0
  {
  }

  /** MAIN RESULT: with the writer idle after a successful publish, the reader gets
      back exactly that frame - unless the frame has no pixels, which reads as
      nothing at all. */
  lemma LatestOfStored(file: bytes, before: u64, frame: Frame)
    requires Seqlock.Accepted(frame) && |file| >= HEADER + Seqlock.CAPACITY
    ensures Latest(Stored(file, Seqlock.EvenAbove(before), frame))
            == if frame.width > 0 && frame.height > 0 then Some(frame) else None
  {
    hide HeaderBytes, ParseHeader, Seqlock.EvenAbove;
    var number := Seqlock.EvenAbove(before);
    EvenIsEven(before);
    ParseOfHeader(number, frame);
    var stored := Stored(file, number, frame);
    assert stored[..HEADER] == HeaderBytes(number, frame.width, frame.height, |frame.pixels|);
    assert stored[HEADER..HEADER + |frame.pixels|] == frame.pixels;
    if frame.width > 0 && frame.height > 0 { AcceptedIsSmall(frame); }
  }

  /** `write_at`: every byte of `data`, from `offset` on. */
  method WriteAt(file: array<u8>, offset: nat, data: bytes)
    requires offset + |data| <= file.Length
    modifies file
    ensures file[..] == old(file[..offset]) + data + old(file[offset + |data|..])
  {
    var i := 0;
    while i < |data|
      invariant 0 <= i <= |data|
      invariant file[..offset] == old(file[..offset])
      invariant forall k :: 0 <= k < i ==> file[offset + k] == data[k]
      invariant file[offset + i..] == old(file[offset + i..])
    {
      file[offset + i] := data[i];
      i := i + 1;
    }
    assert file[offset..offset + |data|] == data;
  }

  lemma Renumbered(file: bytes, odd: u64, even: u64, frame: Frame)
    requires Seqlock.Accepted(frame) && |file| >= HEADER + Seqlock.CAPACITY
    ensures var filled := Stored(file, odd, frame);
            filled[..8] + LE(even, 8) + filled[16..] == Stored(file, even, frame)
  {
    hide LE;
    var filled, stored := Stored(file, odd, frame), Stored(file, even, frame);
    assert filled[..8] == MAGIC + LE(VERSION, 4) == stored[..8];
    assert stored[8..16] == LE(even, 8);
    assert filled[16..] == stored[16..];
    assert stored == stored[..8] + stored[8..16] + stored[16..];
  }

  class Producer {
    const file: array<u8>
    var number: u64

    constructor (file: array<u8>)
      ensures this.file == file && number == 0
    {
      this.file := file;
      number := 0;
    }

    /** A frame that does not match its size, or does not fit, is dropped. */
    method Publish(frame: Frame)
      requires file.Length >= HEADER + Seqlock.CAPACITY
      modifies this`number, file
      ensures !Seqlock.Accepted(frame) ==> file[..] == old(file[..]) && number == old(number)
      ensures Seqlock.Accepted(frame) ==>
                && number == Seqlock.EvenAbove(Seqlock.OddAbove(old(number)))
                && file[..] == Stored(old(file[..]), number, frame)
      ensures Seqlock.Accepted(frame) ==>
                Latest(file[..]) == if frame.width > 0 && frame.height > 0 then Some(frame) else None
    {
      hide LE, HeaderBytes, Latest, Seqlock.OddAbove, Seqlock.EvenAbove;
      if |frame.pixels| != frame.width * frame.height * 4 || |frame.pixels| > Seqlock.CAPACITY { return; }
      number := Seqlock.OddAbove(number);
      ghost var was, odd := file[..], number;
      var head := HeaderBytes(number, frame.width, frame.height, |frame.pixels|);
      WriteAt(file, 0, head);
      WriteAt(file, HEADER, frame.pixels);
      assert file[..] == Stored(was, odd, frame);
      number := Seqlock.EvenAbove(number);
      WriteAt(file, 8, LE(number, 8));
      Renumbered(was, odd, number, frame);
      LatestOfStored(was, odd, frame);
    }
  }

  class Consumer {
    const file: array<u8>

    constructor (file: array<u8>)
      ensures this.file == file
    {
      this.file := file;
    }

    /** Both looks at the header see the same bytes when nobody writes between them. */
    method ReadLatest() returns (frame: Option<Frame>)
      ensures frame == Latest(file[..])
    {
      if file.Length < HEADER { return None; }
      var raw := file[..HEADER];
      assert raw == file[..][..HEADER];
      var parsed := ParseHeader(raw);
      if parsed.Blank? || parsed.seq_ % 2 == 1 { return None; }
      var len := parsed.width * parsed.height * 4 % U64_LIMIT;
      if file.Length < HEADER + len { return None; }
      var pixels := file[HEADER..HEADER + len];
      assert pixels == file[..][HEADER..HEADER + len];
      var check := ParseHeader(file[..HEADER]);
      if check.Blank? || check.seq_ != parsed.seq_ { return None; }
      return Some(Seqlock.Frame(parsed.width, parsed.height, pixels));
    }
  }

  // ----- Sampling -----

  /** `None` stands for a sample outside the buffer. */
  function Group(src: bytes, index: nat): Option<bytes> {
    if index + 4 <= |src| then Some(src[index..index + 4]) else None
  }

  /** The source column or row in the middle of block `k`. */
  function Middle(k: nat, step: nat): nat { k * step + step / 2 }

  function RgbaPixel(src: bytes, stride: nat, x: nat, y: nat): (pixel: bytes)
    ensures |pixel| == 4
  {
    match Group(src, y * stride + x * 4)
    case Some(pixel) => pixel
    case None => [0, 0, 0, 255]
  }

  /** The colour conversion itself is a parameter: (luma, u, v) to (r, g, b). */
  function YuyvPixel(src: bytes, stride: nat, x: nat, y: nat, colour: (u8, u8, u8) -> (u8, u8, u8)): (pixel: bytes)
    ensures |pixel| == 4
  {
    var (luma, u, v) :=
      match Group(src, y * stride + x / 2 * 4)
      case Some(pixel) => (pixel[if x % 2 == 0 then 0 else 2], pixel[1], pixel[3])
      case None => (16, 128, 128);
    var (r, g, b) := colour(luma, u, v);
    [r, g, b, 255]
  }

  /** The first `count` pixels of a picture `width` wide, in reading order. */
  function Picture(pixel: (nat, nat) -> bytes, width: nat, count: nat): bytes
    requires width > 0 || count == 0
  {
    if count == 0 then []
    else Picture(pixel, width, count - 1) + pixel((count - 1) % width, (count - 1) / width)
  }

  lemma {:induction false} PictureLength(pixel: (nat, nat) -> bytes, width: nat, count: nat)
    requires width > 0 || count == 0
    requires forall x, y :: |pixel(x, y)| == 4
    ensures |Picture(pixel, width, count)| == 4 * count
  {
    if count > 0 { PictureLength(pixel, width, count - 1); }
  }

  function RgbaAt(src: bytes, stride: nat): (nat, nat) -> bytes {
    (x: nat, y: nat) => RgbaPixel(src, stride, x, y)
  }

  function YuyvAt(src: bytes, stride: nat, colour: (u8, u8, u8) -> (u8, u8, u8)): (nat, nat) -> bytes {
    (x: nat, y: nat) => YuyvPixel(src, stride, x, y, colour)
  }

  function Step(requested: nat): (step: nat)
    ensures step > 0
  {
    if requested == 0 then 1 else requested
  }

  /** The sampled picture, whichever sampler: one source pixel from the middle of each block. */
  function Sampled(pixel: (nat, nat) -> bytes, step: nat): (nat, nat) -> bytes {
    (x: nat, y: nat) => pixel(Middle(x, step), Middle(y, step))
  }

  function Thumbnail(pixel: (nat, nat) -> bytes, width: nat, height: nat, requested: nat): bytes {
    var step := Step(requested);
    if width / step == 0 then [] else Picture(Sampled(pixel, step), width / step, (height / step) * (width / step))
  }

  lemma {:induction false} PictureAt(pixel: (nat, nat) -> bytes, width: nat, count: nat, x: nat, y: nat)
    requires x < width && y * width + x < count
    requires forall x, y :: |pixel(x, y)| == 4
    ensures |Picture(pixel, width, count)| == 4 * count
    ensures var at := 4 * (y * width + x); Picture(pixel, width, count)[at..at + 4] == pixel(x, y)
  {
    PictureLength(pixel, width, count);
    PictureLength(pixel, width, count - 1);
    var at := 4 * (y * width + x);
    if y * width + x == count - 1 {
      RowMajor(width, x, y);
    } else {
      PictureAt(pixel, width, count - 1, x, y);
      assert Picture(pixel, width, count)[at..at + 4] == Picture(pixel, width, count - 1)[at..at + 4];
    }
  }

  lemma SampledAt(pixel: (nat, nat) -> bytes, step: nat, x: nat, y: nat)
    ensures Sampled(pixel, step)(x, y) == pixel(Middle(x, step), Middle(y, step))
    ensures (forall x, y :: |pixel(x, y)| == 4) ==> forall x, y :: |Sampled(pixel, step)(x, y)| == 4
  {
    if forall x, y :: |pixel(x, y)| == 4 {
      forall x: nat, y: nat ensures |Sampled(pixel, step)(x, y)| == 4 {
        assert |pixel(Middle(x, step), Middle(y, step))| == 4;
      }
    }
  }

  /** Each output pixel is the middle source pixel of its block. */
  lemma ThumbnailAt(pixel: (nat, nat) -> bytes, width: nat, height: nat, requested: nat, x: nat, y: nat)
    requires forall x, y :: |pixel(x, y)| == 4
    requires x < width / Step(requested) && y < height / Step(requested)
    ensures var (w, h) := (width / Step(requested), height / Step(requested));
            var out, at := Thumbnail(pixel, width, height, requested), 4 * (y * w + x);
            && |out| == w * h * 4 && 0 <= at && at + 4 <= |out|
            && out[at..at + 4] == pixel(Middle(x, Step(requested)), Middle(y, Step(requested)))
  {
    hide Picture, Sampled, Middle;
    var step := Step(requested);
    RowsFit(y, width / step, height / step);
    SampledAt(pixel, step, x, y);
    PictureAt(Sampled(pixel, step), width / step, (height / step) * (width / step), x, y);
  }

  /** The middle of a block is inside the source picture. */
  lemma MiddleInside(k: nat, step: nat, size: nat)
    requires step > 0 && k < size / step
    ensures Middle(k, step) < size
  {
    assert (k + 1) * step <= size / step * step <= size;
  }

  /** One row of the sampled picture, after `done` earlier pixels. */
  method FillRow(buffer: array<u8>, pixel: (nat, nat) -> bytes, step: nat, width: nat, oy: nat, ghost done: nat)
    requires width > 0 && step > 0 && done == oy * width && 4 * (done + width) <= buffer.Length
    requires forall x, y :: |pixel(x, y)| == 4
    requires buffer[..4 * done] == Picture(Sampled(pixel, step), width, done)
    modifies buffer
    ensures buffer[..4 * (done + width)] == Picture(Sampled(pixel, step), width, done + width)
  {
    ghost var at := Sampled(pixel, step);
    var y := Middle(oy, step);
    var ox, index := 0, 4 * (oy * width);
    while ox < width
      invariant 0 <= ox <= width && index == 4 * (done + ox)
      invariant buffer[..4 * (done + ox)] == Picture(at, width, done + ox)
    {
      var value := pixel(Middle(ox, step), y);
      NextPixel(at, width, ox, oy, done);
      PutPixel(buffer, index, value);
      ox, index := ox + 1, index + 4;
    }
  }

  lemma NextPixel(at: (nat, nat) -> bytes, width: nat, x: nat, y: nat, done: nat)
    requires x < width && done == y * width
    ensures Picture(at, width, done + x + 1) == Picture(at, width, done + x) + at(x, y)
  {
    RowMajor(width, x, y);
  }

  method PutPixel(buffer: array<u8>, index: nat, value: bytes)
    requires |value| == 4 && index + 4 <= buffer.Length
    modifies buffer
    ensures buffer[..index + 4] == old(buffer[..index]) + value
  {
    buffer[index] := value[0];
    buffer[index + 1] := value[1];
    buffer[index + 2] := value[2];
    buffer[index + 3] := value[3];
  }

  lemma NoPicture(pixel: (nat, nat) -> bytes, width: nat)
    ensures Picture(pixel, width, 0) == []
  {
  }

  method Sample(pixel: (nat, nat) -> bytes, width: nat, height: nat, requested: nat)
    returns (outWidth: nat, outHeight: nat, out: bytes)
    requires forall x, y :: |pixel(x, y)| == 4
    ensures outWidth == width / Step(requested) && outHeight == height / Step(requested)
    ensures out == Thumbnail(pixel, width, height, requested) && |out| == outWidth * outHeight * 4
  {
    hide Picture, Sampled;
    var step := Step(requested);
    outWidth, outHeight := width / step, height / step;
    var size: nat := outHeight * outWidth;
    NoPicture(Sampled(pixel, step), outWidth);
    var buffer := new u8[4 * size](_ => 0);
    if outWidth == 0 { return outWidth, outHeight, buffer[..]; }
    ghost var done := 0;
    var oy := 0;
    assert buffer[..0] == [];
    while oy < outHeight
      invariant 0 <= oy <= outHeight && done == oy * outWidth <= size
      invariant buffer[..4 * done] == Picture(Sampled(pixel, step), outWidth, done)
    {
      RowsFit(oy, outWidth, outHeight);
      FillRow(buffer, pixel, step, outWidth, oy, done);
      oy := oy + 1;
      done := done + outWidth;
    }
    out := buffer[..];
    assert out == buffer[..4 * size];
  }

  /** Where the sample for output pixel (ox, oy) is taken, and where its four bytes go. */
  predicate RgbaSampled(src: bytes, stride: nat, step: nat, outWidth: nat, out: bytes, ox: nat, oy: nat) {
    var x, y, at := ox * step + step / 2, oy * step + step / 2, 4 * (oy * outWidth + ox);
    var p := y * stride + x * 4;
    && 0 <= at && at + 4 <= |out|
    && out[at..at + 4]
       == if 0 <= p && p + 4 <= |src| then [src[p], src[p + 1], src[p + 2], src[p + 3]] else [0, 0, 0, 255]
  }

  /** Columns 2k and 2k + 1 share the four bytes at `g`: the even one has its luma first,
      the odd one third, and the chroma pair lies between and after. */
  predicate YuyvSampled(src: bytes, stride: nat, step: nat, outWidth: nat, out: bytes, ox: nat, oy: nat,
                        colour: (u8, u8, u8) -> (u8, u8, u8)) {
    var x, y, at := ox * step + step / 2, oy * step + step / 2, 4 * (oy * outWidth + ox);
    var g := y * stride + x / 2 * 4;
    var (red, green, blue) :=
      if 0 <= g && g + 4 <= |src| then colour(src[g + 2 * (x % 2)], src[g + 1], src[g + 3]) else colour(16, 128, 128);
    && 0 <= at && at + 4 <= |out|
    && out[at] == red && out[at + 1] == green && out[at + 2] == blue && out[at + 3] == 255
  }

  /** MAIN RESULT: where every byte of an RGBA preview comes from. */
  lemma RgbaBytes(src: bytes, width: nat, height: nat, stride: nat, requested: nat, ox: nat, oy: nat)
    requires var step := if requested == 0 then 1 else requested; ox < width / step && oy < height / step
    ensures var step := if requested == 0 then 1 else requested;
            var out := Thumbnail(RgbaAt(src, stride), width, height, requested);
            RgbaSampled(src, stride, step, width / step, out, ox, oy)
  {
    var step := Step(requested);
    ThumbnailAt(RgbaAt(src, stride), width, height, requested, ox, oy);
    var x, y := Middle(ox, step), Middle(oy, step);
    assert RgbaAt(src, stride)(x, y) == RgbaPixel(src, stride, x, y);
    hide Thumbnail;
  }

  /** MAIN RESULT: and every byte of a YUYV one. */
  lemma YuyvBytes(src: bytes, width: nat, height: nat, stride: nat, requested: nat,
                  colour: (u8, u8, u8) -> (u8, u8, u8), ox: nat, oy: nat)
    requires var step := if requested == 0 then 1 else requested; ox < width / step && oy < height / step
    ensures var step := if requested == 0 then 1 else requested;
            var out := Thumbnail(YuyvAt(src, stride, colour), width, height, requested);
            YuyvSampled(src, stride, step, width / step, out, ox, oy, colour)
  {
    var step := Step(requested);
    var out, at := Thumbnail(YuyvAt(src, stride, colour), width, height, requested), 4 * (oy * (width / step) + ox);
    ThumbnailAt(YuyvAt(src, stride, colour), width, height, requested, ox, oy);
    var x, y := Middle(ox, step), Middle(oy, step);
    assert YuyvAt(src, stride, colour)(x, y) == YuyvPixel(src, stride, x, y, colour);
    assert out[at..at + 4][0] == out[at] && out[at..at + 4][1] == out[at + 1];
    assert out[at..at + 4][2] == out[at + 2] && out[at..at + 4][3] == out[at + 3];
    hide Thumbnail;
  }

  method RgbaToRgba(src: bytes, width: nat, height: nat, stride: nat, step: nat)
    returns (outWidth: nat, outHeight: nat, out: bytes)
    ensures |out| == outWidth * outHeight * 4
    ensures out == Thumbnail(RgbaAt(src, stride), width, height, step)
    ensures var each := if step == 0 then 1 else step;
            && outWidth == width / each && outHeight == height / each
            && forall ox: nat, oy: nat :: ox < outWidth && oy < outHeight ==>
                 RgbaSampled(src, stride, each, outWidth, out, ox, oy)
  {
    outWidth, outHeight, out := Sample(RgbaAt(src, stride), width, height, step);
    hide Thumbnail, RgbaSampled;
    var each := if step == 0 then 1 else step;
    forall ox: nat, oy: nat | ox < outWidth && oy < outHeight
      ensures RgbaSampled(src, stride, each, outWidth, out, ox, oy)
    {
      RgbaBytes(src, width, height, stride, step, ox, oy);
    }
  }

  method YuyvToRgba(src: bytes, width: nat, height: nat, stride: nat, step: nat, colour: (u8, u8, u8) -> (u8, u8, u8))
    returns (outWidth: nat, outHeight: nat, out: bytes)
    ensures |out| == outWidth * outHeight * 4
    ensures out == Thumbnail(YuyvAt(src, stride, colour), width, height, step)
    ensures var each := if step == 0 then 1 else step;
            && outWidth == width / each && outHeight == height / each
            && forall ox: nat, oy: nat :: ox < outWidth && oy < outHeight ==>
                 YuyvSampled(src, stride, each, outWidth, out, ox, oy, colour)
  {
    outWidth, outHeight, out := Sample(YuyvAt(src, stride, colour), width, height, step);
    hide Thumbnail, YuyvSampled;
    var each := if step == 0 then 1 else step;
    forall ox: nat, oy: nat | ox < outWidth && oy < outHeight
      ensures YuyvSampled(src, stride, each, outWidth, out, ox, oy, colour)
    {
      YuyvBytes(src, width, height, stride, step, colour, ox, oy);
    }
  }

  /** Two buffers of one shape that agree on the first `visible` bytes of every row. */
  ghost predicate AgreeOnRows(a: bytes, b: bytes, visible: nat, height: nat, stride: nat) {
    && |a| == |b| == stride * height && visible <= stride
    && forall x: nat, y: nat :: x < visible && y < height ==>
      InRow(a, stride, height, x, y) == InRow(b, stride, height, x, y)
  }

  /** Row padding never reaches an RGBA preview: two buffers that agree on the visible
      bytes of every row give the same picture. */
  lemma PaddingIsInvisible(a: bytes, b: bytes, width: nat, height: nat, stride: nat, requested: nat)
    requires AgreeOnRows(a, b, 4 * width, height, stride)
    ensures Thumbnail(RgbaAt(a, stride), width, height, requested)
        == Thumbnail(RgbaAt(b, stride), width, height, requested)
  {
    forall x: nat, y: nat | x < width && y < height
      ensures RgbaAt(a, stride)(x, y) == RgbaAt(b, stride)(x, y)
    {
      SameGroup(a, b, 4 * width, height, stride, x * 4, y);
    }
    SameThumbnails(RgbaAt(a, stride), RgbaAt(b, stride), width, height, requested);
  }

  /** Nor a YUYV one, whatever stride the driver chose: a row's visible bytes are those
      of its groups, four for every two columns begun. */
  lemma YuyvPaddingIsInvisible(a: bytes, b: bytes, width: nat, height: nat, stride: nat, requested: nat,
                               colour: (u8, u8, u8) -> (u8, u8, u8))
    requires AgreeOnRows(a, b, (width + 1) / 2 * 4, height, stride)
    ensures Thumbnail(YuyvAt(a, stride, colour), width, height, requested)
         == Thumbnail(YuyvAt(b, stride, colour), width, height, requested)
  {
    forall x: nat, y: nat | x < width && y < height
      ensures YuyvAt(a, stride, colour)(x, y) == YuyvAt(b, stride, colour)(x, y)
    {
      SameGroup(a, b, (width + 1) / 2 * 4, height, stride, x / 2 * 4, y);
    }
    SameThumbnails(YuyvAt(a, stride, colour), YuyvAt(b, stride, colour), width, height, requested);
  }

  lemma SameThumbnails(p: (nat, nat) -> bytes, q: (nat, nat) -> bytes, width: nat, height: nat, requested: nat)
    requires forall x: nat, y: nat :: x < width && y < height ==> p(x, y) == q(x, y)
    ensures Thumbnail(p, width, height, requested) == Thumbnail(q, width, height, requested)
  {
    var step := Step(requested);
    var w, h := width / step, height / step;
    if w > 0 {
      forall x: nat, y: nat | x < w && y < h ensures Sampled(p, step)(x, y) == Sampled(q, step)(x, y) {
        MiddleInside(x, step, width);
        MiddleInside(y, step, height);
        SampledAt(p, step, x, y);
        SampledAt(q, step, x, y);
        hide Sampled, Middle;
      }
      SamePictures(Sampled(p, step), Sampled(q, step), w, h, h * w);
    }
    hide Picture, Sampled;
  }

  /** Byte `x` of row `y`. */
  function InRow(src: bytes, stride: nat, height: nat, x: nat, y: nat): u8
    requires |src| == stride * height && y < height && x < stride
  {
    RowsFit(y, stride, height);
    src[y * stride + x]
  }

  lemma SameGroup(a: bytes, b: bytes, visible: nat, height: nat, stride: nat, x: nat, y: nat)
    requires AgreeOnRows(a, b, visible, height, stride) && x + 4 <= visible && y < height
    ensures Group(a, y * stride + x) == Group(b, y * stride + x)
  {
    RowsFit(y, stride, height);
    var at := y * stride + x;
    assert a[at] == InRow(a, stride, height, x, y) == InRow(b, stride, height, x, y) == b[at];
    assert a[at + 1] == InRow(a, stride, height, x + 1, y) == InRow(b, stride, height, x + 1, y) == b[at + 1];
    assert a[at + 2] == InRow(a, stride, height, x + 2, y) == InRow(b, stride, height, x + 2, y) == b[at + 2];
    assert a[at + 3] == InRow(a, stride, height, x + 3, y) == InRow(b, stride, height, x + 3, y) == b[at + 3];
    assert a[at..at + 4] == [a[at], a[at + 1], a[at + 2], a[at + 3]];
    assert b[at..at + 4] == [b[at], b[at + 1], b[at + 2], b[at + 3]];
  }

  lemma {:induction false} SamePictures(p: (nat, nat) -> bytes, q: (nat, nat) -> bytes, width: nat, height: nat,
      count: nat)
    requires width > 0 && count <= height * width
    requires forall x: nat, y: nat :: x < width && y < height ==> p(x, y) == q(x, y)
    ensures Picture(p, width, count) == Picture(q, width, count)
  {
    if count > 0 {
      SamePictures(p, q, width, height, count - 1);
      QuotientBelow(count - 1, width, height);
    }
  }

  /** A tightly packed picture sampled at every pixel is itself. */
  lemma {:induction false} StepOneCopies(src: bytes, width: nat, count: nat)
    requires width > 0 && 4 * count <= |src|
    ensures Picture(Sampled(RgbaAt(src, 4 * width), 1), width, count) == src[..4 * count]
  {
    if count > 0 {
      var at := 4 * (count - 1);
      StepOneCopies(src, width, count - 1);
      CopiesPixel(src, width, count - 1);
      assert src[..4 * count] == src[..at] + src[at..at + 4];
    }
    hide Sampled, RgbaAt, RgbaPixel;
  }

  lemma CopiesPixel(src: bytes, width: nat, k: nat)
    requires width > 0 && 4 * k + 4 <= |src|
    ensures Sampled(RgbaAt(src, 4 * width), 1)(k % width, k / width) == src[4 * k..4 * k + 4]
  {
    var x, y := k % width, k / width;
    assert k == y * width + x;
    Fourfold(y, width, x);
    SampledAt(RgbaAt(src, 4 * width), 1, x, y);
    MiddleOne(x);
    MiddleOne(y);
    PixelAt(src, 4 * width, x, y, 4 * k);
    hide *;
  }

  lemma Fourfold(y: nat, width: nat, x: nat)
    ensures y * (4 * width) + x * 4 == 4 * (y * width + x)
  {
  }

  lemma MiddleOne(k: nat)
    ensures Middle(k, 1) == k
  {
  }

  lemma PixelAt(src: bytes, stride: nat, x: nat, y: nat, at: nat)
    requires at == y * stride + x * 4 && at + 4 <= |src|
    ensures RgbaAt(src, stride)(x, y) == src[at..at + 4]
  {
  }

  function StepFor(width: nat): nat {
    if width <= PREVIEW_WIDTH then 1 else (width + PREVIEW_WIDTH - 1) / PREVIEW_WIDTH
  }

  /** The step is the smallest that brings the picture to 320 columns or fewer, and
      never loses the picture: a source with columns keeps at least 160 of 320. */
  lemma StepForIsLeast(width: nat, step: nat)
    ensures StepFor(width) >= 1 && width <= StepFor(width) * PREVIEW_WIDTH
    ensures width / StepFor(width) <= PREVIEW_WIDTH
    ensures step > 0 && width <= step * PREVIEW_WIDTH ==> StepFor(width) <= step
    ensures width > PREVIEW_WIDTH ==> width / StepFor(width) >= PREVIEW_WIDTH / 2
  {
    var s := StepFor(width);
    assert s * PREVIEW_WIDTH >= width;
    QuotientAtMost(width, s, PREVIEW_WIDTH);
    if width > PREVIEW_WIDTH {
      assert (s - 1) * PREVIEW_WIDTH < width && s >= 2;
      assert s * (PREVIEW_WIDTH / 2) <= width;
      QuotientAtLeast(width, s, PREVIEW_WIDTH / 2);
    }
  }

  /** A sampled frame is published exactly when its rows fit the record: at most
      1024 rows of a 320-column preview. Taller ones are dropped silently. */
  lemma SampledFramesAreAccepted(width: nat, height: nat, pixels: bytes)
    requires |pixels| == width / StepFor(width) * (height / StepFor(width)) * 4
    ensures var frame := Seqlock.Frame(width / StepFor(width), height / StepFor(width), pixels);
            && (Seqlock.Accepted(frame) <==> frame.width * frame.height <= PREVIEW_WIDTH * 1024)
            && (frame.height <= 1024 ==> Seqlock.Accepted(frame))
  {
    StepForIsLeast(width, 1);
    hide StepFor;
    CapacityInPixels(width / StepFor(width), height / StepFor(width), pixels);
  }

  lemma CapacityInPixels(w: nat, h: nat, pixels: bytes)
    requires |pixels| == w * h * 4 && w <= PREVIEW_WIDTH
    ensures Seqlock.Accepted(Seqlock.Frame(w, h, pixels)) <==> w * h <= PREVIEW_WIDTH * 1024
    ensures h <= 1024 ==> Seqlock.Accepted(Seqlock.Frame(w, h, pixels))
  {
    Ordered(w, PREVIEW_WIDTH, h);
  }
}

/** AMB1 messages as bytes (host-rs/src/wire.rs). */
module Wire {
  import opened Basics
  import opened Bytes
  import WorkerLoop

  const HEADER_SIZE: nat := 24
  const MAX_PAYLOAD: nat := 16 * 1024 * 1024
  const MAX_CONTROL_PAYLOAD: nat := 16 * 1024
  const MAX_QUALITY_MODES: nat := 256
  const QUALITY_MODE_BYTES: nat := 12
  const MAGIC: bytes := [0x41, 0x4D, 0x42, 0x31]

  const HELLO: u8 := 0x01
  const HELLO_ACK: u8 := 0x02
  const PING: u8 := 0x03
  const PONG: u8 := 0x04
  const QUALITY_CAPABILITIES: u8 := 0x05
  const PREPARE_QUALITY: u8 := 0x06
  const QUALITY_RESULT: u8 := 0x07
  const PAUSED: u8 := 0x08
  const COMMIT_QUALITY: u8 := 0x09
  const CLIENT_CHALLENGE: u8 := 0x0a
  const CLIENT_AUTH: u8 := 0x0b
  const CLIENT_AUTH_RESULT: u8 := 0x0c
  const PAIRING_INFO: u8 := 0x0d
  const HOST_HELLO: u8 := 0x0e
  const VIDEO_CONFIG: u8 := 0x10
  const IDR_REQUEST: u8 := 0x12

  const CLIENT_AUTH_VERSION: u8 := 2
  const AUTH_USB: u8 := 0
  const AUTH_LAN: u8 := 1
  const BINDING_BYTES: nat := 32
  const NONCE_BYTES: nat := 32
  const KEY_BYTES: nat := 65
  const SIGNATURE_BYTES: nat := 64
  const MAX_LABEL: nat := 32
  const CLIENT_AUTH_MIN: nat := 1 + 65 + 1 + 64
  const CHALLENGE_BYTES: nat := 2 + 32 + 32
  const AUTH_RESULT_BYTES: nat := 6

  datatype WireError =
    | BadMagic | TooLong | BadLength | Truncated | TooManyModes | BadVersion
    | BadBinding | BadLabel | BadOutcome | BadCount | BadFields

  function U16At(b: bytes, i: nat): u16
    requires i + 2 <= |b|
  {
    Widths();
    FromLE(b[i..i + 2])
  }

  function U32At(b: bytes, i: nat): u32
    requires i + 4 <= |b|
  {
    Widths();
    FromLE(b[i..i + 4])
  }

  function U64At(b: bytes, i: nat): u64
    requires i + 8 <= |b|
  {
    Widths();
    FromLE(b[i..i + 8])
  }

  // ----- The header -----

  datatype Header = Header(kind: u8, flags: u16, sequence: u32, payloadLen: u32, pts: u64)

  /** Whether 4-byte addresses, a fingerprint and a key fill `length` exactly. */
  predicate PairingFits(length: nat) {
    length >= 2 + 4 + 32 + 16
    && var count := (length - (2 + 32 + 16)) / 4;
       1 <= count <= 4 && length == 2 + count * 4 + 32 + 16
  }

  /** The type-specific length check. */
  predicate SizeAllowed(kind: u8, length: nat) {
    if kind == CLIENT_CHALLENGE then length == CHALLENGE_BYTES
    else if kind == CLIENT_AUTH then CLIENT_AUTH_MIN <= length <= CLIENT_AUTH_MIN + MAX_LABEL
    else if kind == CLIENT_AUTH_RESULT then length == AUTH_RESULT_BYTES
    else if kind == PAIRING_INFO then PairingFits(length)
    else if kind == QUALITY_CAPABILITIES then 1 <= length <= MAX_CONTROL_PAYLOAD
    else if kind == PREPARE_QUALITY || kind == QUALITY_RESULT then length == 14
    else if kind == PAUSED || kind == COMMIT_QUALITY || kind == PING || kind == PONG then length == 8
    else if kind == HOST_HELLO then length == 0
    else if kind == VIDEO_CONFIG then length == 16
    else if kind == IDR_REQUEST || kind == HELLO_ACK then length == 0
    else if kind == HELLO then length == 0 || length == 16
    else true
  }

  predicate Sendable(h: Header) { h.payloadLen <= MAX_PAYLOAD && SizeAllowed(h.kind, h.payloadLen) }

  function EncodeHeader(h: Header): Result<bytes, WireError> {
    if h.payloadLen > MAX_PAYLOAD then Err(TooLong)
    else if !SizeAllowed(h.kind, h.payloadLen) then Err(BadLength)
    else Ok(HeaderBytes(h))
  }

  function HeaderBytes(h: Header): (b: bytes)
    ensures |b| == HEADER_SIZE
  {
    MAGIC + [1, h.kind] + LE(h.flags, 2) + LE(h.sequence, 4) + LE(h.payloadLen, 4) + LE(h.pts, 8)
  }

  function DecodeHeader(b: bytes): Result<Header, WireError> {
    if |b| != HEADER_SIZE || b[..4] != MAGIC || b[4] != 1 then Err(BadMagic)
    else
      var h := Header(b[5], U16At(b, 6), U32At(b, 8), U32At(b, 12), U64At(b, 16));
      if h.payloadLen > MAX_PAYLOAD then Err(TooLong)
      else if !SizeAllowed(h.kind, h.payloadLen) then Err(BadLength)
      else Ok(h)
  }

  lemma HeaderFields(h: Header)
    ensures var b := HeaderBytes(h);
            && b[..4] == MAGIC && b[4] == 1 && b[5] == h.kind && U16At(b, 6) == h.flags
            && U32At(b, 8) == h.sequence && U32At(b, 12) == h.payloadLen && U64At(b, 16) == h.pts
  {
    hide LE, FromLE, Pow256;
    Widths();
    FromLEofLE(h.flags, 2);
    FromLEofLE(h.sequence, 4);
    FromLEofLE(h.payloadLen, 4);
    FromLEofLE(h.pts, 8);
    var b := HeaderBytes(h);
    assert b[6..8] == LE(h.flags, 2);
    assert b[8..12] == LE(h.sequence, 4);
    assert b[12..16] == LE(h.payloadLen, 4);
    assert b[16..24] == LE(h.pts, 8);
  }

  /** MAIN RESULT: every header that may be sent is read back unchanged... */
  lemma HeaderRoundTrip(h: Header)
    ensures EncodeHeader(h).Ok? <==> Sendable(h)
    ensures Sendable(h) ==> DecodeHeader(HeaderBytes(h)) == Ok(h)
  {
    HeaderFields(h);
    hide HeaderBytes, U16At, U32At, U64At;
  }

  /** ... and every header that is accepted is the one its sender encoded. */
  lemma HeaderIsCanonical(b: bytes)
    requires DecodeHeader(b).Ok?
    ensures EncodeHeader(DecodeHeader(b).value) == Ok(b)
  {
    hide LE, FromLE, Pow256, SizeAllowed;
    Widths();
    LEofFromLE(b[6..8]);
    LEofFromLE(b[8..12]);
    LEofFromLE(b[12..16]);
    LEofFromLE(b[16..24]);
    assert b == b[..4] + [b[4], b[5]] + b[6..8] + b[8..12] + b[12..16] + b[16..24];
  }

  // ----- Capabilities -----

  datatype QualityMode = QualityMode(width: u16, height: u16, fps: u16, bitrate: u32)

  datatype Capabilities = Capabilities(version: u8, permission: u8, revision: u16, epoch: u32, modes: seq<QualityMode>)

  function ModeBytes(m: QualityMode): (b: bytes)
    ensures |b| == QUALITY_MODE_BYTES
  {
    LE(m.width, 2) + LE(m.height, 2) + LE(m.fps, 2) + LE(0, 2) + LE(m.bitrate, 4)
  }

  function ModeAt(b: bytes, i: nat): QualityMode
    requires i + QUALITY_MODE_BYTES <= |b|
  {
    QualityMode(U16At(b, i), U16At(b, i + 2), U16At(b, i + 4), U32At(b, i + 8))
  }

  function ModesBytes(modes: seq<QualityMode>): (b: bytes)
    ensures |b| == QUALITY_MODE_BYTES * |modes|
  {
    if modes == [] then [] else ModesBytes(modes[..|modes| - 1]) + ModeBytes(modes[|modes| - 1])
  }

  function ModesIn(b: bytes): (modes: seq<QualityMode>)
    requires |b| % QUALITY_MODE_BYTES == 0
    ensures QUALITY_MODE_BYTES * |modes| == |b|
  {
    if b == [] then [] else ModesIn(b[..|b| - QUALITY_MODE_BYTES]) + [ModeAt(b, |b| - QUALITY_MODE_BYTES)]
  }

  function Prefix(c: Capabilities): (b: bytes)
    ensures |b| == 10
  {
    [c.version, c.permission] + LE(c.revision, 2) + LE(c.epoch, 4) + LE(|c.modes| % U16_LIMIT, 2)
  }

  function EncodeCapabilities(c: Capabilities): Result<bytes, WireError> {
    if |c.modes| > MAX_QUALITY_MODES then Err(TooManyModes)
    else
      var b := Prefix(c) + ModesBytes(c.modes);
      if |b| > MAX_CONTROL_PAYLOAD then Err(TooLong) else Ok(b)
  }

  function DecodeCapabilities(b: bytes): Result<Capabilities, WireError> {
    if |b| < 10 then Err(Truncated)
    else if U16At(b, 8) > MAX_QUALITY_MODES then Err(TooManyModes)
    else if |b| != 10 + U16At(b, 8) * QUALITY_MODE_BYTES then Err(BadLength)
    else if |b| > MAX_CONTROL_PAYLOAD then Err(TooLong)
    else
      var tail := b[10..];
      assert |tail| == U16At(b, 8) * QUALITY_MODE_BYTES;
      Ok(Capabilities(b[0], b[1], U16At(b, 2), U32At(b, 4), ModesIn(tail)))
  }

  method ReadCapabilities(b: bytes) returns (r: Result<Capabilities, WireError>)
    ensures r == DecodeCapabilities(b)
  {
    hide ModeAt, U16At, U32At;
    if |b| < 10 { return Err(Truncated); }
    var count := U16At(b, 8);
    if count > MAX_QUALITY_MODES { return Err(TooManyModes); }
    if |b| != 10 + count * QUALITY_MODE_BYTES { return Err(BadLength); }
    if |b| > MAX_CONTROL_PAYLOAD { return Err(TooLong); }
    var tail := b[10..];
    var modes: seq<QualityMode> := [];
    var at := 0;
    assert tail[..0] == [];
    while at < |tail|
      invariant 0 <= at <= |tail| && at % QUALITY_MODE_BYTES == 0
      invariant modes == ModesIn(tail[..at])
    {
      var chunk := tail[at..at + QUALITY_MODE_BYTES];
      modes := modes + [ModeAt(chunk, 0)];
      ChunkAt(tail, at);
      assert tail[..at + QUALITY_MODE_BYTES][..at] == tail[..at];
      at := at + QUALITY_MODE_BYTES;
    }
    assert tail[..at] == tail;
    return Ok(Capabilities(b[0], b[1], U16At(b, 2), U32At(b, 4), modes));
  }

  lemma ChunkAt(tail: bytes, at: nat)
    requires at + QUALITY_MODE_BYTES <= |tail|
    ensures ModeAt(tail[at..at + QUALITY_MODE_BYTES], 0) == ModeAt(tail[..at + QUALITY_MODE_BYTES], at)
  {
    hide FromLE;
    var chunk, front := tail[at..at + QUALITY_MODE_BYTES], tail[..at + QUALITY_MODE_BYTES];
    assert chunk[0..2] == front[at..at + 2];
    assert chunk[2..4] == front[at + 2..at + 4];
    assert chunk[4..6] == front[at + 4..at + 6];
    assert chunk[8..12] == front[at + 8..at + 12];
  }

  method WriteCapabilities(c: Capabilities) returns (r: Result<bytes, WireError>)
    ensures r == EncodeCapabilities(c)
  {
    hide LE, ModeBytes;
    if |c.modes| > MAX_QUALITY_MODES { return Err(TooManyModes); }
    var payload := [c.version, c.permission] + LE(c.revision, 2) + LE(c.epoch, 4) + LE(|c.modes| % U16_LIMIT, 2);
    var i := 0;
    assert payload + ModesBytes(c.modes[..0]) == payload;
    while i < |c.modes|
      invariant 0 <= i <= |c.modes|
      invariant payload == Prefix(c) + ModesBytes(c.modes[..i])
    {
      assert c.modes[..i + 1][..i] == c.modes[..i];
      payload := payload + ModeBytes(c.modes[i]);
      i := i + 1;
    }
    assert c.modes[..i] == c.modes;
    return if |payload| > MAX_CONTROL_PAYLOAD then Err(TooLong) else Ok(payload);
  }

  lemma ModeRoundTrip(front: bytes, m: QualityMode)
    ensures ModeAt(front + ModeBytes(m), |front|) == m
  {
    hide LE, FromLE, Pow256;
    Widths();
    FromLEofLE(m.width, 2);
    FromLEofLE(m.height, 2);
    FromLEofLE(m.fps, 2);
    FromLEofLE(m.bitrate, 4);
    var b, i := front + ModeBytes(m), |front|;
    assert b[i..i + 2] == LE(m.width, 2);
    assert b[i + 2..i + 4] == LE(m.height, 2);
    assert b[i + 4..i + 6] == LE(m.fps, 2);
    assert b[i + 8..i + 12] == LE(m.bitrate, 4);
  }

  lemma ModesBytesOf(front: seq<QualityMode>, last: QualityMode)
    ensures ModesBytes(front + [last]) == ModesBytes(front) + ModeBytes(last)
  {
    assert (front + [last])[..|front|] == front;
  }

  lemma ModesInOf(front: bytes, last: bytes)
    requires |front| % QUALITY_MODE_BYTES == 0 && |last| == QUALITY_MODE_BYTES
    ensures ModesIn(front + last) == ModesIn(front) + [ModeAt(front + last, |front|)]
  {
    hide ModeAt;
    assert (front + last)[..|front|] == front;
  }

  lemma NoModes()
    ensures ModesBytes([]) == [] && ModesIn([]) == []
  {
  }

  lemma {:induction false} ModesRoundTrip(modes: seq<QualityMode>)
    ensures |ModesBytes(modes)| % QUALITY_MODE_BYTES == 0
    ensures ModesIn(ModesBytes(modes)) == modes
  {
    hide ModesBytes, ModesIn, ModeAt, ModeBytes;
    if modes == [] {
      NoModes();
    } else {
      var front, last := modes[..|modes| - 1], modes[|modes| - 1];
      ModesRoundTrip(front);
      assert modes == front + [last];
      LastRoundTrip(front, last);
    }
  }

  lemma LastRoundTrip(front: seq<QualityMode>, last: QualityMode)
    requires |ModesBytes(front)| % QUALITY_MODE_BYTES == 0 && ModesIn(ModesBytes(front)) == front
    ensures |ModesBytes(front + [last])| % QUALITY_MODE_BYTES == 0
        && ModesIn(ModesBytes(front + [last])) == front + [last]
  {
    hide ModesBytes, ModesIn, ModeAt, ModeBytes;
    ModeRoundTrip(ModesBytes(front), last);
    ModesBytesOf(front, last);
    ModesInOf(ModesBytes(front), ModeBytes(last));
  }

  /** MAIN RESULT: a capability list of at most 256 modes always fits the control
      limit and is read back unchanged. */
  lemma CapabilitiesRoundTrip(c: Capabilities)
    ensures EncodeCapabilities(c).Ok? <==> |c.modes| <= MAX_QUALITY_MODES
    ensures EncodeCapabilities(c).Ok? ==> DecodeCapabilities(EncodeCapabilities(c).value) == Ok(c)
  {
    if |c.modes| <= MAX_QUALITY_MODES {
      hide ModesBytes, ModesIn, ModeAt, ModeBytes, ReservedZero, Prefix, U16At, U32At, EncodeCapabilities,
        DecodeCapabilities;
      var b := Prefix(c) + ModesBytes(c.modes);
      EncodesTo(c);
      ModesRoundTrip(c.modes);
      PrefixFields(c, ModesBytes(c.modes));
      assert b[10..] == ModesBytes(c.modes);
      DecodesTo(b, c);
    }
  }

  lemma EncodesTo(c: Capabilities)
    requires |c.modes| <= MAX_QUALITY_MODES
    ensures EncodeCapabilities(c) == Ok(Prefix(c) + ModesBytes(c.modes))
  {
    hide Prefix, ModesBytes;
  }

  lemma DecodesTo(b: bytes, c: Capabilities)
    requires |c.modes| <= MAX_QUALITY_MODES && |b| == 10 + |c.modes| * QUALITY_MODE_BYTES
    requires b[0] == c.version && b[1] == c.permission && U16At(b, 2) == c.revision
    requires U32At(b, 4) == c.epoch && U16At(b, 8) == |c.modes| && ModesIn(b[10..]) == c.modes
    ensures DecodeCapabilities(b) == Ok(c)
  {
    hide U16At, U32At, ModesIn;
  }

  lemma PrefixFields(c: Capabilities, rest: bytes)
    requires |c.modes| < U16_LIMIT
    ensures var b := Prefix(c) + rest;
            && b[0] == c.version && b[1] == c.permission && U16At(b, 2) == c.revision
            && U32At(b, 4) == c.epoch && U16At(b, 8) == |c.modes|
  {
    hide LE, FromLE, Pow256;
    Widths();
    FromLEofLE(c.revision, 2);
    FromLEofLE(c.epoch, 4);
    FromLEofLE(|c.modes|, 2);
    var b := Prefix(c) + rest;
    assert b[2..4] == LE(c.revision, 2);
    assert b[4..8] == LE(c.epoch, 4);
    assert b[8..10] == LE(|c.modes|, 2);
  }

  /** The two unused bytes of every mode are zero. */
  predicate ReservedZero(b: bytes) { forall i :: 0 <= i < |b| && i % 12 in {6, 7} ==> b[i] == 0 }

  lemma ModeIsCanonical(b: bytes, i: nat)
    requires i + QUALITY_MODE_BYTES <= |b|
    ensures ModeBytes(ModeAt(b, i)) == b[i..i + QUALITY_MODE_BYTES] <==> b[i + 6] == 0 && b[i + 7] == 0
  {
    hide FromLE, Pow256;
    Widths();
    LEofFromLE(b[i..i + 2]);
    LEofFromLE(b[i + 2..i + 4]);
    LEofFromLE(b[i + 4..i + 6]);
    LEofFromLE(b[i + 8..i + 12]);
    assert LE(0, 2) == [0, 0] by { assert LE(0, 1) == [0] + LE(0, 0); }
    hide LE;
    var m, chunk := ModeBytes(ModeAt(b, i)), b[i..i + QUALITY_MODE_BYTES];
    assert m[6] == 0 && m[7] == 0 && chunk[6] == b[i + 6] && chunk[7] == b[i + 7];
    assert m[..6] == b[i..i + 2] + b[i + 2..i + 4] + b[i + 4..i + 6] == chunk[..6];
    assert m[8..] == b[i + 8..i + 12] == chunk[8..];
    assert chunk == chunk[..6] + [chunk[6], chunk[7]] + chunk[8..];
    assert m == m[..6] + [m[6], m[7]] + m[8..];
  }

  lemma {:induction false} ModesAreCanonical(b: bytes, count: nat)
    requires |b| == QUALITY_MODE_BYTES * count
    ensures ModesBytes(ModesIn(b)) == b <==> ReservedZero(b)
  {
    hide ModesBytes, ModesIn, ModeAt, ModeBytes;
    if count == 0 {
      NoModes();
      assert b == [] && ReservedZero(b);
    } else {
      hide ReservedZero;
      var n := QUALITY_MODE_BYTES * (count - 1);
      ModesAreCanonical(b[..n], count - 1);
      LastIsCanonical(b, n);
    }
  }

  lemma LastIsCanonical(b: bytes, n: nat)
    requires n % QUALITY_MODE_BYTES == 0 && |b| == n + QUALITY_MODE_BYTES
    requires ModesBytes(ModesIn(b[..n])) == b[..n] <==> ReservedZero(b[..n])
    ensures ModesBytes(ModesIn(b)) == b <==> ReservedZero(b)
  {
    hide ModesBytes, ModesIn, ModeAt, ModeBytes, ReservedZero, Prefix, U16At, U32At, EncodeCapabilities,
      DecodeCapabilities;
    var front, last := b[..n], b[n..];
    assert b == front + last && b[n..n + QUALITY_MODE_BYTES] == last;
    ModeIsCanonical(b, n);
    ReservedSplits(b, n);
    ModesInOf(front, last);
    ModesBytesOf(ModesIn(front), ModeAt(b, n));
    SameParts(ModesBytes(ModesIn(front)), front, ModeBytes(ModeAt(b, n)), last);
  }

  lemma SameParts(a: bytes, b: bytes, c: bytes, d: bytes)
    requires |a| == |b|
    ensures a + c == b + d <==> a == b && c == d
  {
    if a + c == b + d {
      assert a == (a + c)[..|a|] && b == (b + d)[..|b|];
      assert c == (a + c)[|a|..] && d == (b + d)[|b|..];
    }
  }

  lemma ReservedSplits(b: bytes, n: nat)
    requires n % 12 == 0 && |b| == n + 12
    ensures ReservedZero(b) <==> ReservedZero(b[..n]) && b[n + 6] == 0 && b[n + 7] == 0
  {
    if ReservedZero(b[..n]) && b[n + 6] == 0 && b[n + 7] == 0 {
      forall i | 0 <= i < |b| && i % 12 in {6, 7} ensures b[i] == 0 {
        if i < n { assert b[..n][i] == 0; }
      }
    }
  }

  /** The other direction holds exactly for lists whose reserved bytes are zero: a
      decoder does not look at them, an encoder always clears them. */
  lemma CapabilitiesAreCanonical(b: bytes)
    requires DecodeCapabilities(b).Ok?
    ensures EncodeCapabilities(DecodeCapabilities(b).value) == Ok(b) <==> ReservedZero(b[10..])
  {
    var c := DecodeCapabilities(b).value;
    var tail := b[10..];
    ModesAreCanonical(tail, U16At(b, 8));
    PrefixIsCanonical(b, c);
    hide Prefix, ModesBytes, ModesIn, U16At, U32At, ReservedZero;
    assert b == b[..10] + tail;
    var again := Prefix(c) + ModesBytes(c.modes);
    assert again[10..] == ModesBytes(c.modes);
  }

  lemma PrefixIsCanonical(b: bytes, c: Capabilities)
    requires |b| >= 10 && c.version == b[0] && c.permission == b[1] && c.revision == U16At(b, 2)
    requires c.epoch == U32At(b, 4) && |c.modes| == U16At(b, 8)
    ensures Prefix(c) == b[..10]
  {
    hide LE, FromLE, Pow256;
    Widths();
    LEofFromLE(b[2..4]);
    LEofFromLE(b[4..8]);
    LEofFromLE(b[8..10]);
    assert b[..10] == [b[0], b[1]] + b[2..4] + b[4..8] + b[8..10];
  }

  // ----- Authorization -----

  /** Which label bytes are acceptable text: UTF-8, not blank, no control, format or
      line-separator characters. The Unicode tables are not part of this model. */
  type LabelRule = bytes -> bool

  predicate LabelOk(text: bytes, rule: LabelRule) { 0 < |text| <= MAX_LABEL && rule(text) }

  predicate TransportOk(transport: u8) { transport == AUTH_USB || transport == AUTH_LAN }

  /** No binding over USB, a nonzero one over the network. */
  predicate BindingOk(transport: u8, binding: bytes) {
    |binding| == BINDING_BYTES
    && if transport == AUTH_USB then forall i :: 0 <= i < |binding| ==> binding[i] == 0
       else exists i :: 0 <= i < |binding| && binding[i] != 0
  }

  const TRANSCRIPT: bytes := [
    0x41, 0x4D, 0x42, 0x31, 0x20, 0x50, 0x43, 0x20, 0x61, 0x75, 0x74, 0x68, 0x6F, 0x72, 0x69, 0x7A, 0x61, 0x74, 0x69,
    0x6F, 0x6E, 0x00, 0x76, 0x32, 0x00]

  function AuthMessage(transport: u8, binding: bytes, nonce: bytes, key: bytes, text: bytes,
      rule: LabelRule): Result<bytes, WireError> {
    if !TransportOk(transport) || !BindingOk(transport, binding) || |nonce| != NONCE_BYTES || |key| != KEY_BYTES
       || key[0] != 4 || !LabelOk(text, rule)
    then Err(BadFields)
    else Ok(TRANSCRIPT + [transport] + binding + nonce + key + [|text|] + text)
  }

  /** MAIN RESULT: no two different claims share a transcript, so a signature over one
      vouches for exactly one transport, binding, nonce, key and label. */
  lemma TranscriptIsInjective(t1: u8, b1: bytes, n1: bytes, k1: bytes, l1: bytes, t2: u8, b2: bytes, n2: bytes,
      k2: bytes, l2: bytes,
                              rule: LabelRule)
    requires AuthMessage(t1, b1, n1, k1, l1, rule).Ok?
    requires AuthMessage(t1, b1, n1, k1, l1, rule) == AuthMessage(t2, b2, n2, k2, l2, rule)
    ensures t1 == t2 && b1 == b2 && n1 == n2 && k1 == k2 && l1 == l2
  {
    var m := AuthMessage(t1, b1, n1, k1, l1, rule).value;
    hide BindingOk;
    var at := |TRANSCRIPT|;
    assert m[at] == t1 == t2;
    assert m[at + 1..at + 33] == b1 == b2;
    assert m[at + 33..at + 65] == n1 == n2;
    assert m[at + 65..at + 130] == k1 == k2;
    assert m[at + 131..] == l1 == l2;
  }

  datatype Challenge = Challenge(transport: u8, binding: bytes, nonce: bytes)

  predicate ChallengeOk(c: Challenge) {
    TransportOk(c.transport) && BindingOk(c.transport, c.binding) && |c.nonce| == NONCE_BYTES
  }

  function EncodeChallenge(c: Challenge): bytes
    requires ChallengeOk(c)
  {
    [CLIENT_AUTH_VERSION, c.transport] + c.binding + c.nonce
  }

  function DecodeChallenge(b: bytes): Result<Challenge, WireError> {
    if |b| != CHALLENGE_BYTES then Err(BadLength)
    else if b[0] != CLIENT_AUTH_VERSION || !TransportOk(b[1]) then Err(BadVersion)
    else if !BindingOk(b[1], b[2..34]) then Err(BadBinding)
    else Ok(Challenge(b[1], b[2..34], b[34..]))
  }

  lemma ChallengeRoundTrip(c: Challenge, b: bytes)
    ensures ChallengeOk(c) ==> DecodeChallenge(EncodeChallenge(c)) == Ok(c)
    ensures DecodeChallenge(b).Ok? ==>
              ChallengeOk(DecodeChallenge(b).value) && EncodeChallenge(DecodeChallenge(b).value) == b
  {
    if ChallengeOk(c) {
      var e := EncodeChallenge(c);
      assert e[2..34] == c.binding && e[34..] == c.nonce;
    }
    if DecodeChallenge(b).Ok? {
      assert b == [b[0], b[1]] + b[2..34] + b[34..];
    }
  }

  datatype Auth = Auth(key: bytes, text: bytes, signature: bytes)

  predicate AuthOk(a: Auth, rule: LabelRule) {
    |a.key| == KEY_BYTES && a.key[0] == 4 && LabelOk(a.text, rule) && |a.signature| == SIGNATURE_BYTES
  }

  function EncodeAuth(a: Auth, rule: LabelRule): (b: bytes)
    requires AuthOk(a, rule)
  {
    [CLIENT_AUTH_VERSION] + a.key + [|a.text|] + a.text + a.signature
  }

  function DecodeAuth(b: bytes, rule: LabelRule): Result<Auth, WireError> {
    if !(CLIENT_AUTH_MIN <= |b| <= CLIENT_AUTH_MIN + MAX_LABEL) then Err(BadLength)
    else if b[0] != CLIENT_AUTH_VERSION then Err(BadVersion)
    else if b[66] > MAX_LABEL then Err(BadLabel)
    else if |b| != CLIENT_AUTH_MIN + b[66] then Err(BadLength)
    else
      var n: nat := b[66];
      if !LabelOk(b[67..67 + n], rule) || b[1] != 4 then Err(BadLabel)
      else Ok(Auth(b[1..66], b[67..67 + n], b[|b| - SIGNATURE_BYTES..]))
  }

  lemma AuthRoundTrip(a: Auth, b: bytes, rule: LabelRule)
    ensures AuthOk(a, rule) ==> DecodeAuth(EncodeAuth(a, rule), rule) == Ok(a)
    ensures DecodeAuth(b, rule).Ok? ==>
              AuthOk(DecodeAuth(b, rule).value, rule) && EncodeAuth(DecodeAuth(b, rule).value, rule) == b
  {
    if AuthOk(a, rule) {
      var e := EncodeAuth(a, rule);
      assert e[1..66] == a.key && e[66] == |a.text| && e[67..67 + |a.text|] == a.text;
      assert e[|e| - SIGNATURE_BYTES..] == a.signature;
    }
    if DecodeAuth(b, rule).Ok? {
      var n: nat := b[66];
      assert b == [b[0]] + b[1..66] + [b[66]] + b[67..67 + n] + b[67 + n..];
    }
  }

  const AUTHORIZED: u8 := 0
  const PENDING: u8 := 1
  const REJECTED: u8 := 2
  const REASON_EXPIRED: u8 := 3

  datatype AuthResult = AuthResult(status: u8, reason: u8, expires: u32)

  predicate AuthResultOk(r: AuthResult) {
    if r.status == AUTHORIZED then r.reason == 0 && r.expires > 0
    else if r.status == PENDING then r.reason == 0 && r.expires == 0
    else if r.status == REJECTED then 1 <= r.reason <= 5 && (r.reason == REASON_EXPIRED || r.expires == 0)
    else false
  }

  function EncodeAuthResult(r: AuthResult): bytes
    requires AuthResultOk(r)
  {
    [r.status, r.reason] + LE(r.expires, 4)
  }

  function DecodeAuthResult(b: bytes): Result<AuthResult, WireError> {
    if |b| != AUTH_RESULT_BYTES then Err(BadLength)
    else
      var r := AuthResult(b[0], b[1], U32At(b, 2));
      if AuthResultOk(r) then Ok(r) else Err(BadOutcome)
  }

  lemma AuthResultRoundTrip(r: AuthResult, b: bytes)
    ensures AuthResultOk(r) ==> DecodeAuthResult(EncodeAuthResult(r)) == Ok(r)
    ensures DecodeAuthResult(b).Ok? ==>
              AuthResultOk(DecodeAuthResult(b).value) && EncodeAuthResult(DecodeAuthResult(b).value) == b
  {
    hide LE, FromLE, Pow256;
    Widths();
    FromLEofLE(r.expires, 4);
    if AuthResultOk(r) {
      var e := EncodeAuthResult(r);
      assert e[2..6] == LE(r.expires, 4);
    }
    if DecodeAuthResult(b).Ok? {
      LEofFromLE(b[2..6]);
      assert b == [b[0], b[1]] + b[2..6];
    }
  }

  // ----- Pairing details -----

  type Address = bytes

  datatype Pairing = Pairing(addresses: seq<Address>, fingerprint: bytes, key: bytes)

  function AddressesIn(b: bytes, count: nat): (addresses: seq<Address>)
    requires 2 + 4 * count <= |b|
    ensures |addresses| == count && forall i :: 0 <= i < count ==> addresses[i] == b[2 + 4 * i..6 + 4 * i]
  {
    seq(count, i requires 0 <= i < count => b[2 + 4 * i..6 + 4 * i])
  }

  function DecodePairing(b: bytes): Result<Pairing, WireError> {
    if |b| < 2 then Err(Truncated)
    else if b[0] != 1 then Err(BadVersion)
    else if !(1 <= b[1] <= 4) then Err(BadCount)
    else if |b| != 2 + b[1] * 4 + 32 + 16 then Err(BadLength)
    else
      var count: nat := b[1];
      Ok(Pairing(AddressesIn(b, count), b[2 + 4 * count..34 + 4 * count], b[34 + 4 * count..]))
  }

  method ReadPairing(b: bytes) returns (r: Result<Pairing, WireError>)
    ensures r == DecodePairing(b)
  {
    if |b| < 2 { return Err(Truncated); }
    if b[0] != 1 { return Err(BadVersion); }
    var count: nat := b[1];
    if !(1 <= count <= 4) { return Err(BadCount); }
    if |b| != 2 + count * 4 + 32 + 16 { return Err(BadLength); }
    var addresses: seq<Address> := [];
    var index := 0;
    while index < count
      invariant 0 <= index <= count && addresses == AddressesIn(b, index)
    {
      var at := 2 + index * 4;
      assert [b[at], b[at + 1], b[at + 2], b[at + 3]] == b[at..at + 4];
      addresses := addresses + [[b[at], b[at + 1], b[at + 2], b[at + 3]]];
      index := index + 1;
    }
    return Ok(Pairing(addresses, b[2 + 4 * count..34 + 4 * count], b[34 + 4 * count..]));
  }

  /** Nothing in an accepted payload is ignored. */
  lemma PairingIsInjective(a: bytes, b: bytes)
    requires DecodePairing(a).Ok? && DecodePairing(a) == DecodePairing(b)
    ensures a == b
  {
    var count: nat := a[1];
    assert count == |DecodePairing(a).value.addresses| == b[1];
    forall i | 0 <= i < |a| ensures a[i] == b[i] {
      if 2 <= i < 2 + 4 * count {
        var k := (i - 2) / 4;
        assert AddressesIn(a, count)[k] == AddressesIn(b, count)[k];
        assert a[2 + 4 * k..6 + 4 * k][(i - 2) % 4] == b[2 + 4 * k..6 + 4 * k][(i - 2) % 4];
      } else if 2 + 4 * count <= i < 34 + 4 * count {
        var at := 2 + 4 * count;
        assert a[at..34 + 4 * count][i - at] == b[at..34 + 4 * count][i - at];
      } else if 34 + 4 * count <= i {
        var at := 34 + 4 * count;
        assert a[at..][i - at] == b[at..][i - at];
      }
    }
  }

  // ----- Quality requests, results and epochs -----

  const QUALITY_BYTES: nat := 14
  const EPOCH_BYTES: nat := 8

  datatype PrepareQuality = PrepareQuality(requestId: u32, revision: u16, width: u16, height: u16, fps: u16)

  datatype QualityResult =
    QualityResult(requestId: u32, status: u8, reason: u8, width: u16, height: u16, fps: u16)

  datatype Epoch = Epoch(requestId: u32, epoch: u32)

  /** Three dimensions and two reserved bytes. */
  function ModeTail(width: u16, height: u16, fps: u16): (b: bytes)
    ensures |b| == 8
  {
    LE(width, 2) + LE(height, 2) + LE(fps, 2) + [0, 0]
  }

  function EncodePrepare(p: PrepareQuality): bytes {
    LE(p.requestId, 4) + LE(p.revision, 2) + ModeTail(p.width, p.height, p.fps)
  }

  function DecodePrepare(b: bytes): Result<PrepareQuality, WireError> {
    if |b| != QUALITY_BYTES then Err(BadLength)
    else Ok(PrepareQuality(U32At(b, 0), U16At(b, 4), U16At(b, 6), U16At(b, 8), U16At(b, 10)))
  }

  function EncodeResult(r: QualityResult): bytes {
    LE(r.requestId, 4) + [r.status, r.reason] + ModeTail(r.width, r.height, r.fps)
  }

  function DecodeResult(b: bytes): Result<QualityResult, WireError> {
    if |b| != QUALITY_BYTES then Err(BadLength)
    else Ok(QualityResult(U32At(b, 0), b[4], b[5], U16At(b, 6), U16At(b, 8), U16At(b, 10)))
  }

  function EncodeEpoch(e: Epoch): bytes { LE(e.requestId, 4) + LE(e.epoch, 4) }

  function DecodeEpoch(b: bytes): Result<Epoch, WireError> {
    if |b| != EPOCH_BYTES then Err(BadLength) else Ok(Epoch(U32At(b, 0), U32At(b, 4)))
  }

  lemma TailFields(width: u16, height: u16, fps: u16, front: bytes)
    requires |front| == 6
    ensures var b := front + ModeTail(width, height, fps);
            && U16At(b, 6) == width && U16At(b, 8) == height && U16At(b, 10) == fps
            && b[12..] == [0, 0] && b[..6] == front
  {
    hide LE, FromLE, Pow256;
    Widths();
    FromLEofLE(width, 2);
    FromLEofLE(height, 2);
    FromLEofLE(fps, 2);
    var b := front + ModeTail(width, height, fps);
    assert b[6..8] == LE(width, 2) && b[8..10] == LE(height, 2) && b[10..12] == LE(fps, 2);
  }

  lemma TailOf(b: bytes)
    requires |b| == QUALITY_BYTES
    ensures ModeTail(U16At(b, 6), U16At(b, 8), U16At(b, 10)) == b[6..] <==> b[12] == 0 && b[13] == 0
  {
    hide LE, FromLE, Pow256;
    LEofFromLE(b[6..8]);
    LEofFromLE(b[8..10]);
    LEofFromLE(b[10..12]);
    var tail := ModeTail(U16At(b, 6), U16At(b, 8), U16At(b, 10));
    assert tail == b[6..8] + b[8..10] + b[10..12] + [0, 0];
    assert b[6..] == b[6..8] + b[8..10] + b[10..12] + [b[12], b[13]];
    assert tail[6] == 0 && tail[7] == 0 && b[6..][6] == b[12] && b[6..][7] == b[13];
  }

  /** Requests round-trip; the reverse holds exactly when the reserved bytes are zero. */
  lemma PrepareRoundTrip(p: PrepareQuality, b: bytes)
    ensures DecodePrepare(EncodePrepare(p)) == Ok(p)
    ensures DecodePrepare(b).Ok? ==> (EncodePrepare(DecodePrepare(b).value) == b <==> b[12] == 0 && b[13] == 0)
  {
    hide LE, FromLE, Pow256, ModeTail;
    Widths();
    FromLEofLE(p.requestId, 4);
    FromLEofLE(p.revision, 2);
    var front := LE(p.requestId, 4) + LE(p.revision, 2);
    TailFields(p.width, p.height, p.fps, front);
    var e := EncodePrepare(p);
    assert e[0..4] == LE(p.requestId, 4) && e[4..6] == LE(p.revision, 2);
    if |b| == QUALITY_BYTES {
      LEofFromLE(b[0..4]);
      LEofFromLE(b[4..6]);
      TailOf(b);
      var again := EncodePrepare(DecodePrepare(b).value);
      assert again == b[0..4] + b[4..6] + ModeTail(U16At(b, 6), U16At(b, 8), U16At(b, 10));
      assert again[6..] == ModeTail(U16At(b, 6), U16At(b, 8), U16At(b, 10));
      assert b == b[0..4] + b[4..6] + b[6..];
    }
  }

  lemma ResultRoundTrip(r: QualityResult, b: bytes)
    ensures DecodeResult(EncodeResult(r)) == Ok(r)
    ensures DecodeResult(b).Ok? ==> (EncodeResult(DecodeResult(b).value) == b <==> b[12] == 0 && b[13] == 0)
  {
    hide LE, FromLE, Pow256, ModeTail;
    Widths();
    FromLEofLE(r.requestId, 4);
    var front := LE(r.requestId, 4) + [r.status, r.reason];
    TailFields(r.width, r.height, r.fps, front);
    var e := EncodeResult(r);
    assert e[0..4] == LE(r.requestId, 4) && e[4] == r.status && e[5] == r.reason;
    if |b| == QUALITY_BYTES {
      LEofFromLE(b[0..4]);
      TailOf(b);
      var again := EncodeResult(DecodeResult(b).value);
      assert again == b[0..4] + [b[4], b[5]] + ModeTail(U16At(b, 6), U16At(b, 8), U16At(b, 10));
      assert again[6..] == ModeTail(U16At(b, 6), U16At(b, 8), U16At(b, 10));
      assert b == b[0..4] + [b[4], b[5]] + b[6..];
    }
  }

  lemma EpochRoundTrip(e: Epoch, b: bytes)
    ensures DecodeEpoch(EncodeEpoch(e)) == Ok(e)
    ensures DecodeEpoch(b).Ok? ==> EncodeEpoch(DecodeEpoch(b).value) == b
  {
    hide LE, FromLE, Pow256;
    Widths();
    FromLEofLE(e.requestId, 4);
    FromLEofLE(e.epoch, 4);
    var x := EncodeEpoch(e);
    assert x[0..4] == LE(e.requestId, 4) && x[4..8] == LE(e.epoch, 4);
    if |b| == EPOCH_BYTES {
      LEofFromLE(b[0..4]);
      LEofFromLE(b[4..8]);
      assert b == b[0..4] + b[4..8];
    }
  }

  // ----- The header check and the decoders -----

  /** MAIN RESULT: whatever a decoder accepts, the header's length check lets through,
      so no valid message is refused at the header. Where the decoder looks at nothing
      but the length, the two agree. */
  lemma HeaderAdmitsMessages(b: bytes, rule: LabelRule)
    ensures DecodeCapabilities(b).Ok? ==> SizeAllowed(QUALITY_CAPABILITIES, |b|)
    ensures DecodeChallenge(b).Ok? ==> SizeAllowed(CLIENT_CHALLENGE, |b|)
    ensures DecodeAuth(b, rule).Ok? ==> SizeAllowed(CLIENT_AUTH, |b|)
    ensures DecodeAuthResult(b).Ok? ==> SizeAllowed(CLIENT_AUTH_RESULT, |b|)
    ensures DecodePairing(b).Ok? ==> SizeAllowed(PAIRING_INFO, |b|)
    ensures DecodePrepare(b).Ok? <==> SizeAllowed(PREPARE_QUALITY, |b|)
    ensures DecodeResult(b).Ok? <==> SizeAllowed(QUALITY_RESULT, |b|)
    ensures DecodeEpoch(b).Ok? <==> SizeAllowed(PAUSED, |b|)
    ensures SizeAllowed(PAUSED, |b|) <==> SizeAllowed(COMMIT_QUALITY, |b|)
    ensures WorkerLoop.ParseConfig(b).Some? ==> SizeAllowed(VIDEO_CONFIG, |b|)
  {
    hide BindingOk, ModesIn, U16At, U32At;
  }

  lemma PairingLengths(length: nat)
    ensures PairingFits(length) <==> exists b :: |b| == length && DecodePairing(b).Ok?
  {
    if PairingFits(length) {
      var count := (length - 50) / 4;
      var b: bytes := [1, count] + seq(length - 2, _ => 0);
      assert |b| == length && DecodePairing(b).Ok?;
    }
    forall b: bytes | |b| == length && DecodePairing(b).Ok? ensures PairingFits(length) {
      assert length == 50 + b[1] as int * 4;
    }
  }
}

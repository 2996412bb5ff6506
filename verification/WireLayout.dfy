/** AMB1 payloads byte by byte: what each decoder accepts, at which offset every field
    lies, low byte first (host-rs/src/wire.rs). The encoders follow by the round trips. */
module WireLayout {
  import opened Basics
  import opened Bytes
  import opened Wire

  lemma FieldsAre(b: bytes, at: nat)
    ensures at + 2 <= |b| ==> forall n: int :: Holds2(b, at, n) <==> U16At(b, at) == n
    ensures at + 4 <= |b| ==> forall n: int :: Holds4(b, at, n) <==> U32At(b, at) == n
    ensures at + 8 <= |b| ==> forall n: int :: Holds8(b, at, n) <==> U64At(b, at) == n
  {
    if at + 2 <= |b| { forall n: int ensures Holds2(b, at, n) <==> U16At(b, at) == n { LowByteFirst2(b, at, n); } }
    if at + 4 <= |b| { forall n: int ensures Holds4(b, at, n) <==> U32At(b, at) == n { LowByteFirst4(b, at, n); } }
    if at + 8 <= |b| { forall n: int ensures Holds8(b, at, n) <==> U64At(b, at) == n { LowByteFirst8(b, at, n); } }
    hide FromLE, Holds2, Holds4, Holds8;
  }

  /** MAIN RESULT: the 24 bytes of a header. */
  lemma HeaderLayout(b: bytes, h: Header)
    ensures DecodeHeader(b) == Ok(h) <==>
              && |b| == 24 && b[0] as char == 'A' && b[1] as char == 'M' && b[2] as char == 'B' && b[3] as char == '1'
              && b[4] == 1 && b[5] == h.kind && Holds2(b, 6, h.flags) && Holds4(b, 8, h.sequence)
              && Holds4(b, 12, h.payloadLen) && Holds8(b, 16, h.pts)
              && h.payloadLen <= 16_777_216 && SizeAllowed(h.kind, h.payloadLen)
  {
    if |b| == 24 {
      FieldsAre(b, 6);
      FieldsAre(b, 8);
      FieldsAre(b, 12);
      FieldsAre(b, 16);
      assert b[..4] == [b[0], b[1], b[2], b[3]];
    }
    hide FromLE, U16At, U32At, U64At, Holds2, Holds4, Holds8, SizeAllowed;
  }

  /** What it refuses, and as what. */
  lemma HeaderRefusals(b: bytes)
    ensures DecodeHeader(b) == Err(BadMagic) <==>
              |b| != 24 || b[0] != 0x41 || b[1] != 0x4D || b[2] != 0x42 || b[3] != 0x31 || b[4] != 1
    ensures DecodeHeader(b) == Err(TooLong) <==>
              && |b| == 24 && b[0] == 0x41 && b[1] == 0x4D && b[2] == 0x42 && b[3] == 0x31 && b[4] == 1
              && U32At(b, 12) > 16_777_216
  {
    if |b| == 24 { assert b[..4] == [b[0], b[1], b[2], b[3]]; }
    hide FromLE, U16At, U32At, U64At, SizeAllowed;
  }

  /** The lengths each type may have. */
  lemma LengthsAre(kind: u8, length: nat)
    ensures SizeAllowed(0x01, length) <==> length == 0 || length == 16
    ensures SizeAllowed(0x02, length) <==> length == 0
    ensures SizeAllowed(0x03, length) <==> length == 8
    ensures SizeAllowed(0x04, length) <==> length == 8
    ensures SizeAllowed(0x05, length) <==> 1 <= length <= 16384
    ensures SizeAllowed(0x06, length) <==> length == 14
    ensures SizeAllowed(0x07, length) <==> length == 14
    ensures SizeAllowed(0x08, length) <==> length == 8
    ensures SizeAllowed(0x09, length) <==> length == 8
    ensures SizeAllowed(0x0a, length) <==> length == 66
    ensures SizeAllowed(0x0b, length) <==> 131 <= length <= 163
    ensures SizeAllowed(0x0c, length) <==> length == 6
    ensures SizeAllowed(0x0d, length) <==> length == 54 || length == 58 || length == 62 || length == 66
    ensures SizeAllowed(0x0e, length) <==> length == 0
    ensures SizeAllowed(0x10, length) <==> length == 16
    ensures SizeAllowed(0x12, length) <==> length == 0
    ensures kind == 0 || kind == 0x0f || kind == 0x11 || kind > 0x12 ==> SizeAllowed(kind, length)
  {
  }

  // ----- Capabilities -----

  predicate ModeIsAt(b: bytes, at: nat, m: QualityMode) {
    && at + 12 <= |b|
    && Holds2(b, at, m.width) && Holds2(b, at + 2, m.height) && Holds2(b, at + 4, m.fps) && Holds4(b, at + 8, m.bitrate)
  }

  lemma {:induction false} ModesInAre(b: bytes, i: nat)
    requires |b| % 12 == 0 && 12 * i < |b|
    ensures 12 * i + 12 <= |b| && i < |ModesIn(b)| && ModesIn(b)[i] == ModeAt(b, 12 * i)
  {
    hide ModeAt;
    if 12 * (i + 1) < |b| {
      ModesInAre(b[..|b| - 12], i);
      PrefixMode(b, |b| - 12, 12 * i);
    }
  }

  lemma PrefixMode(b: bytes, n: nat, at: nat)
    requires at + 12 <= n <= |b|
    ensures ModeAt(b[..n], at) == ModeAt(b, at)
  {
    hide FromLE;
    var front := b[..n];
    assert front[at..at + 2] == b[at..at + 2];
    assert front[at + 2..at + 4] == b[at + 2..at + 4];
    assert front[at + 4..at + 6] == b[at + 4..at + 6];
    assert front[at + 8..at + 12] == b[at + 8..at + 12];
  }

  lemma SuffixMode(b: bytes, n: nat, at: nat)
    requires n + at + 12 <= |b|
    ensures ModeAt(b[n..], at) == ModeAt(b, n + at)
  {
    hide FromLE;
    var tail := b[n..];
    assert tail[at..at + 2] == b[n + at..n + at + 2];
    assert tail[at + 2..at + 4] == b[n + at + 2..n + at + 4];
    assert tail[at + 4..at + 6] == b[n + at + 4..n + at + 6];
    assert tail[at + 8..at + 12] == b[n + at + 8..n + at + 12];
  }

  lemma ModeIs(b: bytes, at: nat, m: QualityMode)
    requires at + 12 <= |b|
    ensures ModeIsAt(b, at, m) <==> ModeAt(b, at) == m
  {
    FieldsAre(b, at);
    FieldsAre(b, at + 2);
    FieldsAre(b, at + 4);
    FieldsAre(b, at + 8);
    hide Holds2, Holds4, Holds8, U16At, U32At, U64At;
  }

  /** MAIN RESULT: ten bytes and twelve for each mode, of which bytes 6 and 7 are not read. */
  lemma CapabilitiesLayout(b: bytes, c: Capabilities)
    ensures DecodeCapabilities(b) == Ok(c) <==>
              && |b| == 10 + 12 * |c.modes| && |c.modes| <= 256
              && b[0] == c.version && b[1] == c.permission && Holds2(b, 2, c.revision) && Holds4(b, 4, c.epoch)
              && Holds2(b, 8, |c.modes|)
              && forall i :: 0 <= i < |c.modes| ==> ModeIsAt(b, 10 + 12 * i, c.modes[i])
  {
    hide FromLE, U16At, U32At, U64At, Holds2, Holds4, Holds8, ModeAt, ModesIn, ModeIsAt;
    if |b| >= 10 {
      FieldsAre(b, 2);
      FieldsAre(b, 4);
      FieldsAre(b, 8);
    }
    if |b| == 10 + 12 * |c.modes| && |c.modes| <= 256 {
      SameModes(b, c.modes);
    }
  }

  lemma SameModes(b: bytes, modes: seq<QualityMode>)
    requires |b| == 10 + 12 * |modes|
    ensures |b[10..]| % 12 == 0
    ensures ModesIn(b[10..]) == modes <==> forall i :: 0 <= i < |modes| ==> ModeIsAt(b, 10 + 12 * i, modes[i])
  {
    hide ModesIn, ModeAt, ModeIsAt;
    var tail := b[10..];
    forall i | 0 <= i < |modes| ensures ModesIn(tail)[i] == modes[i] <==> ModeIsAt(b, 10 + 12 * i, modes[i]) {
      ModesInAre(tail, i);
      SuffixMode(b, 10, 12 * i);
      ModeIs(b, 10 + 12 * i, modes[i]);
    }
    if forall i :: 0 <= i < |modes| ==> ModeIsAt(b, 10 + 12 * i, modes[i]) {
      assert forall i :: 0 <= i < |modes| ==> ModesIn(tail)[i] == modes[i];
    }
  }

  // ----- Requests, results, epochs -----

  /** MAIN RESULT: fourteen bytes for a request and for a result, eight for an epoch. */
  lemma QualityLayouts(b: bytes, p: PrepareQuality, r: QualityResult, e: Epoch)
    ensures DecodePrepare(b) == Ok(p) <==>
              && |b| == 14 && Holds4(b, 0, p.requestId) && Holds2(b, 4, p.revision)
              && Holds2(b, 6, p.width) && Holds2(b, 8, p.height) && Holds2(b, 10, p.fps)
    ensures DecodeResult(b) == Ok(r) <==>
              && |b| == 14 && Holds4(b, 0, r.requestId) && b[4] == r.status && b[5] == r.reason
              && Holds2(b, 6, r.width) && Holds2(b, 8, r.height) && Holds2(b, 10, r.fps)
    ensures DecodeEpoch(b) == Ok(e) <==> |b| == 8 && Holds4(b, 0, e.requestId) && Holds4(b, 4, e.epoch)
  {
    FieldsAre(b, 0);
    FieldsAre(b, 4);
    FieldsAre(b, 6);
    FieldsAre(b, 8);
    FieldsAre(b, 10);
    hide FromLE, U16At, U32At, U64At, Holds2, Holds4, Holds8;
  }

  // ----- Authorization -----

  /** MAIN RESULT: a challenge is version, transport, binding and nonce; over USB the
      binding is zero, over the network it is not. */
  lemma ChallengeLayout(b: bytes, c: Challenge)
    ensures DecodeChallenge(b) == Ok(c) <==>
              && |b| == 66 && b[0] == 2 && b[1] == c.transport && b[2..34] == c.binding && b[34..66] == c.nonce
              && ((c.transport == 0 && forall i :: 2 <= i < 34 ==> b[i] == 0)
                  || (c.transport == 1 && exists i :: 2 <= i < 34 && b[i] != 0))
  {
    if |b| == 66 {
      BindingIs(b);
      assert b[34..66] == b[34..];
    }
    hide BindingOk;
  }

  lemma BindingIs(b: bytes)
    requires |b| == 66
    ensures BindingOk(0, b[2..34]) <==> forall i :: 2 <= i < 34 ==> b[i] == 0
    ensures BindingOk(1, b[2..34]) <==> exists i :: 2 <= i < 34 && b[i] != 0
  {
    var binding := b[2..34];
    if forall i :: 0 <= i < 32 ==> binding[i] == 0 {
      forall i | 2 <= i < 34 ensures b[i] == 0 { assert b[i] == binding[i - 2]; }
    } else {
      var k :| 0 <= k < 32 && binding[k] != 0;
      assert b[k + 2] != 0;
    }
    if i :| 2 <= i < 34 && b[i] != 0 { assert binding[i - 2] != 0; }
  }

  /** A proof is version, point, label and signature. */
  lemma AuthLayout(b: bytes, a: Auth, rule: LabelRule)
    ensures DecodeAuth(b, rule) == Ok(a) <==>
              && 1 <= |a.text| <= 32 && rule(a.text) && |b| == 131 + |a.text|
              && b[0] == 2 && b[1..66] == a.key && b[1] == 4 && b[66] == |a.text|
              && b[67..67 + |a.text|] == a.text && b[67 + |a.text|..] == a.signature
  {
  }

  /** An answer is status, reason and expiry, in these combinations. */
  lemma AuthResultLayout(b: bytes, r: AuthResult)
    ensures DecodeAuthResult(b) == Ok(r) <==>
              && |b| == 6 && b[0] == r.status && b[1] == r.reason && Holds4(b, 2, r.expires)
              && ((r.status == 0 && r.reason == 0 && r.expires > 0)
                  || (r.status == 1 && r.reason == 0 && r.expires == 0)
                  || (r.status == 2 && (r.reason == 3 || (1 <= r.reason <= 5 && r.expires == 0))))
  {
    FieldsAre(b, 2);
    hide FromLE, U32At, Holds2, Holds4, Holds8;
  }

  /** What is signed: the domain, then every field at its place. */
  lemma TranscriptLayout(transport: u8, binding: bytes, nonce: bytes, key: bytes, text: bytes, rule: LabelRule)
    ensures var m := AuthMessage(transport, binding, nonce, key, text, rule);
            m.Ok? ==>
              && |m.value| == 156 + |text| && 1 <= |text| <= 32 && rule(text) && key[0] == 4
              && (forall i :: 0 <= i < 25 ==> m.value[i] as char == "AMB1 PC authorization\0v2\0"[i])
              && m.value[25] == transport && m.value[26..58] == binding && m.value[58..90] == nonce
              && m.value[90..155] == key && m.value[155] == |text| && m.value[156..] == text
  {
    DomainIs();
    var m := AuthMessage(transport, binding, nonce, key, text, rule);
    if m.Ok? {
      assert m.value == TRANSCRIPT + ([transport] + binding + nonce + key + [|text|] + text);
      assert forall i :: 0 <= i < 25 ==> m.value[i] == TRANSCRIPT[i];
    }
  }

  lemma DomainIs()
    ensures |TRANSCRIPT| == 25 && |"AMB1 PC authorization\0v2\0"| == 25
    ensures forall i :: 0 <= i < 25 ==> TRANSCRIPT[i] as char == "AMB1 PC authorization\0v2\0"[i]
  {
  }

  /** Pairing details: a version, a count from one to four, that many addresses, the
      fingerprint and the key. */
  lemma PairingLayout(b: bytes, p: Pairing)
    ensures DecodePairing(b) == Ok(p) ==>
              && 1 <= |p.addresses| <= 4 && |b| == 50 + 4 * |p.addresses|
              && b[0] == 1 && b[1] == |p.addresses|
              && (forall i :: 0 <= i < |p.addresses| ==> p.addresses[i] == b[2 + 4 * i..6 + 4 * i])
              && p.fingerprint == b[2 + 4 * |p.addresses|..34 + 4 * |p.addresses|]
              && p.key == b[34 + 4 * |p.addresses|..]
    ensures DecodePairing(b).Ok? <==> |b| >= 2 && b[0] == 1 && 1 <= b[1] <= 4 && |b| == 50 + 4 * b[1] as int
  {
  }
}

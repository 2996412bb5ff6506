/** What the worker loop takes a received frame for (host-rs/src/video.rs:404-560): from the
    bytes on the wire to the inputs of WorkerLoop. */
module WireFrames {
  import opened Basics
  import opened Bytes
  import opened QualitySwitch
  import opened ModeResolver
  import opened Wire
  import opened WorkerLoop
  import opened WireLayout
  import WorkerProgress

  const VIDEO_AU: u8 := 0x11
  const RESULT_SWITCHING: u8 := 0
  const RESULT_REJECTED: u8 := 1
  const RESULT_APPLIED: u8 := 2
  const RESULT_STAGED: u8 := 3

  function OfferOf(m: QualityMode): Offer { Offer(Mode(m.width, m.height, m.fps), m.bitrate) }

  function OffersOf(modes: seq<QualityMode>): (offers: seq<Offer>)
    ensures |offers| == |modes| && forall i :: 0 <= i < |offers| ==> offers[i] == OfferOf(modes[i])
  {
    seq(|modes|, i requires 0 <= i < |modes| => OfferOf(modes[i]))
  }

  /** The flags of an access unit. */
  predicate Flag(flags: u16, bit: nat)
    requires bit > 0
  {
    flags / bit % 2 == 1
  }

  function Answer(r: QualityResult): Incoming {
    if r.status == RESULT_SWITCHING || r.status == RESULT_STAGED then
      ResultAccepted(r.requestId, r.status == RESULT_SWITCHING)
    else if r.status == RESULT_REJECTED then ResultRejected(r.requestId, r.reason)
    else if r.status == RESULT_APPLIED then ResultApplied(r.requestId, Mode(r.width, r.height, r.fps))
    else OtherFrame
  }

  function Arrives(h: Header, payload: bytes): Incoming {
    if h.kind == PAIRING_INFO then if DecodePairing(payload).Ok? then PairingFrame else Malformed
    else if h.kind == QUALITY_CAPABILITIES then
      if payload == [] || payload[0] != 1 then UnknownCapabilities
      else
        match DecodeCapabilities(payload)
        case Ok(c) => CapabilityFrame(c.permission, c.revision, c.epoch, OffersOf(c.modes))
        case Err(_) => Malformed
    else if h.kind == QUALITY_RESULT then
      match DecodeResult(payload)
      case Ok(r) => Answer(r)
      case Err(_) => Malformed
    else if h.kind == PAUSED then
      match DecodeEpoch(payload)
      case Ok(e) => PausedFrame(e.requestId, e.epoch)
      case Err(_) => Malformed
    else if h.kind == VIDEO_CONFIG then ConfigFrame(payload)
    else if h.kind == VIDEO_AU then
      AccessUnit(payload == [], Flag(h.flags, 1), Flag(h.flags, 2), Flag(h.flags, 4), h.pts)
    else OtherFrame
  }

  /** MAIN RESULT: a quality answer by its fourteen bytes. Byte 4 is the status: 0 streams
      already, 3 waits for the phone's user, 1 is a refusal with its reason in byte 5, 2 is
      a running capture in the mode of bytes 6 to 12, and any other is nothing. */
  lemma AnswersByByte(h: Header, payload: bytes, id: u32, mode: Mode)
    requires h.kind == 0x07
    ensures |payload| != 14 ==> Arrives(h, payload) == Malformed
    ensures |payload| == 14 && Holds4(payload, 0, id) ==>
              && (payload[4] == 0 ==> Arrives(h, payload) == ResultAccepted(id, true))
              && (payload[4] == 3 ==> Arrives(h, payload) == ResultAccepted(id, false))
              && (payload[4] == 1 ==> Arrives(h, payload) == ResultRejected(id, payload[5]))
              && (payload[4] > 3 ==> Arrives(h, payload) == OtherFrame)
    ensures && |payload| == 14 && payload[4] == 2 && Holds4(payload, 0, id)
            && Holds2(payload, 6, mode.width) && Holds2(payload, 8, mode.height) && Holds2(payload, 10, mode.fps) ==>
              Arrives(h, payload) == ResultApplied(id, mode)
  {
    if |payload| == 14 {
      FieldsAre(payload, 0);
      FieldsAre(payload, 6);
      FieldsAre(payload, 8);
      FieldsAre(payload, 10);
    }
    hide Wire.U16At, U32At, U64At, Holds2, Holds4, Holds8;
  }

  /** Pauses, capability lists, configurations and access units. */
  lemma OtherFramesByByte(h: Header, payload: bytes, id: u32, epoch: u32, c: Capabilities)
    ensures h.kind == 0x08 && |payload| == 8 && Holds4(payload, 0, id) && Holds4(payload, 4, epoch) ==>
              Arrives(h, payload) == PausedFrame(id, epoch)
    ensures h.kind == 0x08 && |payload| != 8 ==> Arrives(h, payload) == Malformed
    ensures h.kind == 0x05 && (payload == [] || payload[0] != 1) ==> Arrives(h, payload) == UnknownCapabilities
    ensures h.kind == 0x05 && payload != [] && payload[0] == 1 && DecodeCapabilities(payload) == Ok(c) ==>
              && Arrives(h, payload).CapabilityFrame?
              && Arrives(h, payload).permission == c.permission && Arrives(h, payload).revision == c.revision
              && Arrives(h, payload).epoch == c.epoch && |Arrives(h, payload).offers| == |c.modes|
              && forall i :: 0 <= i < |c.modes| ==>
                   var offer := Arrives(h, payload).offers[i];
                   && offer.mode.width == c.modes[i].width && offer.mode.height == c.modes[i].height
                   && offer.mode.fps == c.modes[i].fps && offer.bitrate == c.modes[i].bitrate
    ensures h.kind == 0x10 ==> Arrives(h, payload) == ConfigFrame(payload)
    ensures h.kind == 0x11 ==>
              Arrives(h, payload)
              == AccessUnit(payload == [], h.flags % 2 == 1, h.flags / 2 % 2 == 1, h.flags / 4 % 2 == 1, h.pts)
    ensures h.kind !in {0x05, 0x07, 0x08, 0x0d, 0x10, 0x11} ==> Arrives(h, payload) == OtherFrame
  {
    if |payload| == 8 {
      FieldsAre(payload, 0);
      FieldsAre(payload, 4);
    }
    hide Wire.U16At, U32At, U64At, Holds2, Holds4, Holds8, DecodeCapabilities;
  }

  /** MAIN RESULT, from the wire to the parent: fourteen bytes that answer STAGED to the
      open request release the outputs and tell the parent to wait for the phone's user,
      with no deadline; SWITCHING later ends the wait with five seconds left. */
  lemma StagedBytesAreTold(w: Worker, round: Round, h: Header, payload: bytes)
    requires h.kind == 0x07 && |payload| == 14 && Holds4(payload, 0, w.switch.requestId)
    requires WorkerProgress.Hears(w, round, Arrives(h, payload))
    ensures payload[4] == 3 && w.switch.phase.Preparing? ==>
              var after := Iterate(w, round);
              && after.running && after.switch == w.switch.(phase := Staged, deadline := None)
              && after.log == w.log + [OutputsReleased, Told(Waiting), Told(Progress(true))]
    ensures payload[4] == 0 && w.switch.phase.Staged? ==>
              var after := Iterate(w, round);
              && after.running
              && after.switch == w.switch.(phase := Switching, deadline := Some(round.handledAt + 5000))
              && after.log == w.log + [Told(Progress(false))]
  {
    AnswersByByte(h, payload, w.switch.requestId, Mode(0, 0, 0));
    if payload[4] == 3 && w.switch.phase.Preparing? { WorkerProgress.StagedIsToldAndWaits(w, round); }
    if payload[4] == 0 && w.switch.phase.Staged? { WorkerProgress.SwitchingIsToldAndTimed(w, round); }
    hide Iterate, Arrives, Holds4;
  }

  /** What a phone encodes is what the loop takes it for. */
  lemma AnswersAreUnderstood(h: Header, r: QualityResult, e: Epoch)
    ensures h.kind == 0x07 ==> Arrives(h, EncodeResult(r)) == Answer(r)
    ensures h.kind == 0x08 ==> Arrives(h, EncodeEpoch(e)) == PausedFrame(e.requestId, e.epoch)
  {
    ResultRoundTrip(r, []);
    EpochRoundTrip(e, []);
    hide EncodeResult, EncodeEpoch, DecodeResult, DecodeEpoch;
  }
}

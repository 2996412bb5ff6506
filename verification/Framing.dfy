/** Sending and receiving whole frames through a socket that takes and gives bytes
    as it pleases (host-rs/src/transport.rs:46-105, host-rs/src/wire.rs:546-576).

    What the socket does on each call is a script, one reply per call; a script that
    has run out stands for a deadline that has passed. */
module Framing {
  import opened Basics
  import opened Bytes
  import opened Wire

  datatype Frame = Frame(header: Header, payload: bytes)

  predicate ValidFrame(f: Frame) { Sendable(f.header) && |f.payload| == f.header.payloadLen }

  function FrameBytes(f: Frame): bytes { HeaderBytes(f.header) + f.payload }

  function AllBytes(frames: seq<Frame>): bytes {
    if frames == [] then [] else FrameBytes(frames[0]) + AllBytes(frames[1..])
  }

  /** One call's outcome: `Moved(n)` bytes at most, an interruption to retry, or an
      error - the deadline included. */
  datatype Reply = Moved(count: nat) | Interrupted | Failed

  /** Whether the script carries `n` bytes through: each call moves at least one byte
      until all have moved. */
  predicate Carries(script: seq<Reply>, n: nat) {
    n == 0 ||
    (script != [] &&
     match script[0]
     case Moved(count) => count > 0 && Carries(script[1..], if count < n then n - count else 0)
     case Interrupted => Carries(script[1..], n)
     case Failed => false)
  }

  /** The script left over. */
  function Rest(script: seq<Reply>, n: nat): seq<Reply>
    requires Carries(script, n)
  {
    if n == 0 then script
    else
      match script[0]
      case Moved(count) => Rest(script[1..], if count < n then n - count else 0)
      case Interrupted => Rest(script[1..], n)
  }

  /** The last look at the deadline, and for a sender the flush, once every byte has
      moved: it can still fail. */
  predicate Closes(script: seq<Reply>) { script != [] && !script[0].Failed? }

  predicate Delivers(script: seq<Reply>, n: nat) { Carries(script, n) && Closes(Rest(script, n)) }

  function After(script: seq<Reply>, n: nat): seq<Reply>
    requires Delivers(script, n)
  {
    Rest(script, n)[1..]
  }

  /** A frame is written as header and payload and closed once; each is read and closed
      by itself. */
  predicate Sends(script: seq<Reply>, f: Frame) {
    Carries(script, HEADER_SIZE) && Delivers(Rest(script, HEADER_SIZE), |f.payload|)
  }

  function AfterSend(script: seq<Reply>, f: Frame): seq<Reply>
    requires Sends(script, f)
  {
    After(Rest(script, HEADER_SIZE), |f.payload|)
  }

  predicate Receives(script: seq<Reply>, f: Frame) {
    Delivers(script, HEADER_SIZE) && Delivers(After(script, HEADER_SIZE), |f.payload|)
  }

  function AfterReceive(script: seq<Reply>, f: Frame): seq<Reply>
    requires Receives(script, f)
  {
    After(After(script, HEADER_SIZE), |f.payload|)
  }

  // ----- Sending -----

  class Sender {
    var out: bytes
    var script: seq<Reply>

    constructor (script: seq<Reply>)
      ensures out == [] && this.script == script
    {
      out, this.script := [], script;
    }

    /** Every byte in order, or a prefix and an error. */
    method WriteAll(data: bytes) returns (ok: bool)
      modifies this
      ensures ok <==> Carries(old(script), |data|)
      ensures ok ==> out == old(out) + data && script == Rest(old(script), |data|)
      ensures !ok ==> old(out) <= out <= old(out) + data
    {
      var offset := 0;
      while offset < |data|
        invariant 0 <= offset <= |data|
        invariant Carries(old(script), |data|) <==> Carries(script, |data| - offset)
        invariant Carries(script, |data| - offset) ==> Rest(old(script), |data|) == Rest(script, |data| - offset)
        invariant out == old(out) + data[..offset]
        decreases |script|
      {
        if script == [] { return false; }
        var reply := script[0];
        script := script[1..];
        match reply {
          case Failed => return false;
          case Interrupted =>
          case Moved(count) =>
            if count == 0 { return false; }
            var moved := if count < |data| - offset then count else |data| - offset;
            out := out + data[offset..offset + moved];
            assert data[..offset] + data[offset..offset + moved] == data[..offset + moved];
            offset := offset + moved;
        }
      }
      assert data[..offset] == data;
      return true;
    }

    method Send(frame: Frame) returns (ok: bool)
      modifies this
      ensures ok <==> ValidFrame(frame) && Sends(old(script), frame)
      ensures ok ==> out == old(out) + FrameBytes(frame) && script == AfterSend(old(script), frame)
      ensures !ok ==> old(out) <= out <= old(out) + FrameBytes(frame)
      ensures !ValidFrame(frame) ==> out == old(out)
    {
      hide HeaderBytes, Carries, Rest;
      var header := EncodeHeader(frame.header);
      if header.Err? || |frame.payload| != frame.header.payloadLen { return false; }
      ok := WriteAll(header.value);
      if ok {
        ok := WriteAll(frame.payload);
        assert old(out) + header.value + frame.payload == old(out) + FrameBytes(frame);
      }
      if ok {
        ok := Close();
      }
    }

    /** The flush between two looks at the deadline. */
    method Close() returns (ok: bool)
      modifies this`script
      ensures ok <==> Closes(old(script))
      ensures ok ==> script == old(script)[1..]
    {
      if script == [] { return false; }
      ok := !script[0].Failed?;
      script := script[1..];
    }
  }

  // ----- Receiving -----

  datatype ReceiveError = Socket | Malformed(error: WireError)

  class Receiver {
    /** What the peer has sent and this end has not read. */
    var input: bytes
    var script: seq<Reply>

    constructor (input: bytes, script: seq<Reply>)
      ensures this.input == input && this.script == script
    {
      this.input, this.script := input, script;
    }

    /** Exactly `n` bytes in order, or an error: nothing is skipped or repeated. */
    method ReadExact(n: nat) returns (r: Option<bytes>)
      modifies this
      ensures r.Some? <==> n <= |old(input)| && Delivers(old(script), n)
      ensures r.Some? ==> |r.value| == n && old(input) == r.value + input && script == After(old(script), n)
      ensures r.None? ==> |input| <= |old(input)| && input == old(input)[|old(input)| - |input|..]
    {
      var got: bytes := [];
      while |got| < n
        invariant |got| <= n && old(input) == got + input
        invariant n <= |old(input)| ==> (Carries(old(script), n) <==> Carries(script, n - |got|))
        invariant n <= |old(input)| && Carries(script, n - |got|) ==> Rest(old(script), n) == Rest(script, n - |got|)
        decreases |script|
      {
        if script == [] { return None; }
        var reply := script[0];
        script := script[1..];
        match reply {
          case Failed => return None;
          case Interrupted =>
          case Moved(count) =>
            var room := if count < n - |got| then count else n - |got|;
            // Fewer bytes than asked for are a short read; none at all, a closed peer.
            if |input| < room { room := |input|; }
            if room == 0 { return None; }
            ghost var was := got + input;
            got := got + input[..room];
            input := input[room..];
            assert got + input == was;
        }
      }
      if script == [] || script[0].Failed? { return None; }
      script := script[1..];
      return Some(got);
    }

    /** One frame from the front of the input; malformed headers are refused before
        their payload is read. */
    method Receive() returns (r: Result<Frame, ReceiveError>)
      modifies this
      ensures r.Ok? ==> ValidFrame(r.value) && old(input) == FrameBytes(r.value) + input
      ensures forall f, rest ::
        ValidFrame(f) && old(input) == FrameBytes(f) + rest && Receives(old(script), f) ==>
          r == Ok(f) && input == rest && script == AfterReceive(old(script), f)
      ensures |old(input)| >= 24 && Delivers(old(script), 24) && DecodeHeader(old(input)[..24]).Err? ==>
        r == Err(Malformed(DecodeHeader(old(input)[..24]).error)) && input == old(input)[24..]
    {
      hide HeaderBytes, Delivers, After, DecodeHeader, SizeAllowed;
      ghost var was := input;
      var raw := ReadExact(HEADER_SIZE);
      ghost var afterHeader, scriptThen := input, script;
      if raw.None? {
        forall f, rest | ValidFrame(f) && was == FrameBytes(f) + rest ensures |was| >= HEADER_SIZE {}
        return Err(Socket);
      }
      assert raw.value == was[..HEADER_SIZE] && input == was[HEADER_SIZE..];
      var header := DecodeHeader(raw.value);
      forall f, rest | ValidFrame(f) && was == FrameBytes(f) + rest
        ensures header == Ok(f.header) && f.payload + rest == afterHeader
      {
        SplitsAtHeader(f, rest, was, raw.value, afterHeader);
      }
      if header.Err? { return Err(Malformed(header.error)); }
      var payload := ReadExact(header.value.payloadLen);
      forall f, rest | ValidFrame(f) && was == FrameBytes(f) + rest && payload.Some?
        ensures payload.value == f.payload && input == rest
      {
        SamePrefix(f.payload, rest, payload.value, input);
      }
      if payload.None? { return Err(Socket); }
      HeaderIsCanonical(raw.value);
      EncodedIs(header.value);
      assert was == raw.value + payload.value + input;
      return Ok(Frame(header.value, payload.value));
    }
  }

  lemma EncodedIs(h: Header)
    ensures EncodeHeader(h).Ok? ==> Sendable(h) && EncodeHeader(h).value == HeaderBytes(h)
  {
  }

  lemma SamePrefix(a: bytes, b: bytes, c: bytes, d: bytes)
    requires a + b == c + d && |a| == |c|
    ensures a == c && b == d
  {
    assert a == (a + b)[..|a|] && c == (c + d)[..|c|];
    assert b == (a + b)[|a|..] && d == (c + d)[|c|..];
  }

  lemma SplitsAtHeader(f: Frame, rest: bytes, was: bytes, raw: bytes, after: bytes)
    requires ValidFrame(f) && was == FrameBytes(f) + rest && was == raw + after && |raw| == HEADER_SIZE
    ensures DecodeHeader(raw) == Ok(f.header) && f.payload + rest == after
  {
    hide HeaderBytes, DecodeHeader;
    assert was == HeaderBytes(f.header) + (f.payload + rest);
    SamePrefix(HeaderBytes(f.header), f.payload + rest, raw, after);
    HeaderRoundTrip(f.header);
  }

  // ----- Sockets that work -----

  /** A socket that never fails: every call moves at least a byte or is interrupted. */
  predicate Steady(script: seq<Reply>) {
    forall i :: 0 <= i < |script| ==> script[i].Interrupted? || (script[i].Moved? && script[i].count > 0)
  }

  function Moves(script: seq<Reply>): nat {
    if script == [] then 0 else (if script[0].Moved? then 1 else 0) + Moves(script[1..])
  }

  /** `n` bytes need no more than `n` such calls. */
  lemma {:induction false} SteadyCarries(script: seq<Reply>, n: nat)
    requires Steady(script) && Moves(script) >= n
    ensures Carries(script, n) && Steady(Rest(script, n)) && Moves(Rest(script, n)) >= Moves(script) - n
    decreases |script|
  {
    if n > 0 {
      assert forall i :: 0 <= i < |script[1..]| ==> script[1..][i] == script[i + 1];
      match script[0] {
        case Moved(count) => SteadyCarries(script[1..], if count < n then n - count else 0);
        case Interrupted => SteadyCarries(script[1..], n);
      }
    }
  }

  lemma SteadyDelivers(script: seq<Reply>, n: nat)
    requires Steady(script) && Moves(script) > n
    ensures Delivers(script, n) && Steady(After(script, n)) && Moves(After(script, n)) >= Moves(script) - n - 1
  {
    SteadyCarries(script, n);
    var rest := Rest(script, n);
    assert forall i :: 0 <= i < |rest[1..]| ==> rest[1..][i] == rest[i + 1];
    hide Carries, Rest;
  }

  /** MAIN RESULT: a frame goes through such a socket, and comes through one, within a call
      for every byte and one for each deadline look at the end. */
  lemma SteadySocketsCarryFrames(script: seq<Reply>, f: Frame)
    requires Steady(script)
    ensures Moves(script) > 24 + |f.payload| ==> Sends(script, f)
    ensures Moves(script) > 25 + |f.payload| ==> Receives(script, f)
  {
    if Moves(script) > 24 + |f.payload| {
      SteadyCarries(script, HEADER_SIZE);
      SteadyDelivers(Rest(script, HEADER_SIZE), |f.payload|);
    }
    if Moves(script) > 25 + |f.payload| {
      SteadyDelivers(script, HEADER_SIZE);
      SteadyDelivers(After(script, HEADER_SIZE), |f.payload|);
    }
    hide Carries, Rest, Delivers, After, Moves, Steady;
  }

  // ----- Whole conversations -----

  predicate SendsAll(script: seq<Reply>, frames: seq<Frame>)
    decreases |frames|
  {
    frames == [] || (Sends(script, frames[0]) && SendsAll(AfterSend(script, frames[0]), frames[1..]))
  }

  predicate ReceivesAll(script: seq<Reply>, frames: seq<Frame>)
    decreases |frames|
  {
    frames == [] || (Receives(script, frames[0]) && ReceivesAll(AfterReceive(script, frames[0]), frames[1..]))
  }

  lemma AllBytesOf(frames: seq<Frame>, i: nat)
    requires i < |frames|
    ensures AllBytes(frames[i..]) == FrameBytes(frames[i]) + AllBytes(frames[i + 1..])
  {
    assert frames[i..][1..] == frames[i + 1..];
  }

  method SendAll(sender: Sender, frames: seq<Frame>) returns (ok: bool)
    requires forall f :: f in frames ==> ValidFrame(f)
    modifies sender
    ensures ok <==> SendsAll(old(sender.script), frames)
    ensures ok ==> sender.out == old(sender.out) + AllBytes(frames)
  {
    hide Sends, AfterSend, FrameBytes, ValidFrame;
    var i := 0;
    assert frames[0..] == frames;
    while i < |frames|
      invariant 0 <= i <= |frames|
      invariant SendsAll(old(sender.script), frames) <==> SendsAll(sender.script, frames[i..])
      invariant sender.out + AllBytes(frames[i..]) == old(sender.out) + AllBytes(frames)
    {
      assert frames[i] in frames && frames[i..][1..] == frames[i + 1..];
      AllBytesOf(frames, i);
      ghost var before := sender.out;
      ok := sender.Send(frames[i]);
      if !ok { return false; }
      assert before + (FrameBytes(frames[i]) + AllBytes(frames[i + 1..])) == sender.out + AllBytes(frames[i + 1..]);
      i := i + 1;
    }
    assert sender.out + [] == sender.out;
    return true;
  }

  method ReceiveAll(receiver: Receiver, count: nat, ghost frames: seq<Frame>) returns (ok: bool, got: seq<Frame>)
    requires count == |frames| && receiver.input == AllBytes(frames) && forall f :: f in frames ==> ValidFrame(f)
    modifies receiver
    ensures ReceivesAll(old(receiver.script), frames) ==> ok
    ensures ok ==> got == frames && receiver.input == []
  {
    hide Receives, AfterReceive, FrameBytes, ValidFrame;
    got := [];
    assert frames[0..] == frames;
    var i := 0;
    while i < count
      invariant 0 <= i <= count && got == frames[..i]
      invariant receiver.input == AllBytes(frames[i..])
      invariant ReceivesAll(old(receiver.script), frames) ==> ReceivesAll(receiver.script, frames[i..])
    {
      assert frames[i] in frames && frames[i..][1..] == frames[i + 1..];
      AllBytesOf(frames, i);
      ghost var was := receiver.input;
      var r := receiver.Receive();
      if r.Err? { return false, got; }
      SameFrame(was, frames[i], AllBytes(frames[i + 1..]), r.value, receiver.input);
      got := got + [r.value];
      i := i + 1;
    }
    return true, got;
  }

  /** A byte string starts with at most one frame. */
  lemma SameFrame(all: bytes, f: Frame, rest: bytes, g: Frame, other: bytes)
    requires ValidFrame(f) && ValidFrame(g) && all == FrameBytes(f) + rest && all == FrameBytes(g) + other
    ensures f == g && rest == other
  {
    hide HeaderBytes, DecodeHeader;
    var raw, after := all[..HEADER_SIZE], all[HEADER_SIZE..];
    SplitsAtHeader(f, rest, all, raw, after);
    SplitsAtHeader(g, other, all, raw, after);
    SamePrefix(f.payload, rest, g.payload, other);
  }

  /** MAIN RESULT: a list of frames sent through one arbitrarily fragmenting socket
      and received through another is received unchanged, or an end reports an error;
      and neither end fails while its calls make progress in time, up to and including
      the last look at the deadline. */
  method Converse(frames: seq<Frame>, writes: seq<Reply>, fetches: seq<Reply>)
    returns (sent: bool, received: Option<seq<Frame>>)
    requires forall f :: f in frames ==> ValidFrame(f)
    ensures sent <==> SendsAll(writes, frames)
    ensures received.Some? ==> received.value == frames
    ensures sent && ReceivesAll(fetches, frames) ==> received == Some(frames)
  {
    hide SendsAll, ReceivesAll, AllBytes, ValidFrame;
    var sender := new Sender(writes);
    sent := SendAll(sender, frames);
    if !sent { return false, None; }
    var receiver := new Receiver(sender.out, fetches);
    var ok, got := ReceiveAll(receiver, |frames|, frames);
    received := if ok then Some(got) else None;
  }

  /** Concatenated frames decode one way only. */
  lemma {:induction false} StreamsAreUnambiguous(a: seq<Frame>, b: seq<Frame>)
    requires forall f :: f in a ==> ValidFrame(f)
    requires forall f :: f in b ==> ValidFrame(f)
    requires AllBytes(a) == AllBytes(b)
    ensures a == b
  {
    hide ValidFrame, HeaderBytes;
    if a == [] || b == [] {
      assert a != [] ==> |AllBytes(a)| >= HEADER_SIZE;
      assert b != [] ==> |AllBytes(b)| >= HEADER_SIZE;
    } else {
      SameFrame(AllBytes(a), a[0], AllBytes(a[1..]), b[0], AllBytes(b[1..]));
      StreamsAreUnambiguous(a[1..], b[1..]);
      assert a == [a[0]] + a[1..] && b == [b[0]] + b[1..];
    }
  }
}

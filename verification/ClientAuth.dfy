/** The PC's half of the authorization exchange (host-rs/src/client_auth.rs:93-201).

    The transport, the clock and the stop button are a script: one entry per poll.
    Signing is an uninterpreted function that may fail. */
module ClientAuth {
  import opened Basics
  import opened Bytes
  import opened Framing
  import opened Wire

  datatype Route = Usb | Lan(phone: bytes)

  function TransportOf(route: Route): u8 { if route.Usb? then AUTH_USB else AUTH_LAN }

  function BindingOf(route: Route): bytes { if route.Usb? then seq(BINDING_BYTES, _ => 0) else route.phone }

  datatype Answer = Got(frame: Frame) | Quiet | Broken

  datatype Poll = Poll(now: nat, stopped: bool, answer: Answer)

  /** Everything fixed for one call. `sends`: whether the proof goes out in time;
      `asks`: whether telling the user interface about a pending answer works. */
  datatype Call = Call(
    route: Route, start: nat, timeout: nat, key: bytes, text: bytes, sign: bytes -> Option<bytes>,
    rule: LabelRule, sends: bool, asks: bool)

  const DECISION: nat := 60_000

  datatype Failure =
    | Stopped | Expired | Lost | NoChallenge | BadMessage(error: WireError) | WrongTransport | WrongBinding
    | BadTranscript | NoSignature | NotSent | NotAsked | NoOutcome | PendingTwice

  datatype Outcome = Authorized(expires: u32) | Rejected(reason: u8) | Aborted(failure: Failure)

  /** What happened: frames received, frames sent, each deadline as it was set, how
      often the user was told, when the last frame came, and the outcome. */
  datatype Log = Log(got: seq<Frame>, sent: seq<Frame>, deadlines: seq<nat>, told: nat, last: nat, outcome: Outcome)

  // ----- Waiting for a frame -----

  datatype Waited = Delivered(frame: Frame, now: nat, rest: seq<Poll>) | Gave(failure: Failure)

  function Await(script: seq<Poll>, deadline: nat): (w: Waited)
    ensures w.Delivered? ==> |w.rest| < |script| && w.now < deadline
  {
    if script == [] then Gave(Expired)
    else
      var poll := script[0];
      if poll.stopped then Gave(Stopped)
      else if poll.now >= deadline then Gave(Expired)
      else
        match poll.answer
        case Got(frame) => Delivered(frame, poll.now, script[1..])
        case Quiet => Await(script[1..], deadline)
        case Broken => Gave(Lost)
  }

  method ReceiveUntil(script: seq<Poll>, deadline: nat) returns (w: Waited)
    ensures w == Await(script, deadline)
  {
    var i := 0;
    assert script[0..] == script;
    while i < |script|
      invariant 0 <= i <= |script| && Await(script, deadline) == Await(script[i..], deadline)
    {
      assert script[i..][1..] == script[i + 1..];
      var poll := script[i];
      if poll.stopped { return Gave(Stopped); }
      if poll.now >= deadline { return Gave(Expired); }
      match poll.answer {
        case Got(frame) => return Delivered(frame, poll.now, script[i + 1..]);
        case Broken => return Gave(Lost);
        case Quiet =>
      }
      i := i + 1;
    }
    return Gave(Expired);
  }

  // ----- The exchange -----

  function End(log: Log, outcome: Outcome): Log { log.(outcome := outcome) }

  /** After the proof is sent: one pending answer at most, then the decision. */
  function Decide(call: Call, script: seq<Poll>, deadline: nat, pending: bool, log: Log): Log
    decreases |script|
  {
    match Await(script, deadline)
    case Gave(failure) => End(log, Aborted(failure))
    case Delivered(frame, now, rest) =>
      var next := log.(got := log.got + [frame], last := now);
      if frame.header.kind != CLIENT_AUTH_RESULT then End(next, Aborted(NoOutcome))
      else
        match DecodeAuthResult(frame.payload)
        case Err(e) => End(next, Aborted(BadMessage(e)))
        case Ok(result) =>
          if result.status == AUTHORIZED then End(next, Authorized(result.expires))
          else if result.status == REJECTED then End(next, Rejected(result.reason))
          else if result.status == PENDING && !pending then
            var later := next.(deadlines := next.deadlines + [now + DECISION], told := next.told + 1);
            if !call.asks then End(later, Aborted(NotAsked)) else Decide(call, rest, now + DECISION, true, later)
          else End(next, Aborted(PendingTwice))
  }

  /** The proof for a challenge, if one is due: the challenge must name this route. */
  function Proof(call: Call, frame: Frame): Result<bytes, Failure> {
    if frame.header.kind != CLIENT_CHALLENGE then Err(NoChallenge)
    else
      match DecodeChallenge(frame.payload)
      case Err(e) => Err(BadMessage(e))
      case Ok(challenge) =>
        if challenge.transport != TransportOf(call.route) then Err(WrongTransport)
        else if challenge.binding != BindingOf(call.route) then Err(WrongBinding)
        else
          match AuthMessage(TransportOf(call.route), BindingOf(call.route), challenge.nonce, call.key, call.text,
            call.rule)
          case Err(_) => Err(BadTranscript)
          case Ok(message) =>
            var signature := call.sign(message);
            if signature.None? || |signature.value| != SIGNATURE_BYTES then Err(NoSignature)
            else Ok(EncodeAuth(Auth(call.key, call.text, signature.value), call.rule))
  }

  function AuthFrame(payload: bytes): Frame
    requires |payload| < U32_LIMIT
  {
    Frame(Header(CLIENT_AUTH, 0, 0, |payload|, 0), payload)
  }

  function Exchange(call: Call, script: seq<Poll>): Log {
    var deadline := call.start + call.timeout;
    var log := Log([], [], [deadline], 0, call.start, Aborted(Expired));
    match Await(script, deadline)
    case Gave(failure) => End(log, Aborted(failure))
    case Delivered(frame, now, rest) =>
      var met := log.(got := [frame], last := now);
      match Proof(call, frame)
      case Err(failure) => End(met, Aborted(failure))
      case Ok(payload) =>
        if |payload| >= U32_LIMIT || !call.sends then End(met, Aborted(NotSent))
        else Decide(call, rest, deadline, false, met.(sent := [AuthFrame(payload)]))
  }

  method RunExchange(call: Call, script: seq<Poll>) returns (log: Log)
    ensures log == Exchange(call, script)
  {
    hide Await, Proof, DecodeAuthResult;
    var deadline: nat := call.start + call.timeout;
    log := Log([], [], [deadline], 0, call.start, Aborted(Expired));
    var first := ReceiveUntil(script, deadline);
    if first.Gave? { return End(log, Aborted(first.failure)); }
    log := log.(got := [first.frame], last := first.now);
    var proof := Proof(call, first.frame);
    if proof.Err? { return End(log, Aborted(proof.error)); }
    if |proof.value| >= U32_LIMIT || !call.sends { return End(log, Aborted(NotSent)); }
    log := log.(sent := [AuthFrame(proof.value)]);
    var rest := first.rest;
    var pending := false;
    while true
      invariant Exchange(call, script) == Decide(call, rest, deadline, pending, log)
      decreases |rest|
    {
      var w := ReceiveUntil(rest, deadline);
      if w.Gave? { return End(log, Aborted(w.failure)); }
      log := log.(got := log.got + [w.frame], last := w.now);
      if w.frame.header.kind != CLIENT_AUTH_RESULT { return End(log, Aborted(NoOutcome)); }
      var result := DecodeAuthResult(w.frame.payload);
      if result.Err? { return End(log, Aborted(BadMessage(result.error))); }
      if result.value.status == AUTHORIZED { return End(log, Authorized(result.value.expires)); }
      if result.value.status == REJECTED { return End(log, Rejected(result.value.reason)); }
      if result.value.status != PENDING || pending { return End(log, Aborted(PendingTwice)); }
      pending := true;
      deadline := w.now + DECISION;
      log := log.(deadlines := log.deadlines + [deadline], told := log.told + 1);
      if !call.asks { return End(log, Aborted(NotAsked)); }
      rest := w.rest;
    }
  }

  // ----- What a trace means -----

  /** A frame that carries this authorization result. */
  ghost predicate Says(frame: Frame, result: AuthResult) {
    frame.header.kind == CLIENT_AUTH_RESULT && DecodeAuthResult(frame.payload) == Ok(result)
  }

  /** The answers after the challenge: nothing, or one pending, then `result`. */
  ghost predicate Answers(frames: seq<Frame>, result: AuthResult) {
    || (|frames| == 1 && Says(frames[0], result))
    || (|frames| == 2 && Says(frames[0], AuthResult(PENDING, 0, 0)) && Says(frames[1], result))
  }

  lemma PendingIs(frame: Frame)
    requires frame.header.kind == CLIENT_AUTH_RESULT && DecodeAuthResult(frame.payload).Ok?
    requires DecodeAuthResult(frame.payload).value.status == PENDING
    ensures Says(frame, AuthResult(PENDING, 0, 0))
  {
    AuthResultRoundTrip(AuthResult(PENDING, 0, 0), frame.payload);
    hide DecodeAuthResult;
    var r := DecodeAuthResult(frame.payload).value;
    assert AuthResultOk(r);
  }

  /** What the loop adds to a log. */
  ghost predicate Traced(deadline: nat, pending: bool, log: Log, after: Log) {
    && log.got <= after.got && after.sent == log.sent && log.deadlines <= after.deadlines
    && |after.deadlines| <= |log.deadlines| + (if pending then 0 else 1)
    && after.told - log.told == |after.deadlines| - |log.deadlines|
    && (after.got != log.got ==> after.last < deadline + if pending then 0 else DECISION)
    && (after.got == log.got ==> after.last == log.last)
    && (after.outcome.Rejected? ==>
         (pending ==> |after.got| == |log.got| + 1)
         && exists expires :: Answers(after.got[|log.got|..], AuthResult(REJECTED, after.outcome.reason, expires)))
    && (forall expires ::
         after.outcome == Authorized(expires) <==>
           (pending ==> |after.got| == |log.got| + 1)
             && Answers(after.got[|log.got|..], AuthResult(AUTHORIZED, 0, expires)))
  }

  /** One frame ends the loop. */
  lemma TracedAtOnce(deadline: nat, pending: bool, log: Log, frame: Frame, now: nat, outcome: Outcome)
    requires now < deadline
    requires forall expires :: outcome == Authorized(expires) <==> Says(frame, AuthResult(AUTHORIZED, 0, expires))
    requires outcome.Rejected? ==> exists expires :: Says(frame, AuthResult(REJECTED, outcome.reason, expires))
    ensures Traced(deadline, pending, log, End(log.(got := log.got + [frame], last := now), outcome))
  {
    assert (log.got + [frame])[|log.got|..] == [frame];
    if outcome.Rejected? {
      var expires :| Says(frame, AuthResult(REJECTED, outcome.reason, expires));
      assert Answers([frame], AuthResult(REJECTED, outcome.reason, expires));
    }
    hide Says;
  }

  lemma TracedNothing(deadline: nat, pending: bool, log: Log, failure: Failure)
    ensures Traced(deadline, pending, log, End(log, Aborted(failure)))
  {
    assert log.got[|log.got|..] == [];
  }

  /** A pending answer, and what comes after it. */
  lemma TracedLater(deadline: nat, log: Log, frame: Frame, now: nat, after: Log)
    requires now < deadline && Says(frame, AuthResult(PENDING, 0, 0))
    requires var later := log.(got := log.got + [frame], last := now, deadlines := log.deadlines + [now + DECISION],
                                  told := log.told + 1);
             Traced(now + DECISION, true, later, after) || (exists failure :: after == End(later, Aborted(failure)))
    ensures Traced(deadline, false, log, after)
  {
    var later := log.(got := log.got + [frame], last := now, deadlines := log.deadlines + [now + DECISION],
                         told := log.told + 1);
    if !Traced(now + DECISION, true, later, after) {
      var failure :| after == End(later, Aborted(failure));
      TracedNothing(now + DECISION, true, later, failure);
    }
    var rest := after.got[|later.got|..];
    var both := after.got[|log.got|..];
    assert both == [frame] + rest;
    PendingIsNothingElse(frame);
    hide Says;
    forall status, reason, expires
      ensures status != PENDING ==>
        (Answers(both, AuthResult(status, reason, expires)) <==>
           |rest| == 1 && Says(rest[0], AuthResult(status, reason, expires)))
    {
      assert |rest| == 1 ==> both[1] == rest[0];
    }
    if after.outcome.Rejected? {
      var expires :| Answers(rest, AuthResult(REJECTED, after.outcome.reason, expires));
      assert Answers(both, AuthResult(REJECTED, after.outcome.reason, expires));
    }
  }

  lemma PendingIsNothingElse(frame: Frame)
    requires Says(frame, AuthResult(PENDING, 0, 0))
    ensures forall result :: Says(frame, result) ==> result == AuthResult(PENDING, 0, 0)
  {
  }

  lemma {:induction false} DecideTrace(call: Call, script: seq<Poll>, deadline: nat, pending: bool, log: Log)
    ensures Traced(deadline, pending, log, Decide(call, script, deadline, pending, log))
    decreases |script|
  {
    hide Traced, Await, DecodeAuthResult;
    match Await(script, deadline) {
      case Gave(failure) => TracedNothing(deadline, pending, log, failure);
      case Delivered(frame, now, rest) =>
        var after := Decide(call, script, deadline, pending, log);
        var decoded := DecodeAuthResult(frame.payload);
        if frame.header.kind == CLIENT_AUTH_RESULT && decoded.Ok? && decoded.value.status == PENDING && !pending {
          PendingIs(frame);
          var later := log.(got := log.got + [frame], last := now, deadlines := log.deadlines + [now + DECISION],
                               told := log.told + 1);
          if call.asks { DecideTrace(call, rest, now + DECISION, true, later); }
          TracedLater(deadline, log, frame, now, after);
        } else {
          if frame.header.kind == CLIENT_AUTH_RESULT && decoded.Ok? { ResultIsWhole(frame); }
          TracedAtOnce(deadline, pending, log, frame, now, after.outcome);
        }
    }
  }

  /** An accepted result is one of the three, with the fields its status demands. */
  lemma ResultIsWhole(frame: Frame)
    requires frame.header.kind == CLIENT_AUTH_RESULT && DecodeAuthResult(frame.payload).Ok?
    ensures var r := DecodeAuthResult(frame.payload).value;
            && Says(frame, r) && (r.status == AUTHORIZED || r.status == PENDING || r.status == REJECTED)
            && (r.status == AUTHORIZED ==> r.reason == 0)
  {
    AuthResultRoundTrip(AuthResult(PENDING, 0, 0), frame.payload);
    hide DecodeAuthResult;
    assert AuthResultOk(DecodeAuthResult(frame.payload).value);
  }

  // ----- Main results -----

  /** A challenge for this route, and the proof sent for exactly its nonce. */
  ghost predicate Proved(call: Call, challenge: Frame, proof: Frame) {
    exists nonce, message, signature ::
      && challenge.header.kind == CLIENT_CHALLENGE
      && DecodeChallenge(challenge.payload) == Ok(Challenge(TransportOf(call.route), BindingOf(call.route), nonce))
      && AuthMessage(TransportOf(call.route), BindingOf(call.route), nonce, call.key, call.text, call.rule)
        == Ok(message)
      && call.sign(message) == Some(signature)
      && proof.header.kind == CLIENT_AUTH
      && DecodeAuth(proof.payload, call.rule) == Ok(Auth(call.key, call.text, signature))
  }

  lemma ProofIsBound(call: Call, frame: Frame)
    requires Proof(call, frame).Ok?
    ensures |Proof(call, frame).value| < U32_LIMIT
    ensures Proved(call, frame, AuthFrame(Proof(call, frame).value))
  {
    var challenge := DecodeChallenge(frame.payload).value;
    var message := AuthMessage(TransportOf(call.route), BindingOf(call.route), challenge.nonce, call.key, call.text,
      call.rule).value;
    var signature := call.sign(message).value;
    var auth := Auth(call.key, call.text, signature);
    assert AuthOk(auth, call.rule);
    AuthRoundTrip(auth, [], call.rule);
    assert challenge == Challenge(TransportOf(call.route), BindingOf(call.route), challenge.nonce);
    hide DecodeChallenge, AuthMessage, DecodeAuth, BindingOk;
    assert |EncodeAuth(auth, call.rule)| == 1 + 65 + 1 + |call.text| + 64;
    assert Proof(call, frame) == Ok(EncodeAuth(auth, call.rule));
  }

  /** MAIN RESULT: the exchange ends in Authorized if and only if the frames received
      are one challenge for this route's transport and binding, at most one pending
      answer, and an authorization - with exactly one proof sent, signed over this
      route and that challenge's nonce. */
  lemma AuthorizedMeansProved(call: Call, script: seq<Poll>, expires: u32)
    ensures var log := Exchange(call, script);
            log.outcome == Authorized(expires) <==>
              && |log.got| >= 1 && |log.sent| == 1 && Proved(call, log.got[0], log.sent[0])
              && Answers(log.got[1..], AuthResult(AUTHORIZED, 0, expires))
  {
    var deadline := call.start + call.timeout;
    match Await(script, deadline) {
      case Gave(_) =>
      case Delivered(frame, now, rest) =>
        if Proof(call, frame).Ok? {
          ProofIsBound(call, frame);
          hide Proof, Proved, Answers, Await;
          if call.sends {
            var met := Log([frame], [AuthFrame(Proof(call, frame).value)], [deadline], 0, now, Aborted(Expired));
            DecideTrace(call, rest, deadline, false, met);
            var log := Exchange(call, script);
            assert log == Decide(call, rest, deadline, false, met);
            assert log.got[0] == frame && log.got[|met.got|..] == log.got[1..];
          }
        }
    }
  }

  /** MAIN RESULT: nothing is sent unless the challenge names this route, and never
      more than one proof; the deadline is set once at the start and once more when a
      pending answer comes, which the user is told exactly then; and no frame is
      accepted past the two together. */
  lemma ExchangeIsBounded(call: Call, script: seq<Poll>)
    ensures Bounded(call, Exchange(call, script))
  {
    hide Proof, Proved, Answers, Await, AuthFrame;
    var deadline := call.start + call.timeout;
    match Await(script, deadline) {
      case Gave(_) =>
      case Delivered(frame, now, rest) =>
        if Proof(call, frame).Ok? {
          ProofIsBound(call, frame);
          if call.sends {
            var met := Log([frame], [AuthFrame(Proof(call, frame).value)], [deadline], 0, now, Aborted(Expired));
            DecideTrace(call, rest, deadline, false, met);
            var log := Exchange(call, script);
            assert log == Decide(call, rest, deadline, false, met);
            hide Exchange, Decide;
            assert log.got[0] == met.got[0] && log.deadlines[0] == met.deadlines[0];
          }
        }
    }
  }

  ghost predicate Bounded(call: Call, log: Log) {
    && |log.sent| <= 1
    && (log.sent != [] ==> log.got != [] && Proved(call, log.got[0], log.sent[0]))
    && 1 <= |log.deadlines| <= 2 && log.deadlines[0] == call.start + call.timeout && log.told == |log.deadlines| - 1
    && (log.got != [] ==> log.last < call.start + call.timeout + DECISION)
  }

  /** A refusal is the phone's own, after the same proof. */
  lemma RejectedMeansAnswered(call: Call, script: seq<Poll>)
    requires Exchange(call, script).outcome.Rejected?
    ensures var log := Exchange(call, script);
            && |log.got| >= 1 && |log.sent| == 1 && Proved(call, log.got[0], log.sent[0])
            && exists expires :: Answers(log.got[1..], AuthResult(REJECTED, log.outcome.reason, expires))
  {
    var deadline := call.start + call.timeout;
    var w := Await(script, deadline);
    ProofIsBound(call, w.frame);
    hide Proof, Proved, Answers, Await;
    var met := Log([w.frame], [AuthFrame(Proof(call, w.frame).value)], [deadline], 0, w.now, Aborted(Expired));
    DecideTrace(call, w.rest, deadline, false, met);
    assert Exchange(call, script) == Decide(call, w.rest, deadline, false, met);
  }

  // ----- A phone that answers -----

  /** From entry `from` up to `at` nothing comes, nobody stops, and the deadline is ahead. */
  predicate QuietUntil(script: seq<Poll>, from: nat, at: nat, deadline: nat) {
    && from <= at < |script|
    && (forall i :: from <= i <= at ==> !script[i].stopped && script[i].now < deadline)
    && (forall i :: from <= i < at ==> script[i].answer == Quiet)
  }

  /** The first frame in time is delivered; before it a stop, a deadline or a broken
      transport ends the wait, each as itself. */
  lemma {:induction false} FirstFrameIsDelivered(script: seq<Poll>, from: nat, at: nat, deadline: nat)
    requires QuietUntil(script, from, at, deadline)
    ensures script[at].answer.Got? ==>
              Await(script[from..], deadline) == Delivered(script[at].answer.frame, script[at].now, script[at + 1..])
    ensures script[at].answer.Broken? ==> Await(script[from..], deadline) == Gave(Lost)
    ensures script[at].answer.Quiet? && at + 1 < |script| && script[at + 1].stopped ==>
              Await(script[from..], deadline) == Gave(Stopped)
    ensures && script[at].answer.Quiet? && at + 1 < |script|
            && !script[at + 1].stopped && script[at + 1].now >= deadline ==>
              Await(script[from..], deadline) == Gave(Expired)
    decreases at - from
  {
    var tail := script[from..];
    assert tail[0] == script[from] && tail[1..] == script[from + 1..];
    if from < at {
      FirstFrameIsDelivered(script, from + 1, at, deadline);
    } else if at + 1 < |script| {
      assert tail[1..][0] == script[at + 1];
    }
  }

  /** A challenge for this call's route that it can answer. */
  ghost predicate Answerable(call: Call, frame: Frame, nonce: bytes) {
    && frame.header.kind == 0x0a
    && DecodeChallenge(frame.payload)
       == Ok(Challenge(if call.route.Usb? then 0 else 1, if call.route.Usb? then seq(32, _ => 0) else call.route.phone,
                       nonce))
    && call.sends
    && var transport, binding := TransportOf(call.route), BindingOf(call.route);
       var message := AuthMessage(transport, binding, nonce, call.key, call.text, call.rule);
       message.Ok? && call.sign(message.value).Some? && |call.sign(message.value).value| == 64
  }

  lemma AnswerableIsProved(call: Call, frame: Frame, nonce: bytes)
    requires Answerable(call, frame, nonce)
    ensures Proof(call, frame).Ok? && |Proof(call, frame).value| < U32_LIMIT
  {
    var binding := seq(32, _ => 0);
    assert seq(BINDING_BYTES, _ => 0) == binding;
    hide DecodeChallenge, AuthMessage, EncodeAuth;
    assert Proof(call, frame).Ok?;
    ProofIsBound(call, frame);
  }

  /** The log once such a challenge has been answered. */
  function Answered(call: Call, frame: Frame, now: nat): Log
    requires Proof(call, frame).Ok? && |Proof(call, frame).value| < U32_LIMIT
  {
    Log([frame], [AuthFrame(Proof(call, frame).value)], [call.start + call.timeout], 0, now, Aborted(Expired))
  }

  lemma ChallengesAreAnswered(call: Call, script: seq<Poll>, k: nat, nonce: bytes)
    requires QuietUntil(script, 0, k, call.start + call.timeout)
    requires script[k].answer.Got? && Answerable(call, script[k].answer.frame, nonce)
    ensures var frame := script[k].answer.frame;
            && Proof(call, frame).Ok? && |Proof(call, frame).value| < U32_LIMIT
            && Exchange(call, script)
               == Decide(call, script[k + 1..], call.start + call.timeout, false, Answered(call, frame, script[k].now))
  {
    AnswerableIsProved(call, script[k].answer.frame, nonce);
    FirstFrameIsDelivered(script, 0, k, call.start + call.timeout);
    assert script[0..] == script;
    hide Await, Proof, Decide, Answerable, QuietUntil;
  }

  lemma AnswersDecide(call: Call, script: seq<Poll>, from: nat, m: nat, deadline: nat, pending: bool, log: Log,
                      r: AuthResult)
    requires QuietUntil(script, from, m, deadline) && script[m].answer.Got? && Says(script[m].answer.frame, r)
    ensures r.status == 0 ==>
              Decide(call, script[from..], deadline, pending, log).outcome == Authorized(r.expires)
    ensures r.status == 2 ==>
              Decide(call, script[from..], deadline, pending, log).outcome == Rejected(r.reason)
    ensures r.status == 1 && !pending && call.asks ==>
              Decide(call, script[from..], deadline, pending, log)
              == Decide(call, script[m + 1..], script[m].now + 60_000, true,
                        log.(got := log.got + [script[m].answer.frame], last := script[m].now,
                             deadlines := log.deadlines + [script[m].now + 60_000], told := log.told + 1))
  {
    FirstFrameIsDelivered(script, from, m, deadline);
    hide Await, DecodeAuthResult, QuietUntil;
  }

  /** MAIN RESULT: an answerable challenge in time, followed in time by an authorization or a
      refusal, ends the exchange in exactly that... */
  lemma TimelyAnswersDecide(call: Call, script: seq<Poll>, k: nat, m: nat, nonce: bytes, r: AuthResult)
    requires QuietUntil(script, 0, k, call.start + call.timeout)
    requires script[k].answer.Got? && Answerable(call, script[k].answer.frame, nonce)
    requires QuietUntil(script, k + 1, m, call.start + call.timeout)
    requires script[m].answer.Got? && Says(script[m].answer.frame, r)
    ensures r.status == 0 ==> Exchange(call, script).outcome == Authorized(r.expires)
    ensures r.status == 2 ==> Exchange(call, script).outcome == Rejected(r.reason)
  {
    hide Exchange, Decide, Await, Proof, DecodeAuthResult, AuthFrame, Answerable, Says;
    ChallengesAreAnswered(call, script, k, nonce);
    AnswersDecide(call, script, k + 1, m, call.start + call.timeout, false,
                  Answered(call, script[k].answer.frame, script[k].now), r);
  }

  /** MAIN RESULT: ... and so it does when a pending answer comes first, after which the
      decision has a minute from then. */
  lemma PendingAnswersDecide(call: Call, script: seq<Poll>, k: nat, p: nat, m: nat, nonce: bytes, r: AuthResult)
    requires QuietUntil(script, 0, k, call.start + call.timeout)
    requires script[k].answer.Got? && Answerable(call, script[k].answer.frame, nonce)
    requires QuietUntil(script, k + 1, p, call.start + call.timeout)
    requires script[p].answer.Got? && Says(script[p].answer.frame, AuthResult(1, 0, 0)) && call.asks
    requires QuietUntil(script, p + 1, m, script[p].now + 60_000)
    requires script[m].answer.Got? && Says(script[m].answer.frame, r)
    ensures r.status == 0 ==> Exchange(call, script).outcome == Authorized(r.expires)
    ensures r.status == 2 ==> Exchange(call, script).outcome == Rejected(r.reason)
  {
    hide Exchange, Decide, Await, Proof, DecodeAuthResult, AuthFrame, Answerable, Says;
    ChallengesAreAnswered(call, script, k, nonce);
    var met := Answered(call, script[k].answer.frame, script[k].now);
    AnswersDecide(call, script, k + 1, p, call.start + call.timeout, false, met, AuthResult(1, 0, 0));
    var later := met.(got := met.got + [script[p].answer.frame], last := script[p].now,
                      deadlines := met.deadlines + [script[p].now + 60_000], told := met.told + 1);
    AnswersDecide(call, script, p + 1, m, script[p].now + 60_000, true, later, r);
  }
}

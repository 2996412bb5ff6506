/** The worker process's receive loop around the switch machine
    (host-rs/src/video.rs, `receive_stream`).

    The phone, the decoder, the sink and the clock are inputs: a `Round` holds
    everything one pass of the loop may observe. `Iterate` is a pass as a
    function; class `ReceiveLoop` is the loop over its own variables and is
    proved to compute it. Everything the loop does that another party can see is
    appended to `log`, in order. */
module WorkerLoop {
  import opened Basics
  import opened QualitySwitch
  import opened ModeResolver

  /** Lines the worker writes to its parent process. */
  datatype Note =
    | Waiting
    | Capabilities(permission: u8, offers: seq<Offer>)
    | Progress(staged: bool)
    | QualityApplied(mode: Mode)
    | QualityFailed(terminal: bool)
    | Stats(active: bool, submitted: nat, mode: Mode)
    | PairingInfo
    | ErrorNote
    | StoppedNote

  datatype Act =
    | PrepareSent(requestId: u32, revision: u16, mode: Mode)
    | CommitSent(requestId: u32, epoch: u32)
    | OutputsReleased
    | ConfigTaken(mode: Mode)
    | DecoderOpened
    | DecoderFlushed
    | Fed(keyframe: bool, configIncluded: bool, pts: u64)
    | FrameDecoded(width: nat, height: nat)
    | SinkOpened(mode: Mode)
    | Submitted(mode: Mode)
    | Told(note: Note)

  const PERMISSION_READY: u8 := 0

  datatype Incoming =
    | Malformed                                     // a payload its decoder refuses
    | PairingFrame
    | UnknownCapabilities                           // an extension version this host does not speak
    | CapabilityFrame(permission: u8, revision: u16, epoch: u32, offers: seq<Offer>)
    | ResultAccepted(requestId: u32, streaming: bool)
    | ResultRejected(requestId: u32, reason: u8)
    | ResultApplied(requestId: u32, mode: Mode)
    | PausedFrame(requestId: u32, epoch: u32)
    | ConfigFrame(payload: seq<u8>)
    | AccessUnit(empty: bool, keyframe: bool, configIncluded: bool, discontinuity: bool, pts: u64)
    | OtherFrame

  /** One decoded picture and what the output side says while it is handled. */
  datatype Picture = Picture(
    width: nat, height: nat,
    sinkOpens: bool, readyAnswers: bool, active: bool, previewDue: bool,
    converts: bool, submits: bool, statsDue: bool)

  datatype DecodeEnd = Drained | DecodeFailed | StopSeen

  datatype Poll = Nothing | PollFailed | Got(frame: Incoming)

  datatype Round = Round(
    command: Option<Mode>,       // taken from the one-slot request mailbox
    takenAt: nat, sendWorks: bool,
    checkedAt: nat,
    poll: Poll,
    handledAt: nat,
    decoderOpens: bool, decoderAccepts: bool,
    pictures: seq<Picture>, decodeEnd: DecodeEnd)

  datatype Worker = Worker(
    switch: Machine,
    advertised: bool, permission: u8, revision: u16, offers: seq<Offer>,
    config: Option<Mode>, sink: Option<Mode>, decoder: bool,
    started: bool, lastPts: u64, decoded: nat, submitted: nat,
    running: bool,
    log: seq<Act>)

  const PERMISSION_UNAVAILABLE: u8 := 2

  /** The loop's variables once the decoder is open and the first IDR is asked for. */
  const Begun: Worker :=
    Worker(Fresh, false, PERMISSION_UNAVAILABLE, 0, [], None, None, true, false, 0, 0, 0, true,
           [DecoderOpened, Told(Waiting)])

  function Say(w: Worker, acts: seq<Act>): Worker { w.(log := w.log + acts) }

  /** Leaving the loop with an error: the parent is told, then told it is over. */
  function Abort(w: Worker): Worker { w.(running := false, log := w.log + [Told(ErrorNote), Told(StoppedNote)]) }

  // ----- VIDEO_CONFIG -----

  const MAX_DIMENSION: int := 8192
  const MAX_PIXELS: int := 33_554_432

  function U16At(bytes: seq<u8>, i: nat): u16
    requires i + 1 < |bytes|
  {
    bytes[i] as int + 256 * (bytes[i + 1] as int)
  }

  function ParseConfig(bytes: seq<u8>): Option<Mode> {
    if |bytes| != 16 || bytes[12] != 1 || bytes[13] != 1 then None
    else
      var mode := Mode(U16At(bytes, 0), U16At(bytes, 2), U16At(bytes, 4));
      if mode.width == 0 || mode.height == 0 || mode.fps == 0
         || mode.width > MAX_DIMENSION || mode.height > MAX_DIMENSION
         || mode.width * mode.height > MAX_PIXELS then None
      else Some(mode)
  }

  // ----- One request from the parent -----

  predicate Offered(offers: seq<Offer>, mode: Mode) {
    exists i :: 0 <= i < |offers| && offers[i].mode == mode
  }

  predicate Refusable(w: Worker, mode: Mode) {
    !w.advertised || w.permission != PERMISSION_READY || !Offered(w.offers, mode)
  }

  /** Whether the pass goes on to the deadline check and the poll. */
  datatype Taken = Taken(worker: Worker, goesOn: bool)

  function TakeCommand(w: Worker, round: Round): Taken {
    if round.command.None? then Taken(w, true)
    else if Refusable(w, round.command.value) then
      Taken(Say(w, [Told(QualityFailed(false))]), false)
    else
      var (machine, actions) := Next(w.switch, round.takenAt, Prepare(w.revision, round.command.value));
      var moved := w.(switch := machine);
      if actions == [] then Taken(moved, true)
      else if !actions[0].SendPrepareQuality? then Taken(moved, true)
      else
        var sent := Say(moved, [PrepareSent(actions[0].requestId, actions[0].revision, actions[0].mode)]);
        if round.sendWorks then Taken(sent, true) else Taken(Abort(sent), false)
  }

  function CheckDeadline(w: Worker, now: nat): Worker {
    if !w.switch.Busy() then w
    else
      var (machine, actions) := Next(w.switch, now, DeadlineExceeded);
      var moved := w.(switch := machine);
      if actions == [] then moved else Abort(Say(moved, [Told(QualityFailed(true))]))
  }

  // ----- Control frames -----

  /** The reports among some actions, and whether reporting them ends the loop. */
  function Reports(actions: seq<Action>): (seq<Act>, bool) {
    if actions == [] then ([], false)
    else
      var terminal := CloseConnection in actions;
      match actions[0]
      case ReportApplied(mode) => ([Told(QualityApplied(mode))], false)
      case ReportFailed(_) => ([Told(QualityFailed(terminal))], |actions| > 1)
      case _ => ([], false)
  }

  function ReleaseAll(w: Worker): Worker {
    w.(config := None, sink := None, decoder := false, started := false,
       lastPts := 0, decoded := 0, submitted := 0,
       log := w.log + [OutputsReleased, Told(Waiting)])
  }

  /** Carrying out what the machine answered to a control frame. */
  function Perform(w: Worker, machine: Machine, actions: seq<Action>, sendWorks: bool): Worker {
    var (reports, ends) := Reports(actions);
    var told := Say(w.(switch := machine), reports);
    if ends then Abort(told)
    else
      var boundary := ReleaseOutputs in actions;
      var released := if boundary then ReleaseAll(told) else told;
      var commits := |actions| > 1 && actions[1].SendCommitQuality?;
      var sent := if commits then Say(released, [CommitSent(actions[1].requestId, actions[1].epoch)]) else released;
      if commits && !sendWorks then Abort(sent)
      else if boundary || machine.phase.Staged? != w.switch.phase.Staged? then
        Say(sent, [Told(Progress(machine.phase.Staged?))])
      else sent
  }

  function HandleQuality(w: Worker, now: nat, event: Event, sendWorks: bool): Worker {
    var (machine, actions) := Next(w.switch, now, event);
    Perform(w, machine, actions, sendWorks)
  }

  function HandleCapabilities(w: Worker, now: nat, frame: Incoming): Worker
    requires frame.CapabilityFrame?
  {
    var offers := UsableOnly(frame.offers);
    Say(w.(switch := Next(w.switch, now, EpochObserved(frame.epoch)).0,
           advertised := true, permission := frame.permission, revision := frame.revision, offers := offers),
        [Told(Capabilities(frame.permission, offers))])
  }

  function UsableOnly(offers: seq<Offer>): (kept: seq<Offer>)
    ensures forall o :: o in kept <==> o in offers && Usable(o)
  {
    if offers == [] then []
    else UsableOnly(offers[..|offers| - 1]) + (if Usable(offers[|offers| - 1]) then [offers[|offers| - 1]] else [])
  }

  /** A configuration the machine was waiting for. */
  function AcceptConfig(w: Worker, mode: Mode, machine: Machine, actions: seq<Action>): Worker {
    var (reports, ends) := Reports(actions);
    var told := Say(w.(switch := machine), reports);
    if ends then Abort(told)
    else
      var said := if w.switch.phase.Staged? then Say(told, [Told(Progress(false))]) else told;
      Say(said.(config := Some(mode)), [ConfigTaken(mode)])
  }

  function HandleConfig(w: Worker, now: nat, payload: seq<u8>): Worker {
    var parsed := ParseConfig(payload);
    if parsed.None? then Abort(w)
    else
      var mode := parsed.value;
      if w.switch.AwaitingVideo() then
        var (machine, actions) := Next(w.switch, now, VideoConfig(mode));
        AcceptConfig(w, mode, machine, actions)
      else if w.config.Some? && w.config.value != mode then Abort(w)
      else Say(w.(config := Some(mode)), [ConfigTaken(mode)])
  }

  // ----- Media -----

  /** A picture arrives: its size is checked and the sink is opened if need be. */
  function Receive(w: Worker, c: Mode, p: Picture): Worker {
    var seen := Say(w, [FrameDecoded(p.width, p.height)]);
    if p.width != c.width || p.height != c.height || c.width % 2 != 0 then Abort(seen)
    else
      var counted := seen.(decoded := seen.decoded + 1, started := true);
      if counted.sink.Some? then counted
      else if !p.sinkOpens then Abort(counted)
      else Say(counted.(sink := Some(c)), [SinkOpened(c)])
  }

  /** The active sink has taken the picture: the machine may report success. */
  function Submit(w: Worker, now: nat): Worker
    requires w.sink.Some?
  {
    var (machine, actions) := Next(w.switch, now, OutputReady);
    Say(w.(switch := machine, submitted := w.submitted + 1), [Submitted(w.sink.value)] + Reports(actions).0)
  }

  function ShowPicture(w: Worker, now: nat, c: Mode, p: Picture): Worker {
    var lit := Receive(w, c, p);
    if !lit.running then lit
    else if !p.readyAnswers then Abort(lit)
    else if (p.active || p.previewDue) && !p.converts then Abort(lit)
    else if p.active && !p.submits then Abort(lit)
    else
      var shown := if p.active then Submit(lit, now) else lit;
      if p.statsDue then Say(shown, [Told(Stats(p.active, shown.submitted, c))]) else shown
  }

  function ShowAll(w: Worker, now: nat, c: Mode, pictures: seq<Picture>): Worker {
    if pictures == [] then w
    else
      var before := ShowAll(w, now, c, pictures[..|pictures| - 1]);
      if before.running then ShowPicture(before, now, c, pictures[|pictures| - 1]) else before
  }

  /** The decoder, open and flushed if the unit asks for it. */
  function Ready(w: Worker, unit: Incoming): Worker
    requires unit.AccessUnit?
  {
    var open := if w.decoder then w else Say(w.(decoder := true), [DecoderOpened]);
    if unit.discontinuity then Say(open, [DecoderFlushed]) else open
  }

  function Feed(w: Worker, unit: Incoming): Worker
    requires unit.AccessUnit?
  {
    Say(w.(lastPts := unit.pts), [Fed(unit.keyframe, unit.configIncluded, unit.pts)])
  }

  function HandleUnit(w: Worker, round: Round, unit: Incoming): Worker
    requires unit.AccessUnit?
  {
    if unit.empty || w.config.None? then w
    else if !w.started && (!unit.keyframe || !unit.configIncluded) then w
    else if w.started && unit.pts <= w.lastPts then Abort(w)
    else if !w.decoder && !round.decoderOpens then Abort(w)
    else if !round.decoderAccepts then Abort(Ready(w, unit))
    else
      var shown := ShowAll(Feed(Ready(w, unit), unit), round.handledAt, w.config.value, round.pictures);
      if shown.running && round.decodeEnd.DecodeFailed? then Abort(shown) else shown
  }

  // ----- One pass, and runs -----

  function HandleFrame(w: Worker, round: Round, frame: Incoming): Worker {
    match frame
    case Malformed => Abort(w)
    case PairingFrame => Say(w, [Told(PairingInfo)])
    case UnknownCapabilities => w
    case CapabilityFrame(_, _, _, _) => HandleCapabilities(w, round.handledAt, frame)
    case ResultAccepted(id, streaming) =>
      HandleQuality(w, round.handledAt, PrepareAccepted(id, streaming), round.sendWorks)
    case ResultRejected(id, reason) => HandleQuality(w, round.handledAt, Rejected(id, reason), round.sendWorks)
    case ResultApplied(id, mode) => HandleQuality(w, round.handledAt, CaptureStarted(id, mode), round.sendWorks)
    case PausedFrame(id, epoch) => HandleQuality(w, round.handledAt, Paused(id, epoch), round.sendWorks)
    case ConfigFrame(payload) => HandleConfig(w, round.handledAt, payload)
    case AccessUnit(_, _, _, _, _) => HandleUnit(w, round, frame)
    case OtherFrame => w
  }

  function Iterate(w: Worker, round: Round): Worker {
    if !w.running then w
    else
      var taken := TakeCommand(w, round);
      if !taken.goesOn then taken.worker
      else
        var checked := CheckDeadline(taken.worker, round.checkedAt);
        if !checked.running then checked
        else
          match round.poll
          case Nothing => checked
          case PollFailed => Abort(checked)
          case Got(frame) => HandleFrame(checked, round, frame)
  }

  /** The loop's exit when the parent asked it to stop. */
  function Finish(w: Worker, now: nat): Worker {
    if !w.running then w
    else
      var (machine, actions) := Next(w.switch, now, UserStop);
      Say(w.(switch := machine, running := false),
          (if actions == [] then [] else [Told(QualityFailed(false))]) + [Told(StoppedNote)])
  }

  function Play(rounds: seq<Round>): Worker {
    if rounds == [] then Begun else Iterate(Play(rounds[..|rounds| - 1]), rounds[|rounds| - 1])
  }
}

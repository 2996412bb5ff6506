/** The worker's quality-switch transaction machine (host-rs/src/quality.rs).

    `Next` is the machine as a function of the old state, the clock and one
    event; class `Switch` is the in-place form and is proved to compute it. */
module QualitySwitch {
  import opened Basics

  const APPLY_DEADLINE_MS: nat := 5000

  /** Width, height and frame rate: the part of a mode that identifies it. */
  datatype Mode = Mode(width: u16, height: u16, fps: u16)

  datatype Phase = Idle | Preparing | Staged | Switching | AwaitingOutput | Applied | Failed

  datatype Event =
    | EpochObserved(epoch: u32)
    | Prepare(revision: u16, mode: Mode)
    | PrepareAccepted(requestId: u32, streaming: bool)
    | Rejected(requestId: u32, reason: u8)
    | Paused(requestId: u32, epoch: u32)
    | VideoConfig(mode: Mode)
    | CaptureStarted(requestId: u32, mode: Mode)
    | OutputReady
    | DeadlineExceeded
    | UserStop

  datatype Reason =
    | EpochOverflow
    | ModeMismatch
    | DeadlineExpired
    | Stopped
    | PhoneRejected(code: u8)

  datatype Action =
    | SendPrepareQuality(requestId: u32, revision: u16, mode: Mode)
    | SendCommitQuality(requestId: u32, epoch: u32)
    | ReleaseOutputs
    | ReportApplied(mode: Mode)
    | ReportFailed(reason: Reason)
    | StopCapture
    | CloseConnection

  datatype Machine = Machine(
    phase: Phase,
    requestId: u32,
    epoch: Option<u32>,
    requested: Option<Mode>,
    applied: Option<Mode>,
    deadline: Option<nat>,
    nextRequestId: u32)
  {
    predicate Settled() { phase.Idle? || phase.Applied? || phase.Failed? }
    predicate Busy() { phase.Preparing? || phase.Switching? || phase.AwaitingOutput? }
    predicate AwaitingVideo() { phase.Switching? || phase.Staged? || phase.AwaitingOutput? }
    /** A request has been accepted and has no verdict yet. */
    predicate Active() { !Settled() }
  }

  const Fresh: Machine := Machine(Idle, 0, None, None, None, None, 1)

  function Fail(m: Machine, reason: Reason): (Machine, seq<Action>) {
    (m.(phase := Failed, deadline := None), [ReportFailed(reason), StopCapture, CloseConnection])
  }

  function Begin(m: Machine, now: nat, revision: u16, mode: Mode): (Machine, seq<Action>) {
    if !m.Settled() || mode.width == 0 || mode.height == 0 || mode.fps == 0 then (m, [])
    else if m.nextRequestId == U32_MAX then (m, [])
    else (m.(phase := Preparing, requestId := m.nextRequestId, nextRequestId := m.nextRequestId + 1,
             requested := Some(mode), deadline := Some(now + APPLY_DEADLINE_MS)),
          [SendPrepareQuality(m.nextRequestId, revision, mode)])
  }

  function Next(m: Machine, now: nat, event: Event): (Machine, seq<Action>) {
    match event
    case EpochObserved(epoch) =>
      (if m.Settled() then m.(epoch := Some(epoch)) else m, [])
    case Prepare(revision, mode) => Begin(m, now, revision, mode)
    case PrepareAccepted(id, streaming) =>
      if id != m.requestId then (m, [])
      else if m.phase.Preparing? && !streaming then
        (m.(phase := Staged, deadline := None), [ReleaseOutputs])
      else if m.phase.Staged? && streaming then
        (m.(phase := Switching, deadline := Some(now + APPLY_DEADLINE_MS)), [])
      else (m, [])
    case Rejected(id, reason) =>
      if id != m.requestId || !m.Active() then (m, [])
      else if m.phase.Switching? || m.phase.AwaitingOutput? then Fail(m, PhoneRejected(reason))
      else (m.(phase := Failed, deadline := None), [ReportFailed(PhoneRejected(reason))])
    case Paused(id, epoch) =>
      if id != m.requestId || !m.phase.Preparing? || (m.epoch.Some? && m.epoch.value != epoch) then (m, [])
      else if epoch == U32_MAX then Fail(m, EpochOverflow)
      else (m.(phase := Switching, epoch := Some(epoch + 1)), [ReleaseOutputs, SendCommitQuality(id, epoch + 1)])
    case VideoConfig(mode) =>
      if !m.AwaitingVideo() then (m, [])
      else if m.requested != Some(mode) then Fail(m, ModeMismatch)
      else (m.(phase := AwaitingOutput,
               deadline := if m.phase.Staged? then Some(now + APPLY_DEADLINE_MS) else m.deadline), [])
    case CaptureStarted(id, mode) =>
      if id != m.requestId || !m.AwaitingVideo() then (m, [])
      else if m.requested != Some(mode) then Fail(m, ModeMismatch)
      else if m.phase.Staged? then
        (m.(phase := Switching, deadline := Some(now + APPLY_DEADLINE_MS)), [])
      else (m, [])
    case OutputReady =>
      if !m.phase.AwaitingOutput? || m.requested.None? then (m, [])
      else (m.(phase := Applied, applied := m.requested, deadline := None), [ReportApplied(m.requested.value)])
    case DeadlineExceeded =>
      if m.Busy() && m.deadline.Some? && now >= m.deadline.value then Fail(m, DeadlineExpired) else (m, [])
    case UserStop =>
      if !m.Busy() && !m.phase.Staged? then (m, [])
      else (m.(phase := Failed, deadline := None), [ReportFailed(Stopped), StopCapture])
  }

  /** The machine updated in place, branch by branch as the worker runs it. */
  class Switch {
    var phase: Phase
    var requestId: u32
    var epoch: Option<u32>
    var requested: Option<Mode>
    var applied: Option<Mode>
    var deadline: Option<nat>
    var nextRequestId: u32

    function State(): Machine
      reads this
    {
      Machine(phase, requestId, epoch, requested, applied, deadline, nextRequestId)
    }

    constructor ()
      ensures State() == Fresh
    {
      phase, requestId, epoch := Idle, 0, None;
      requested, applied, deadline, nextRequestId := None, None, None, 1;
    }

    method PrepareRequest(now: nat, revision: u16, mode: Mode) returns (action: Option<Action>)
      modifies this
      ensures (State(), if action.Some? then [action.value] else []) == Begin(old(State()), now, revision, mode)
    {
      if !(phase == Idle || phase == Applied || phase == Failed)
         || mode.width == 0 || mode.height == 0 || mode.fps == 0 {
        return None;
      }
      var id := nextRequestId;
      if nextRequestId == U32_MAX { return None; }
      nextRequestId := nextRequestId + 1;
      phase := Preparing;
      requestId := id;
      requested := Some(mode);
      deadline := Some(now + APPLY_DEADLINE_MS);
      return Some(SendPrepareQuality(id, revision, mode));
    }

    method FailRequest(reason: Reason) returns (actions: seq<Action>)
      modifies this
      ensures (State(), actions) == Fail(old(State()), reason)
    {
      phase := Failed;
      deadline := None;
      actions := [ReportFailed(reason), StopCapture, CloseConnection];
    }

    method Step(now: nat, event: Event) returns (actions: seq<Action>)
      modifies this
      ensures (State(), actions) == Next(old(State()), now, event)
    {
      actions := [];
      var awaitingVideo := phase == Switching || phase == Staged || phase == AwaitingOutput;
      var busy := phase == Preparing || phase == Switching || phase == AwaitingOutput;
      match event {
        case EpochObserved(observed) =>
          if phase == Idle || phase == Applied || phase == Failed { epoch := Some(observed); }
        case Prepare(revision, mode) =>
          var action := PrepareRequest(now, revision, mode);
          if action.Some? { actions := [action.value]; }
        case PrepareAccepted(id, streaming) =>
          if id != requestId { return; }
          if phase == Preparing && !streaming {
            phase := Staged;
            deadline := None;
            return [ReleaseOutputs];
          }
          if phase == Staged && streaming {
            phase := Switching;
            deadline := Some(now + APPLY_DEADLINE_MS);
          }
        case Rejected(id, reason) =>
          if id != requestId || !(phase == Preparing || awaitingVideo) { return; }
          var afterBoundary := phase == Switching || phase == AwaitingOutput;
          if afterBoundary {
            actions := FailRequest(PhoneRejected(reason));
            return;
          }
          phase := Failed;
          deadline := None;
          actions := [ReportFailed(PhoneRejected(reason))];
        case Paused(id, pausedEpoch) =>
          if id != requestId || phase != Preparing || (epoch.Some? && epoch.value != pausedEpoch) { return; }
          if pausedEpoch == U32_MAX {
            actions := FailRequest(EpochOverflow);
            return;
          }
          phase := Switching;
          epoch := Some(pausedEpoch + 1);
          actions := [ReleaseOutputs, SendCommitQuality(id, pausedEpoch + 1)];
        case VideoConfig(mode) =>
          if !awaitingVideo { return; }
          if requested != Some(mode) {
            actions := FailRequest(ModeMismatch);
            return;
          }
          if phase == Staged { deadline := Some(now + APPLY_DEADLINE_MS); }
          phase := AwaitingOutput;
        case CaptureStarted(id, mode) =>
          if id != requestId || !awaitingVideo { return; }
          if requested != Some(mode) {
            actions := FailRequest(ModeMismatch);
            return;
          }
          if phase == Staged {
            phase := Switching;
            deadline := Some(now + APPLY_DEADLINE_MS);
          }
        case OutputReady =>
          if phase != AwaitingOutput || requested.None? { return; }
          phase := Applied;
          applied := requested;
          deadline := None;
          actions := [ReportApplied(requested.value)];
        case DeadlineExceeded =>
          if busy && deadline.Some? && now >= deadline.value { actions := FailRequest(DeadlineExpired); }
        case UserStop =>
          if !busy && phase != Staged { return; }
          phase := Failed;
          deadline := None;
          actions := [ReportFailed(Stopped), StopCapture];
      }
    }
  }
}

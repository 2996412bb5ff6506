/** The receive loop over its own variables (host-rs/src/video.rs:278-632),
    proved to compute the passes of WorkerLoop. */
module WorkerProcess {
  import opened Basics
  import opened QualitySwitch
  import opened ModeResolver
  import opened WorkerLoop

  class ReceiveLoop {
    const switch: Switch
    var advertised: bool
    var permission: u8
    var revision: u16
    var offers: seq<Offer>
    var config: Option<Mode>
    var sink: Option<Mode>
    var decoder: bool
    var started: bool
    var lastPts: u64
    var decoded: nat
    var submitted: nat
    var running: bool
    var log: seq<Act>

    function State(): Worker
      reads this, switch
    {
      Worker(switch.State(), advertised, permission, revision, offers, config, sink, decoder,
             started, lastPts, decoded, submitted, running, log)
    }

    constructor ()
      ensures State() == Begun && fresh(switch)
    {
      switch := new Switch();
      advertised, permission, revision, offers := false, PERMISSION_UNAVAILABLE, 0, [];
      config, sink, decoder, started, lastPts := None, None, true, false, 0;
      decoded, submitted, running := 0, 0, true;
      log := [DecoderOpened, Told(Waiting)];
    }

    method Emit(act: Act)
      modifies this`log
      ensures log == old(log) + [act]
    {
      log := log + [act];
    }

    method Fail()
      modifies this
      ensures State() == Abort(old(State()))
    {
      running := false;
      log := log + [Told(ErrorNote), Told(StoppedNote)];
    }

    /** `report_quality`: verdicts go to the parent, a stop ends the loop. */
    method Report(actions: seq<Action>) returns (ends: bool)
      modifies this`log
      requires actions != [] ==> !actions[0].StopCapture? && !actions[0].CloseConnection?
      requires |actions| > 1 && actions[0].ReportFailed? ==> actions[1].StopCapture?
      requires |actions| > 1 && !actions[0].ReportFailed? ==>
        |actions| == 2 && actions[0].ReleaseOutputs? && actions[1].SendCommitQuality?
      ensures log == old(log) + Reports(actions).0 && ends == Reports(actions).1
    {
      var terminal := CloseConnection in actions;
      var i := 0;
      while i < |actions|
        invariant 0 <= i <= |actions|
        invariant i == 0 ==> log == old(log)
        invariant i > 0 ==> log == old(log) + Reports(actions).0
        invariant i > 0 ==> (Reports(actions).1 ==> i == 1)
      {
        match actions[i] {
          case ReportApplied(mode) => Emit(Told(QualityApplied(mode)));
          case ReportFailed(_) => Emit(Told(QualityFailed(terminal)));
          case StopCapture => return true;
          case CloseConnection => return true;
          case _ =>
        }
        i := i + 1;
      }
      ends := false;
    }

    method TakeRequest(round: Round) returns (goesOn: bool)
      modifies this, switch
      ensures State() == TakeCommand(old(State()), round).worker
      ensures goesOn == TakeCommand(old(State()), round).goesOn
    {
      if round.command.None? { return true; }
      var mode := round.command.value;
      var offered := false;
      for i := 0 to |offers|
        invariant offered <==> exists k :: 0 <= k < i && offers[k].mode == mode
      {
        if offers[i].mode == mode { offered := true; }
      }
      if !advertised || permission != PERMISSION_READY || !offered {
        Emit(Told(QualityFailed(false)));
        return false;
      }
      var actions := switch.Step(round.takenAt, Prepare(revision, mode));
      if actions != [] && actions[0].SendPrepareQuality? {
        Emit(PrepareSent(actions[0].requestId, actions[0].revision, actions[0].mode));
        if !round.sendWorks {
          Fail();
          return false;
        }
      }
      return true;
    }

    method CheckExpiry(now: nat)
      modifies this, switch
      ensures State() == CheckDeadline(old(State()), now)
    {
      if switch.State().Busy() {
        var actions := switch.Step(now, DeadlineExceeded);
        if actions != [] {
          Emit(Told(QualityFailed(true)));
          Fail();
        }
      }
    }

    /** The teardown before a commit or a staged wait. */
    method ReleaseEverything()
      modifies this
      ensures State() == ReleaseAll(old(State()))
    {
      sink, decoder, config, started := None, false, None, false;
      decoded, submitted, lastPts := 0, 0, 0;
      log := log + [OutputsReleased, Told(Waiting)];
    }

    method OnControl(now: nat, event: Event, sendWorks: bool)
      requires event.PrepareAccepted? || event.Rejected? || event.CaptureStarted? || event.Paused?
      modifies this, switch
      ensures State() == HandleQuality(old(State()), now, event, sendWorks)
    {
      var wasStaged := switch.phase == Staged;
      var actions := switch.Step(now, event);
      ActionShapes(old(switch.State()), now, event);
      hide Next;
      PerformIsCarried(old(State()), switch.State(), actions, sendWorks);
      hide Perform, Carried;
      var ends := Report(actions);
      if ends {
        Fail();
        return;
      }
      Carry(actions, wasStaged, sendWorks);
    }

    /** What is left of an answer once it is reported: the teardown, the commit and a
        change of the staged state. */
    static ghost function Carried(told: Worker, wasStaged: bool, actions: seq<Action>, sendWorks: bool): Worker {
      var boundary := ReleaseOutputs in actions;
      var released := if boundary then ReleaseAll(told) else told;
      var commits := |actions| > 1 && actions[1].SendCommitQuality?;
      var sent := if commits then Say(released, [CommitSent(actions[1].requestId, actions[1].epoch)]) else released;
      if commits && !sendWorks then Abort(sent)
      else if boundary || told.switch.phase.Staged? != wasStaged
        then Say(sent, [Told(Progress(told.switch.phase.Staged?))])
      else sent
    }

    static lemma PerformIsCarried(w: Worker, machine: Machine, actions: seq<Action>, sendWorks: bool)
      ensures var (reports, ends) := Reports(actions);
              var told := Say(w.(switch := machine), reports);
              Perform(w, machine, actions, sendWorks)
              == if ends then Abort(told) else Carried(told, w.switch.phase.Staged?, actions, sendWorks)
    {
      hide Reports;
    }

    method Carry(actions: seq<Action>, wasStaged: bool, sendWorks: bool)
      modifies this
      ensures State() == Carried(old(State()), wasStaged, actions, sendWorks)
    {
      hide ReleaseAll;
      var boundary := ReleaseOutputs in actions;
      if boundary { ReleaseEverything(); }
      if |actions| > 1 && actions[1].SendCommitQuality? {
        Emit(CommitSent(actions[1].requestId, actions[1].epoch));
        if !sendWorks {
          Fail();
          return;
        }
      }
      if boundary || (switch.phase == Staged) != wasStaged {
        Emit(Told(Progress(switch.phase == Staged)));
      }
    }

    method OnCapabilities(now: nat, frame: Incoming)
      requires frame.CapabilityFrame?
      modifies this, switch
      ensures State() == HandleCapabilities(old(State()), now, frame)
    {
      var ignored := switch.Step(now, EpochObserved(frame.epoch));
      revision := frame.revision;
      advertised := true;
      permission := frame.permission;
      offers := UsableOnly(frame.offers);
      Emit(Told(Capabilities(frame.permission, offers)));
    }

    method OnConfig(now: nat, payload: seq<u8>)
      modifies this, switch
      ensures State() == HandleConfig(old(State()), now, payload)
    {
      var parsed := ParseConfig(payload);
      if parsed.None? {
        Fail();
        return;
      }
      if switch.State().AwaitingVideo() {
        var wasStaged := switch.phase == Staged;
        var actions := switch.Step(now, VideoConfig(parsed.value));
        var ends := Report(actions);
        if ends {
          Fail();
          return;
        }
        if wasStaged { Emit(Told(Progress(false))); }
      } else if config.Some? && config.value != parsed.value {
        Fail();
        return;
      }
      config := parsed;
      Emit(ConfigTaken(parsed.value));
    }

    method OnReceived(c: Mode, p: Picture)
      modifies this
      ensures State() == Receive(old(State()), c, p)
    {
      Emit(FrameDecoded(p.width, p.height));
      if p.width != c.width || p.height != c.height || c.width % 2 != 0 {
        Fail();
        return;
      }
      decoded := decoded + 1;
      started := true;
      if sink.None? {
        if !p.sinkOpens {
          Fail();
          return;
        }
        sink := Some(c);
        Emit(SinkOpened(c));
      }
    }

    method OnSubmitted(now: nat)
      requires sink.Some?
      modifies this, switch
      ensures State() == Submit(old(State()), now)
    {
      Emit(Submitted(sink.value));
      submitted := submitted + 1;
      var actions := switch.Step(now, OutputReady);
      var ends := Report(actions);
      assert log == old(log) + ([Submitted(sink.value)] + Reports(actions).0);
    }

    method OnPicture(now: nat, c: Mode, p: Picture)
      requires running
      modifies this, switch
      ensures State() == ShowPicture(old(State()), now, c, p)
    {
      hide Next;
      OnReceived(c, p);
      if !running { return; }
      ReceiveOpensSink(old(State()), c, p);
      hide Receive;
      if !p.readyAnswers || ((p.active || p.previewDue) && !p.converts) || (p.active && !p.submits) {
        Fail();
        return;
      }
      if p.active { OnSubmitted(now); }
      if p.statsDue { Emit(Told(Stats(p.active, submitted, c))); }
    }

    method MakeReady(unit: Incoming)
      requires unit.AccessUnit?
      modifies this
      ensures State() == Ready(old(State()), unit)
    {
      if !decoder {
        decoder := true;
        Emit(DecoderOpened);
      }
      if unit.discontinuity { Emit(DecoderFlushed); }
    }

    method OnUnit(round: Round, unit: Incoming)
      requires unit.AccessUnit? && running
      modifies this, switch
      ensures State() == HandleUnit(old(State()), round, unit)
    {
      hide ShowPicture, Ready;
      if unit.empty || config.None? { return; }
      var c := config.value;
      if !started && (!unit.keyframe || !unit.configIncluded) { return; }
      if started && unit.pts <= lastPts {
        Fail();
        return;
      }
      if !decoder && !round.decoderOpens {
        Fail();
        return;
      }
      MakeReady(unit);
      if !round.decoderAccepts {
        Fail();
        return;
      }
      Emit(Fed(unit.keyframe, unit.configIncluded, unit.pts));
      lastPts := unit.pts;
      ghost var fed := State();
      var i := 0;
      while i < |round.pictures| && running
        invariant 0 <= i <= |round.pictures|
        invariant State() == ShowAll(fed, round.handledAt, c, round.pictures[..i])
        invariant fed == Feed(Ready(old(State()), unit), unit)
      {
        OnPicture(round.handledAt, c, round.pictures[i]);
        assert round.pictures[..i + 1][..i] == round.pictures[..i];
        i := i + 1;
      }
      if !running { StoppedShowsNoMore(fed, round.handledAt, c, round.pictures, i); }
      assert round.pictures[..|round.pictures|] == round.pictures;
      if running && round.decodeEnd.DecodeFailed? { Fail(); }
    }

    /** One pass of the loop. */
    method Pass(round: Round)
      modifies this, switch
      ensures State() == Iterate(old(State()), round)
    {
      if !running { return; }
      var goesOn := TakeRequest(round);
      if !goesOn { return; }
      ghost var taken := State();
      CheckExpiry(round.checkedAt);
      if !running { return; }
      match round.poll {
        case Nothing =>
        case PollFailed => Fail();
        case Got(frame) =>
          match frame {
            case Malformed => Fail();
            case PairingFrame => Emit(Told(PairingInfo));
            case UnknownCapabilities =>
            case CapabilityFrame(_, _, _, _) => OnCapabilities(round.handledAt, frame);
            case ResultAccepted(id, streaming) =>
              OnControl(round.handledAt, PrepareAccepted(id, streaming), round.sendWorks);
            case ResultRejected(id, reason) => OnControl(round.handledAt, Rejected(id, reason), round.sendWorks);
            case ResultApplied(id, mode) => OnControl(round.handledAt, CaptureStarted(id, mode), round.sendWorks);
            case PausedFrame(id, epoch) => OnControl(round.handledAt, Paused(id, epoch), round.sendWorks);
            case ConfigFrame(payload) => OnConfig(round.handledAt, payload);
            case AccessUnit(_, _, _, _, _) => OnUnit(round, frame);
            case OtherFrame =>
          }
      }
    }

    method Run(rounds: seq<Round>)
      requires State() == Begun
      modifies this, switch
      ensures State() == Play(rounds)
    {
      for i := 0 to |rounds|
        invariant State() == Play(rounds[..i])
      {
        Pass(rounds[i]);
        assert rounds[..i + 1][..i] == rounds[..i];
      }
      assert rounds[..|rounds|] == rounds;
    }

    method Stop(now: nat)
      modifies this, switch
      ensures State() == Finish(old(State()), now)
    {
      if !running { return; }
      var actions := switch.Step(now, UserStop);
      if actions != [] { Emit(Told(QualityFailed(false))); }
      running := false;
      Emit(Told(StoppedNote));
    }
  }

  lemma ActionShapes(m: Machine, now: nat, event: Event)
    requires event.PrepareAccepted? || event.Rejected? || event.CaptureStarted? || event.Paused?
    ensures var actions := Next(m, now, event).1;
            && (actions != [] ==> !actions[0].StopCapture? && !actions[0].CloseConnection?)
            && (|actions| > 1 && actions[0].ReportFailed? ==> actions[1].StopCapture?)
            && (|actions| > 1 && !actions[0].ReportFailed? ==>
                 |actions| == 2 && actions[0].ReleaseOutputs? && actions[1].SendCommitQuality?)
  {
  }

  lemma ReceiveOpensSink(w: Worker, c: Mode, p: Picture)
    requires w.running && Receive(w, c, p).running
    ensures Receive(w, c, p).sink.Some?
  {
  }

  lemma {:induction false} StoppedShowsNoMore(w: Worker, now: nat, c: Mode, pictures: seq<Picture>, i: nat)
    requires i <= |pictures| && !ShowAll(w, now, c, pictures[..i]).running
    ensures ShowAll(w, now, c, pictures) == ShowAll(w, now, c, pictures[..i])
    decreases |pictures|
  {
    if i == |pictures| {
      assert pictures[..i] == pictures;
    } else {
      var front := pictures[..|pictures| - 1];
      assert front[..i] == pictures[..i];
      StoppedShowsNoMore(w, now, c, front, i);
    }
  }
}

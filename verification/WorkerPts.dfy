/** Presentation times in the units fed to a decoder, over whole runs of the worker
    loop (host-rs/src/video.rs:546-563). */
module WorkerPts {
  import opened Basics
  import opened QualitySwitch
  import opened WorkerLoop

  /** Since the latest release: whether a picture was decoded, the time of the unit fed
      last, and whether every unit fed after a decoded picture was later than the one
      before it. */
  datatype Clock = Clock(started: bool, last: u64, rising: bool)

  function Tick(c: Clock, act: Act): Clock {
    match act
    case OutputsReleased => Clock(false, 0, c.rising)
    case FrameDecoded(_, _) => c.(started := true)
    case Fed(_, _, pts) => Clock(c.started, pts, c.rising && (c.started ==> pts > c.last))
    case _ => c
  }

  function ClockOf(log: seq<Act>): Clock {
    if log == [] then Clock(false, 0, true) else Tick(ClockOf(log[..|log| - 1]), log[|log| - 1])
  }

  predicate Timeless(act: Act) { !act.OutputsReleased? && !act.FrameDecoded? && !act.Fed? }

  lemma ClockPush(log: seq<Act>, act: Act)
    ensures ClockOf(log + [act]) == Tick(ClockOf(log), act)
  {
    assert (log + [act])[..|log|] == log;
  }

  lemma {:induction false} ClockKeeps(log: seq<Act>, acts: seq<Act>)
    requires forall k :: 0 <= k < |acts| ==> Timeless(acts[k])
    ensures ClockOf(log + acts) == ClockOf(log)
    decreases |acts|
  {
    if acts == [] {
      assert log + acts == log;
    } else {
      var front, last := acts[..|acts| - 1], acts[|acts| - 1];
      assert Timeless(last);
      ClockKeeps(log, front);
      ClockPush(log + front, last);
      assert log + acts == (log + front) + [last];
    }
  }

  /** The loop's own variables agree with its log, and no unit went backwards. */
  ghost predicate InStep(w: Worker) {
    var c := ClockOf(w.log);
    c.rising && (w.running ==> c.started == w.started && c.last == w.lastPts)
  }

  /** `v` is `w` with timeless acts added and its picture variables as they were. */
  lemma SaidInStep(w: Worker, v: Worker, acts: seq<Act>)
    requires InStep(w) && w.running && v.log == w.log + acts && forall k :: 0 <= k < |acts| ==> Timeless(acts[k])
    requires v.running ==> v.started == w.started && v.lastPts == w.lastPts
    ensures InStep(v)
  {
    ClockKeeps(w.log, acts);
  }

  lemma AbortInStep(w: Worker)
    requires ClockOf(w.log).rising
    ensures InStep(Abort(w))
  {
    ClockKeeps(w.log, [Told(ErrorNote), Told(StoppedNote)]);
  }

  lemma TakeInStep(w: Worker, round: Round)
    requires InStep(w) && w.running
    ensures InStep(TakeCommand(w, round).worker)
  {
    hide Next, InStep, ClockOf;
    var after := TakeCommand(w, round).worker;
    if round.command.Some? {
      if Refusable(w, round.command.value) {
        SaidInStep(w, after, [Told(QualityFailed(false))]);
      } else {
        var (machine, actions) := Next(w.switch, round.takenAt, Prepare(w.revision, round.command.value));
        var moved := w.(switch := machine);
        SaidInStep(w, moved, []);
        if actions != [] && actions[0].SendPrepareQuality? {
          var act := PrepareSent(actions[0].requestId, actions[0].revision, actions[0].mode);
          SaidInStep(moved, Say(moved, [act]), [act]);
          Rises(Say(moved, [act]));
          AbortInStep(Say(moved, [act]));
        }
      }
    }
  }

  lemma Rises(w: Worker)
    requires InStep(w)
    ensures ClockOf(w.log).rising
  {
  }

  lemma DeadlineInStep(w: Worker, now: nat)
    requires InStep(w) && w.running
    ensures InStep(CheckDeadline(w, now))
  {
    hide Next, InStep, ClockOf;
    if w.switch.Busy() {
      var (machine, actions) := Next(w.switch, now, DeadlineExceeded);
      var moved := w.(switch := machine);
      SaidInStep(w, moved, []);
      SaidInStep(moved, Say(moved, [Told(QualityFailed(true))]), [Told(QualityFailed(true))]);
      Rises(Say(moved, [Told(QualityFailed(true))]));
      AbortInStep(Say(moved, [Told(QualityFailed(true))]));
    }
  }

  lemma ReportsTimeless(actions: seq<Action>)
    ensures forall k :: 0 <= k < |Reports(actions).0| ==> Timeless(Reports(actions).0[k])
  {
  }

  lemma ReleaseInStep(w: Worker)
    requires InStep(w)
    ensures InStep(ReleaseAll(w))
  {
    ClockPush(w.log, OutputsReleased);
    ClockKeeps(w.log + [OutputsReleased], [Told(Waiting)]);
    assert w.log + [OutputsReleased, Told(Waiting)] == (w.log + [OutputsReleased]) + [Told(Waiting)];
  }

  lemma PerformInStep(w: Worker, machine: Machine, actions: seq<Action>, sendWorks: bool)
    requires InStep(w) && w.running
    ensures InStep(Perform(w, machine, actions, sendWorks))
  {
    hide InStep, ClockOf, Reports;
    var (reports, ends) := Reports(actions);
    ReportsTimeless(actions);
    var told := Say(w.(switch := machine), reports);
    SaidInStep(w, told, reports);
    Rises(told);
    if ends {
      AbortInStep(told);
    } else {
      var boundary := ReleaseOutputs in actions;
      var released := if boundary then ReleaseAll(told) else told;
      if boundary { ReleaseInStep(told); }
      var commits := |actions| > 1 && actions[1].SendCommitQuality?;
      var act := if commits then [CommitSent(actions[1].requestId, actions[1].epoch)] else [];
      var sent := if commits then Say(released, act) else released;
      SaidInStep(released, sent, act);
      Rises(sent);
      AbortInStep(sent);
      var note := [Told(Progress(machine.phase.Staged?))];
      SaidInStep(sent, Say(sent, note), note);
    }
  }

  lemma CapabilitiesInStep(w: Worker, now: nat, frame: Incoming)
    requires InStep(w) && w.running && frame.CapabilityFrame?
    ensures InStep(HandleCapabilities(w, now, frame))
  {
    hide InStep, ClockOf, Next;
    SaidInStep(w, HandleCapabilities(w, now, frame), [Told(Capabilities(frame.permission, UsableOnly(frame.offers)))]);
  }

  lemma ConfigInStep(w: Worker, now: nat, payload: seq<u8>)
    requires InStep(w) && w.running
    ensures InStep(HandleConfig(w, now, payload))
  {
    hide InStep, ClockOf, Next, Reports;
    Rises(w);
    AbortInStep(w);
    var parsed := ParseConfig(payload);
    hide ParseConfig;
    if parsed.Some? {
      var mode := parsed.value;
      SaidInStep(w, Say(w.(config := Some(mode)), [ConfigTaken(mode)]), [ConfigTaken(mode)]);
      if w.switch.AwaitingVideo() {
        var (machine, actions) := Next(w.switch, now, VideoConfig(mode));
        AcceptInStep(w, mode, machine, actions);
      }
    }
  }

  lemma AcceptInStep(w: Worker, mode: Mode, machine: Machine, actions: seq<Action>)
    requires InStep(w) && w.running
    ensures InStep(AcceptConfig(w, mode, machine, actions))
  {
    hide InStep, ClockOf, Reports;
    var (reports, ends) := Reports(actions);
    ReportsTimeless(actions);
    var told := Say(w.(switch := machine), reports);
    SaidInStep(w, told, reports);
    Rises(told);
    AbortInStep(told);
    var note := if w.switch.phase.Staged? then [Told(Progress(false))] else [];
    var said := if w.switch.phase.Staged? then Say(told, note) else told;
    SaidInStep(told, said, note);
    SaidInStep(said, Say(said.(config := Some(mode)), [ConfigTaken(mode)]), [ConfigTaken(mode)]);
  }

  // ----- Media -----

  lemma ReceiveInStep(w: Worker, c: Mode, p: Picture)
    requires InStep(w) && w.running
    ensures InStep(Receive(w, c, p)) && ClockOf(Receive(w, c, p).log).rising
  {
    ClockPush(w.log, FrameDecoded(p.width, p.height));
    var seen := Say(w, [FrameDecoded(p.width, p.height)]);
    var counted := seen.(decoded := seen.decoded + 1, started := true);
    AbortInStep(seen);
    AbortInStep(counted);
    SaidInStep(counted, Say(counted.(sink := Some(c)), [SinkOpened(c)]), [SinkOpened(c)]);
  }

  lemma ShowInStep(w: Worker, now: nat, c: Mode, p: Picture)
    requires InStep(w) && w.running
    ensures InStep(ShowPicture(w, now, c, p))
  {
    ReceiveInStep(w, c, p);
    var lit := Receive(w, c, p);
    hide Receive, InStep, ClockOf, Next, Reports;
    if lit.running {
      AbortInStep(lit);
      var shown := if p.active && lit.sink.Some? then Submit(lit, now) else lit;
      if p.active && lit.sink.Some? {
        var (machine, actions) := Next(lit.switch, now, OutputReady);
        ReportsTimeless(actions);
        SaidInStep(lit, shown, [Submitted(lit.sink.value)] + Reports(actions).0);
      }
      LitHasSink(w, c, p);
      SaidInStep(shown, Say(shown, [Told(Stats(p.active, shown.submitted, c))]),
        [Told(Stats(p.active, shown.submitted, c))]);
    }
  }

  lemma LitHasSink(w: Worker, c: Mode, p: Picture)
    ensures Receive(w, c, p).running ==> Receive(w, c, p).sink.Some?
  {
  }

  lemma {:induction false} ShowAllInStep(w: Worker, now: nat, c: Mode, pictures: seq<Picture>)
    requires InStep(w) && w.running
    ensures InStep(ShowAll(w, now, c, pictures))
  {
    hide InStep, ClockOf, ShowPicture;
    if pictures != [] {
      ShowAllInStep(w, now, c, pictures[..|pictures| - 1]);
      var before := ShowAll(w, now, c, pictures[..|pictures| - 1]);
      if before.running { ShowInStep(before, now, c, pictures[|pictures| - 1]); }
    }
  }

  lemma FeedInStep(w: Worker, unit: Incoming)
    requires InStep(w) && w.running && unit.AccessUnit? && (w.started ==> unit.pts > w.lastPts)
    ensures InStep(Feed(w, unit))
  {
    ClockPush(w.log, Fed(unit.keyframe, unit.configIncluded, unit.pts));
    hide ClockOf;
  }

  lemma ReadyInStep(w: Worker, unit: Incoming)
    requires InStep(w) && w.running && unit.AccessUnit?
    ensures InStep(Ready(w, unit)) && Ready(w, unit).running && ClockOf(Ready(w, unit).log).rising
    ensures Ready(w, unit).started == w.started && Ready(w, unit).lastPts == w.lastPts
  {
    var acts := (if w.decoder then [] else [DecoderOpened]) + (if unit.discontinuity then [DecoderFlushed] else []);
    assert Ready(w, unit).log == w.log + acts;
    SaidInStep(w, Ready(w, unit), acts);
  }

  lemma UnitInStep(w: Worker, round: Round, unit: Incoming)
    requires InStep(w) && w.running && unit.AccessUnit?
    ensures InStep(HandleUnit(w, round, unit))
  {
    hide InStep, ClockOf, ShowAll, Feed, Ready;
    Rises(w);
    AbortInStep(w);
    if !unit.empty && w.config.Some? && !(!w.started && (!unit.keyframe || !unit.configIncluded))
       && !(w.started && unit.pts <= w.lastPts) && (w.decoder || round.decoderOpens) {
      ReadyInStep(w, unit);
      var ready := Ready(w, unit);
      AbortInStep(ready);
      if round.decoderAccepts {
        FeedInStep(ready, unit);
        FeedRuns(ready, unit);
        ShowAllInStep(Feed(ready, unit), round.handledAt, w.config.value, round.pictures);
        var shown := ShowAll(Feed(ready, unit), round.handledAt, w.config.value, round.pictures);
        Rises(shown);
        AbortInStep(shown);
      }
    }
  }

  lemma FeedRuns(w: Worker, unit: Incoming)
    requires unit.AccessUnit?
    ensures Feed(w, unit).running == w.running
  {
  }

  // ----- Runs -----

  lemma FrameInStep(w: Worker, round: Round, frame: Incoming)
    requires InStep(w) && w.running
    ensures InStep(HandleFrame(w, round, frame))
  {
    hide InStep, ClockOf, Next, Perform, HandleCapabilities, HandleConfig, HandleUnit;
    match frame {
      case Malformed =>
        Rises(w);
        AbortInStep(w);
      case PairingFrame => SaidInStep(w, Say(w, [Told(PairingInfo)]), [Told(PairingInfo)]);
      case CapabilityFrame(_, _, _, _) => CapabilitiesInStep(w, round.handledAt, frame);
      case ConfigFrame(payload) => ConfigInStep(w, round.handledAt, payload);
      case AccessUnit(_, _, _, _, _) => UnitInStep(w, round, frame);
      case ResultAccepted(id, streaming) =>
        QualityInStep(w, round.handledAt, PrepareAccepted(id, streaming), round.sendWorks);
      case ResultRejected(id, reason) => QualityInStep(w, round.handledAt, Rejected(id, reason), round.sendWorks);
      case ResultApplied(id, mode) => QualityInStep(w, round.handledAt, CaptureStarted(id, mode), round.sendWorks);
      case PausedFrame(id, epoch) => QualityInStep(w, round.handledAt, Paused(id, epoch), round.sendWorks);
      case _ =>
    }
  }

  lemma QualityInStep(w: Worker, now: nat, event: Event, sendWorks: bool)
    requires InStep(w) && w.running
    ensures InStep(HandleQuality(w, now, event, sendWorks))
  {
    hide InStep, Next, Perform;
    var (machine, actions) := Next(w.switch, now, event);
    PerformInStep(w, machine, actions, sendWorks);
  }

  lemma IterateInStep(w: Worker, round: Round)
    requires InStep(w)
    ensures InStep(Iterate(w, round))
  {
    hide InStep, ClockOf, TakeCommand, CheckDeadline, HandleFrame;
    if w.running {
      TakeInStep(w, round);
      var taken := TakeCommand(w, round);
      if taken.goesOn {
        GoesOnRunning(w, round);
        DeadlineInStep(taken.worker, round.checkedAt);
        var checked := CheckDeadline(taken.worker, round.checkedAt);
        if checked.running {
          Rises(checked);
          AbortInStep(checked);
          if round.poll.Got? { FrameInStep(checked, round, round.poll.frame); }
        }
      }
    }
  }

  lemma GoesOnRunning(w: Worker, round: Round)
    requires w.running && TakeCommand(w, round).goesOn
    ensures TakeCommand(w, round).worker.running
  {
    hide Next, Refusable;
  }

  lemma BegunInStep()
    ensures InStep(Begun)
  {
    var log := [DecoderOpened, Told(Waiting)];
    ClockKeeps([], log);
    assert [] + log == log;
  }

  /** MAIN RESULT: in every run of the loop, once a picture has been decoded since the
      latest release, each further unit fed to the decoder is strictly later than the
      unit before it. */
  lemma {:induction false} TimesRiseOnceDecoding(rounds: seq<Round>)
    ensures InStep(Play(rounds)) && ClockOf(Play(rounds).log).rising
  {
    hide InStep, ClockOf, Iterate;
    if rounds == [] {
      BegunInStep();
    } else {
      TimesRiseOnceDecoding(rounds[..|rounds| - 1]);
      IterateInStep(Play(rounds[..|rounds| - 1]), rounds[|rounds| - 1]);
    }
    Rises(Play(rounds));
  }

  /** A unit that passes the start test: not empty, for a known configuration, and the
      first one since the release a keyframe with its configuration. */
  predicate Starts(w: Worker, unit: Incoming) {
    && w.running && unit.AccessUnit? && !unit.empty && w.config.Some?
    && (w.started || (unit.keyframe && unit.configIncluded))
  }

  /** For every unit that passes the start test: it is refused before the decoder is
      touched when decoding has begun and it is not later than the unit fed last, and
      when the decoder does not open. It is fed if and only if it is not late in that
      sense, the decoder opens and the decoder takes it; so before the first picture
      nothing is compared, and an earlier time is fed. */
  lemma TimeIsCheckedOnlyOnceDecoding(w: Worker, round: Round, unit: Incoming)
    requires Starts(w, unit)
    ensures var after := HandleUnit(w, round, unit);
            var late, shut := w.started && unit.pts <= w.lastPts, !w.decoder && !round.decoderOpens;
            && (late || shut ==> after == Abort(w))
            && (!late && !shut && round.decoderAccepts <==>
                  exists at :: |w.log| <= at < |after.log| && after.log[at] == FedAs(unit))
  {
    var late, shut := w.started && unit.pts <= w.lastPts, !w.decoder && !round.decoderOpens;
    if late || shut {
      hide ShowAll, Feed, Ready;
    } else if !round.decoderAccepts {
      assert HandleUnit(w, round, unit) == Abort(Ready(w, unit)) by { hide ShowAll, Feed, Ready; }
      ReadyOpens(w, unit);
      hide HandleUnit, Ready;
      assert forall k :: 0 <= k < |Opening(w, unit)| ==> !Opening(w, unit)[k].Fed?;
    } else {
      FedStays(w, round, unit);
      hide HandleUnit;
    }
  }

  function FedAs(unit: Incoming): Act
    requires unit.AccessUnit?
  {
    Fed(unit.keyframe, unit.configIncluded, unit.pts)
  }

  /** What opening and flushing a decoder for the unit adds to the log. */
  function Opening(w: Worker, unit: Incoming): seq<Act>
    requires unit.AccessUnit?
  {
    (if w.decoder then [] else [DecoderOpened]) + (if unit.discontinuity then [DecoderFlushed] else [])
  }

  lemma ReadyOpens(w: Worker, unit: Incoming)
    requires unit.AccessUnit?
    ensures Ready(w, unit).log == w.log + Opening(w, unit)
  {
  }

  lemma FedStays(w: Worker, round: Round, unit: Incoming)
    requires Starts(w, unit) && !(w.started && unit.pts <= w.lastPts) && (w.decoder || round.decoderOpens)
    requires round.decoderAccepts
    ensures var after, at := HandleUnit(w, round, unit), |w.log| + |Opening(w, unit)|;
            at < |after.log| && after.log[at] == FedAs(unit)
  {
    ReadyOpens(w, unit);
    var fed, at := Feed(Ready(w, unit), unit), |w.log| + |Opening(w, unit)|;
    assert fed.log[at] == FedAs(unit);
    ShowAllExtends(fed, round.handledAt, w.config.value, round.pictures);
    var shown := ShowAll(fed, round.handledAt, w.config.value, round.pictures);
    hide ShowAll, Feed, Ready, Opening;
    assert fed.log[at] == shown.log[..|fed.log|][at];
    var after := HandleUnit(w, round, unit);
    assert after == shown || after == Abort(shown);
  }

  predicate Extends(before: seq<Act>, after: seq<Act>) { |before| <= |after| && after[..|before|] == before }

  lemma ShowExtends(w: Worker, now: nat, c: Mode, p: Picture)
    ensures Extends(w.log, ShowPicture(w, now, c, p).log)
  {
    ReceiveExtends(w, c, p);
    hide Receive, Next, Reports;
  }

  lemma ReceiveExtends(w: Worker, c: Mode, p: Picture)
    ensures Extends(w.log, Receive(w, c, p).log)
    ensures Receive(w, c, p).running ==> Receive(w, c, p).sink.Some?
  {
  }

  lemma {:induction false} ShowAllExtends(w: Worker, now: nat, c: Mode, pictures: seq<Picture>)
    ensures Extends(w.log, ShowAll(w, now, c, pictures).log)
  {
    hide ShowPicture;
    if pictures != [] {
      var before := ShowAll(w, now, c, pictures[..|pictures| - 1]);
      ShowAllExtends(w, now, c, pictures[..|pictures| - 1]);
      ShowExtends(before, now, c, pictures[|pictures| - 1]);
    }
  }
}

/** What the worker loop does, pass by pass, when it can move on: the progress half of
    the transaction (host-rs/src/video.rs:323-622, host-rs/src/quality.rs:148-309).

    The theorems about reports and commits say what they imply. These say that they
    are made, and what a parent, a phone and a sink see of every move. */
module WorkerProgress {
  import opened Basics
  import opened QualitySwitch
  import opened ModeResolver
  import opened WorkerLoop
  import WorkerTheorems
  import WorkerTrail

  /** The pass gets as far as polling: no deadline has passed, and a command, if one was
      waiting, finds the phone ready and another request open. */
  predicate Polls(w: Worker, round: Round) {
    && w.running
    && (round.command.Some? ==>
          w.switch.Active() && w.advertised && w.permission == 0
          && exists i :: 0 <= i < |w.offers| && w.offers[i].mode == round.command.value)
    && (w.switch.Busy() && w.switch.deadline.Some? ==> round.checkedAt < w.switch.deadline.value)
  }

  predicate Hears(w: Worker, round: Round, frame: Incoming) { Polls(w, round) && round.poll == Got(frame) }

  lemma PollsOnly(w: Worker, round: Round)
    requires Polls(w, round)
    ensures round.poll.Nothing? ==> Iterate(w, round) == w
    ensures round.poll.PollFailed? ==>
              Iterate(w, round) == w.(running := false, log := w.log + [Told(ErrorNote), Told(StoppedNote)])
    ensures round.poll.Got? ==> Iterate(w, round) == HandleFrame(w, round, round.poll.frame)
  {
    CommandWaits(w, round);
    DeadlineAhead(w, round.checkedAt);
    hide HandleFrame, TakeCommand, CheckDeadline;
  }

  lemma CommandWaits(w: Worker, round: Round)
    requires Polls(w, round)
    ensures TakeCommand(w, round) == Taken(w, true)
  {
  }

  lemma DeadlineAhead(w: Worker, now: nat)
    requires w.switch.Busy() && w.switch.deadline.Some? ==> now < w.switch.deadline.value
    ensures CheckDeadline(w, now) == w
  {
  }

  // ----- Requests -----

  /** A request the phone offers is sent under the next id, five seconds ahead of its
      deadline, whenever no other is open and an id is left. */
  lemma RequestGoesOut(w: Worker, round: Round, mode: Mode)
    requires w.running && w.switch.Settled() && w.switch.nextRequestId < 0xFFFF_FFFF && round.sendWorks
    requires round.command == Some(mode) && mode.width > 0 && mode.height > 0 && mode.fps > 0
    requires w.advertised && w.permission == 0 && exists i :: 0 <= i < |w.offers| && w.offers[i].mode == mode
    requires round.checkedAt < round.takenAt + 5000 && round.poll.Nothing?
    ensures var after, id := Iterate(w, round), w.switch.nextRequestId;
            && after == w.(switch := after.switch, log := w.log + [PrepareSent(id, w.revision, mode)])
            && after.switch == w.switch.(phase := Preparing, requestId := id, nextRequestId := id + 1,
                                         requested := Some(mode), deadline := Some(round.takenAt + 5000))
  {
  }

  /** A request the phone does not offer, or cannot serve now, is refused on the spot. */
  lemma RequestRefused(w: Worker, round: Round, mode: Mode)
    requires w.running && round.command == Some(mode)
    requires !w.advertised || w.permission != 0 || forall i :: 0 <= i < |w.offers| ==> w.offers[i].mode != mode
    ensures Iterate(w, round) == w.(log := w.log + [Told(QualityFailed(false))])
  {
  }

  /** Past its deadline an open request that waits for no human ends the session. */
  lemma ExpiryEnds(w: Worker, round: Round)
    requires w.running && round.command.None? && w.switch.deadline.Some? && round.checkedAt >= w.switch.deadline.value
    requires w.switch.phase.Preparing? || w.switch.phase.Switching? || w.switch.phase.AwaitingOutput?
    ensures Iterate(w, round)
         == w.(switch := w.switch.(phase := Failed, deadline := None), running := false,
               log := w.log + [Told(QualityFailed(true)), Told(ErrorNote), Told(StoppedNote)])
  {
    assert w.log + [Told(QualityFailed(true))] + [Told(ErrorNote), Told(StoppedNote)]
        == w.log + [Told(QualityFailed(true)), Told(ErrorNote), Told(StoppedNote)];
  }

  // ----- Control frames -----

  /** The worker without anything of the old stream. */
  function Emptied(w: Worker): Worker {
    w.(config := None, sink := None, decoder := false, started := false, lastPts := 0, decoded := 0, submitted := 0)
  }

  /** STAGED while preparing: outputs released, the parent told to wait for the phone's
      user, and no deadline until he answers. */
  lemma StagedIsToldAndWaits(w: Worker, round: Round)
    requires Hears(w, round, ResultAccepted(w.switch.requestId, false)) && w.switch.phase.Preparing?
    ensures Iterate(w, round)
         == Emptied(w).(switch := w.switch.(phase := Staged, deadline := None),
                        log := w.log + [OutputsReleased, Told(Waiting), Told(Progress(true))])
  {
    PollsOnly(w, round);
    hide Iterate;
    assert w.log + [] == w.log;
    assert (w.log + [OutputsReleased, Told(Waiting)]) + [Told(Progress(true))]
        == w.log + [OutputsReleased, Told(Waiting), Told(Progress(true))];
  }

  /** SWITCHING while staged: the wait is over and five seconds remain. */
  lemma SwitchingIsToldAndTimed(w: Worker, round: Round)
    requires Hears(w, round, ResultAccepted(w.switch.requestId, true)) && w.switch.phase.Staged?
    ensures Iterate(w, round)
         == w.(switch := w.switch.(phase := Switching, deadline := Some(round.handledAt + 5000)),
               log := w.log + [Told(Progress(false))])
  {
    PollsOnly(w, round);
    hide Iterate;
    assert w.log + [] == w.log;
  }

  /** PAUSED at the known epoch while preparing: everything is dropped and the commit
      names the epoch one past it. */
  lemma PauseIsCommitted(w: Worker, round: Round, epoch: u32)
    requires Hears(w, round, PausedFrame(w.switch.requestId, epoch)) && w.switch.phase.Preparing? && round.sendWorks
    requires epoch < 0xFFFF_FFFF && (w.switch.epoch.None? || w.switch.epoch == Some(epoch))
    ensures Iterate(w, round)
         == Emptied(w).(switch := w.switch.(phase := Switching, epoch := Some(epoch + 1)),
                        log := w.log + [OutputsReleased, Told(Waiting), CommitSent(w.switch.requestId, epoch + 1),
                                        Told(Progress(false))])
  {
    PollsOnly(w, round);
    hide Iterate;
    assert w.log + [] == w.log;
    var commit := CommitSent(w.switch.requestId, epoch + 1);
    assert (w.log + [OutputsReleased, Told(Waiting)] + [commit]) + [Told(Progress(false))]
        == w.log + [OutputsReleased, Told(Waiting), commit, Told(Progress(false))];
  }

  /** The phone's capture runs in the requested mode: for a staged request the wait is
      over; for one already switching nothing changes. */
  lemma CaptureIsTaken(w: Worker, round: Round, mode: Mode)
    requires Hears(w, round, ResultApplied(w.switch.requestId, mode)) && w.switch.requested == Some(mode)
    ensures w.switch.phase.Staged? ==>
              Iterate(w, round)
              == w.(switch := w.switch.(phase := Switching, deadline := Some(round.handledAt + 5000)),
                    log := w.log + [Told(Progress(false))])
    ensures !w.switch.phase.Staged? ==> Iterate(w, round) == w
  {
    PollsOnly(w, round);
    hide Iterate;
    assert w.log + [] == w.log;
  }

  /** The request fails for good: the parent hears a terminal failure and the loop ends. */
  function Ruined(w: Worker): Worker {
    w.(switch := w.switch.(phase := Failed, deadline := None), running := false,
       log := w.log + [Told(QualityFailed(true)), Told(ErrorNote), Told(StoppedNote)])
  }

  /** Past the boundary a refusal ends the session; so do another mode in the capture or
      in the configuration, and an epoch that cannot grow. */
  lemma LateRefusalEnds(w: Worker, round: Round, reason: u8)
    requires Hears(w, round, ResultRejected(w.switch.requestId, reason))
    requires w.switch.phase.Switching? || w.switch.phase.AwaitingOutput?
    ensures Iterate(w, round) == Ruined(w)
  {
    PollsOnly(w, round);
    hide Iterate;
    RuinedIs(w);
  }

  lemma CaptureMismatchEnds(w: Worker, round: Round, mode: Mode)
    requires Hears(w, round, ResultApplied(w.switch.requestId, mode)) && w.switch.requested != Some(mode)
    requires w.switch.phase.Staged? || w.switch.phase.Switching? || w.switch.phase.AwaitingOutput?
    ensures Iterate(w, round) == Ruined(w)
  {
    PollsOnly(w, round);
    hide Iterate;
    RuinedIs(w);
  }

  lemma RuinedIs(w: Worker)
    ensures var failed := w.(switch := w.switch.(phase := Failed, deadline := None));
            Abort(Say(failed, [Told(QualityFailed(true))])) == Ruined(w)
  {
    assert w.log + [Told(QualityFailed(true))] + [Told(ErrorNote), Told(StoppedNote)]
        == w.log + [Told(QualityFailed(true)), Told(ErrorNote), Told(StoppedNote)];
  }

  lemma EpochOverflowEnds(w: Worker, round: Round)
    requires Hears(w, round, PausedFrame(w.switch.requestId, 0xFFFF_FFFF)) && w.switch.phase.Preparing?
    requires w.switch.epoch.None? || w.switch.epoch == Some(0xFFFF_FFFF)
    ensures Iterate(w, round) == Ruined(w)
  {
    PollsOnly(w, round);
    hide Iterate;
    RuinedIs(w);
  }

  /** An answer to another request, or one the open request does not wait for, is
      nothing to anyone. */
  lemma StrayAnswersAreIgnored(w: Worker, round: Round, id: u32, streaming: bool, reason: u8)
    ensures Hears(w, round, ResultAccepted(id, streaming))
            && (id != w.switch.requestId
                || !(if streaming then w.switch.phase.Staged? else w.switch.phase.Preparing?)) ==>
              Iterate(w, round) == w
    ensures Hears(w, round, ResultRejected(id, reason)) && (id != w.switch.requestId || w.switch.Settled()) ==>
              Iterate(w, round) == w
    ensures Hears(w, round, OtherFrame) || Hears(w, round, UnknownCapabilities) ==> Iterate(w, round) == w
  {
    if Polls(w, round) {
      PollsOnly(w, round);
      hide Iterate, HandleUnit, HandleConfig, HandleCapabilities, Perform;
      NothingPerformed(w, round.sendWorks);
    }
  }

  lemma NothingPerformed(w: Worker, sendWorks: bool)
    ensures Perform(w, w.switch, [], sendWorks) == w
  {
    assert w.log + [] == w.log;
  }

  lemma StrayCapturesAreIgnored(w: Worker, round: Round, id: u32, mode: Mode, epoch: u32)
    ensures Hears(w, round, ResultApplied(id, mode))
            && (id != w.switch.requestId || w.switch.Settled() || w.switch.phase.Preparing?) ==>
              Iterate(w, round) == w
    ensures Hears(w, round, PausedFrame(id, epoch))
            && (id != w.switch.requestId || !w.switch.phase.Preparing?
                || (w.switch.epoch.Some? && w.switch.epoch.value != epoch)) ==>
              Iterate(w, round) == w
  {
    if Polls(w, round) {
      PollsOnly(w, round);
      hide Iterate, HandleUnit, HandleConfig, HandleCapabilities, Perform;
      NothingPerformed(w, round.sendWorks);
    }
  }

  // ----- Capabilities and configurations -----

  /** An advertisement: permission, revision and usable modes are taken over and told,
      and its epoch is taken over exactly while no request is open. */
  lemma AdvertisementIsTaken(w: Worker, round: Round, permission: u8, revision: u16, epoch: u32, offers: seq<Offer>)
    requires Hears(w, round, CapabilityFrame(permission, revision, epoch, offers))
    ensures var after := Iterate(w, round);
            && (forall o :: o in after.offers <==> o in offers && Usable(o))
            && after == w.(advertised := true, permission := permission, revision := revision, offers := after.offers,
                           switch := if w.switch.Settled() then w.switch.(epoch := Some(epoch)) else w.switch,
                           log := w.log + [Told(Capabilities(permission, after.offers))])
  {
    PollsOnly(w, round);
    hide Iterate, UsableOnly;
  }

  /** A configuration of the requested mode while video is awaited starts the wait for
      output, with five seconds left if a human had been asked. */
  lemma ConfigurationIsTaken(w: Worker, round: Round, payload: seq<u8>, mode: Mode)
    requires Hears(w, round, ConfigFrame(payload)) && Carries(payload, mode)
    requires w.switch.phase.Switching? || w.switch.phase.Staged? || w.switch.phase.AwaitingOutput?
    requires w.switch.requested == Some(mode)
    ensures Iterate(w, round)
         == w.(switch := w.switch.(phase := AwaitingOutput,
                                   deadline := if w.switch.phase.Staged? then Some(round.handledAt + 5000)
                                               else w.switch.deadline),
               config := Some(mode),
               log := w.log + (if w.switch.phase.Staged? then [Told(Progress(false))] else []) + [ConfigTaken(mode)])
  {
    PollsOnly(w, round);
    Parses(payload, mode);
    hide Iterate, ParseConfig, Carries;
    assert w.log + [] == w.log;
  }

  /** A VIDEO_CONFIG payload that carries a mode: sixteen bytes, little-endian sizes and
      rate, codec and format one, and sizes within the decoder's limits. */
  predicate Carries(payload: seq<u8>, mode: Mode) {
    && |payload| == 16 && payload[12] == 1 && payload[13] == 1
    && mode.width as int == payload[0] as int + 256 * payload[1] as int
    && mode.height as int == payload[2] as int + 256 * payload[3] as int
    && mode.fps as int == payload[4] as int + 256 * payload[5] as int
    && 1 <= mode.width <= 8192 && 1 <= mode.height <= 8192 && mode.fps >= 1
    && mode.width as int * mode.height as int <= 33_554_432
  }

  lemma Parses(payload: seq<u8>, mode: Mode)
    ensures Carries(payload, mode) <==> ParseConfig(payload) == Some(mode)
  {
  }

  /** A configuration of another mode then ends the session. */
  lemma WrongConfigurationEnds(w: Worker, round: Round, payload: seq<u8>, mode: Mode)
    requires Hears(w, round, ConfigFrame(payload)) && Carries(payload, mode)
    requires w.switch.phase.Switching? || w.switch.phase.Staged? || w.switch.phase.AwaitingOutput?
    requires w.switch.requested != Some(mode)
    ensures Iterate(w, round) == Ruined(w)
  {
    PollsOnly(w, round);
    Parses(payload, mode);
    hide Iterate, ParseConfig, Carries;
    RuinedIs(w);
  }

  /** Outside a switch the first configuration is taken, a repeated one changes nothing
      but the record of it, and a changed or malformed one ends the loop. */
  lemma ConfigurationOutsideASwitch(w: Worker, round: Round, payload: seq<u8>, mode: Mode)
    requires Hears(w, round, ConfigFrame(payload)) && Carries(payload, mode)
    requires !(w.switch.phase.Switching? || w.switch.phase.Staged? || w.switch.phase.AwaitingOutput?)
    ensures w.config.None? || w.config == Some(mode) ==>
              Iterate(w, round) == w.(config := Some(mode), log := w.log + [ConfigTaken(mode)])
    ensures w.config.Some? && w.config != Some(mode) ==>
              Iterate(w, round) == w.(running := false, log := w.log + [Told(ErrorNote), Told(StoppedNote)])
  {
    PollsOnly(w, round);
    Parses(payload, mode);
    hide Iterate, ParseConfig, Carries;
  }

  lemma MalformedEnds(w: Worker, round: Round, payload: seq<u8>)
    requires Hears(w, round, Malformed)
             || (Hears(w, round, ConfigFrame(payload)) && forall mode :: !Carries(payload, mode))
    ensures Iterate(w, round) == w.(running := false, log := w.log + [Told(ErrorNote), Told(StoppedNote)])
  {
    PollsOnly(w, round);
    if round.poll.frame.ConfigFrame? && ParseConfig(payload).Some? {
      Parses(payload, ParseConfig(payload).value);
    }
    hide Iterate, ParseConfig, Carries;
  }

  // ----- Pictures -----

  /** Nothing on the output side stands in the way of this picture. */
  predicate Shows(p: Picture, c: Mode) {
    && p.width == c.width && p.height == c.height && c.width % 2 == 0
    && p.sinkOpens && p.readyAnswers && (p.active || p.previewDue ==> p.converts) && (p.active ==> p.submits)
  }

  /** One such picture: it is counted, opens the sink if none is, is handed to an active
      one, and only then lets a request that awaits output succeed. */
  lemma PictureIsShown(w: Worker, now: nat, c: Mode, p: Picture)
    requires w.running && Shows(p, c)
    ensures var after, sink := ShowPicture(w, now, c, p), if w.sink.Some? then w.sink.value else c;
            var succeeds := p.active && w.switch.phase.AwaitingOutput? && w.switch.requested.Some?;
            && after == w.(started := true, decoded := w.decoded + 1, sink := Some(sink),
                           submitted := w.submitted + (if p.active then 1 else 0),
                           switch := if succeeds then Succeeded(w.switch) else w.switch, log := after.log)
            && after.log == w.log + [FrameDecoded(c.width, c.height)]
                            + (if w.sink.None? then [SinkOpened(c)] else [])
                            + (if p.active then [Submitted(sink)] else [])
                            + (if succeeds then [Told(QualityApplied(w.switch.requested.value))] else [])
                            + (if p.statsDue then [Told(Stats(p.active, after.submitted, c))] else [])
  {
    var lit := Received(w, c);
    ReceivedIs(w, c, p);
    SubmittedIs(lit, now);
    hide Receive, Submit;
    if p.active {
      var parts := [Submitted(lit.sink.value)]
                   + (if w.switch.phase.AwaitingOutput? && w.switch.requested.Some?
                      then [Told(QualityApplied(w.switch.requested.value))] else []);
      assert Submit(lit, now).log == lit.log + parts;
      assert lit.log + parts == lit.log + [parts[0]] + parts[1..];
    } else {
      assert lit.log + [] + [] == lit.log;
    }
  }

  /** The worker once such a picture has been counted and its sink is open. */
  function Received(w: Worker, c: Mode): (lit: Worker)
    ensures lit.sink.Some?
  {
    w.(started := true, decoded := w.decoded + 1, sink := if w.sink.Some? then w.sink else Some(c),
       log := w.log + [FrameDecoded(c.width, c.height)] + (if w.sink.None? then [SinkOpened(c)] else []))
  }

  lemma ReceivedIs(w: Worker, c: Mode, p: Picture)
    requires w.running && Shows(p, c)
    ensures Receive(w, c, p) == Received(w, c)
  {
    assert w.log + [FrameDecoded(c.width, c.height)] + [] == w.log + [FrameDecoded(c.width, c.height)];
  }

  lemma SubmittedIs(w: Worker, now: nat)
    requires w.sink.Some?
    ensures var succeeds := w.switch.phase.AwaitingOutput? && w.switch.requested.Some?;
            Submit(w, now)
            == w.(switch := if succeeds then Succeeded(w.switch) else w.switch, submitted := w.submitted + 1,
                  log := w.log + ([Submitted(w.sink.value)]
                                  + if succeeds then [Told(QualityApplied(w.switch.requested.value))] else []))
  {
  }

  /** The machine after success. */
  function Succeeded(m: Machine): Machine { m.(phase := Applied, applied := m.requested, deadline := None) }

  /** A picture of another size, or of an odd width, ends the loop before it is shown. */
  lemma WrongPictureEnds(w: Worker, now: nat, c: Mode, p: Picture)
    requires w.running && (p.width != c.width || p.height != c.height || c.width % 2 != 0)
    ensures ShowPicture(w, now, c, p)
         == w.(running := false, log := w.log + [FrameDecoded(p.width, p.height), Told(ErrorNote), Told(StoppedNote)])
  {
    assert w.log + [FrameDecoded(p.width, p.height)] + [Told(ErrorNote), Told(StoppedNote)]
        == w.log + [FrameDecoded(p.width, p.height), Told(ErrorNote), Told(StoppedNote)];
  }

  ghost predicate Extends(before: seq<Act>, after: seq<Act>) { |before| <= |after| && after[..|before|] == before }

  /** `after` has reported the mode as applied since `before`, and stands by it. */
  ghost predicate Reported(before: Worker, after: Worker, mode: Mode) {
    && Extends(before.log, after.log)
    && (exists i :: |before.log| <= i < |after.log| && after.log[i] == Told(QualityApplied(mode)))
    && after.switch == before.switch.(phase := Applied, applied := Some(mode), deadline := None)
  }

  lemma ReportedLater(before: Worker, mid: Worker, after: Worker, mode: Mode)
    requires Reported(before, mid, mode) && Extends(mid.log, after.log) && after.switch == mid.switch
    ensures Reported(before, after, mode)
  {
    var i :| |before.log| <= i < |mid.log| && mid.log[i] == Told(QualityApplied(mode));
    assert after.log[i] == after.log[..|mid.log|][i];
    assert after.log[..|before.log|] == after.log[..|mid.log|][..|before.log|];
  }

  /** Whatever the picture, the log grows; a settled machine stays as it is. */
  lemma PictureExtends(w: Worker, now: nat, c: Mode, p: Picture)
    ensures Extends(w.log, ShowPicture(w, now, c, p).log)
    ensures w.switch.phase.Applied? ==> ShowPicture(w, now, c, p).switch == w.switch
  {
    ReceiveExtends(w, c, p);
    hide Receive, Reports;
  }

  lemma ReceiveExtends(w: Worker, c: Mode, p: Picture)
    ensures var lit := Receive(w, c, p);
            Extends(w.log, lit.log) && lit.switch == w.switch && (lit.running ==> lit.sink.Some?)
  {
  }

  /** Up to picture `k` nothing stands in the way, and it finds its sink active. */
  ghost predicate Reaches(pictures: seq<Picture>, c: Mode, k: nat) {
    k < |pictures| && pictures[k].active && forall j :: 0 <= j <= k ==> Shows(pictures[j], c)
  }

  /** Before that the loop runs on, and the machine waits or has succeeded. */
  lemma {:induction false} ShownSoFar(w: Worker, now: nat, mode: Mode, pictures: seq<Picture>)
    requires w.running && w.switch.phase.AwaitingOutput? && w.switch.requested == Some(mode)
    requires forall j :: 0 <= j < |pictures| ==> Shows(pictures[j], mode)
    ensures var after := ShowAll(w, now, mode, pictures);
            after.running && Extends(w.log, after.log) && (after.switch == w.switch || Reported(w, after, mode))
  {
    hide ShowPicture, Shows, Reported;
    if pictures != [] {
      var before, last := ShowAll(w, now, mode, pictures[..|pictures| - 1]), pictures[|pictures| - 1];
      ShownSoFar(w, now, mode, pictures[..|pictures| - 1]);
      OneMoreShown(w, before, now, mode, last);
    }
  }

  lemma OneMoreShown(w: Worker, before: Worker, now: nat, mode: Mode, p: Picture)
    requires w.switch.phase.AwaitingOutput? && w.switch.requested == Some(mode) && Shows(p, mode)
    requires before.running && Extends(w.log, before.log)
    requires before.switch == w.switch || Reported(w, before, mode)
    ensures var after := ShowPicture(before, now, mode, p);
            && after.running && Extends(w.log, after.log) && (after.switch == w.switch || Reported(w, after, mode))
            && (p.active ==> Reported(w, after, mode))
  {
    var after := ShowPicture(before, now, mode, p);
    PictureIsShown(before, now, mode, p);
    PictureExtends(before, now, mode, p);
    assert after.log[..|w.log|] == after.log[..|before.log|][..|w.log|];
    if before.switch != w.switch {
      ReportedLater(w, before, after, mode);
    } else if p.active {
      var at := |before.log| + 1 + (if before.sink.None? then 1 else 0) + 1;
      assert after.log[at] == Told(QualityApplied(mode));
    }
    hide ShowPicture, Shows;
  }

  lemma {:induction false} PictureSucceeds(w: Worker, now: nat, mode: Mode, pictures: seq<Picture>, k: nat)
    requires w.running && w.switch.phase.AwaitingOutput? && w.switch.requested == Some(mode)
    requires Reaches(pictures, mode, k)
    ensures Reported(w, ShowAll(w, now, mode, pictures), mode)
  {
    hide ShowPicture, Shows, Reported;
    var front, last := pictures[..|pictures| - 1], pictures[|pictures| - 1];
    var before := ShowAll(w, now, mode, front);
    if k == |front| {
      ShownSoFar(w, now, mode, front);
      OneMoreShown(w, before, now, mode, last);
    } else {
      PictureSucceeds(w, now, mode, front, k);
      PictureExtends(before, now, mode, last);
      if before.running {
        assert before.switch.phase.Applied? by { ReportedIsApplied(w, before, mode); }
        ReportedLater(w, before, ShowPicture(before, now, mode, last), mode);
      }
    }
  }

  lemma ReportedIsApplied(w: Worker, after: Worker, mode: Mode)
    requires Reported(w, after, mode)
    ensures after.switch.phase.Applied?
  {
  }

  // ----- Success -----

  /** The unit reaches the decoder. */
  predicate Decodes(w: Worker, round: Round, unit: Incoming)
    requires unit.AccessUnit?
  {
    && !unit.empty && (w.started || (unit.keyframe && unit.configIncluded)) && (w.started ==> unit.pts > w.lastPts)
    && (w.decoder || round.decoderOpens) && round.decoderAccepts
  }

  /** MAIN RESULT, the converse of what a report means: in every run, a request that
      awaits output succeeds in the pass that hands a picture of the requested size to an
      active sink. The report is made, the request is applied and no deadline runs on. */
  lemma AppliedIsReported(rounds: seq<Round>, round: Round, unit: Incoming, mode: Mode, k: nat)
    requires var w := Play(rounds);
             && unit.AccessUnit? && Hears(w, round, unit) && Decodes(w, round, unit)
             && w.switch.phase.AwaitingOutput? && w.switch.requested == Some(mode)
             && Reaches(round.pictures, mode, k)
    ensures var w, after := Play(rounds), Iterate(Play(rounds), round);
            && |w.log| <= |after.log| && after.log[..|w.log|] == w.log
            && (exists i :: |w.log| <= i < |after.log| && after.log[i] == Told(QualityApplied(mode)))
            && after.switch.phase.Applied? && after.switch.applied == Some(mode) && after.switch.deadline.None?
  {
    var w := Play(rounds);
    WorkerTheorems.RunsKeep(rounds);
    AwaitedConfig(w, mode);
    PollsOnly(w, round);
    hide Play, Iterate, WorkerTrail.Aligned;
    UnitSucceeds(w, round, unit, mode, k);
  }

  lemma AwaitedConfig(w: Worker, mode: Mode)
    requires WorkerTrail.Aligned(w) && w.running && w.switch.phase.AwaitingOutput? && w.switch.requested == Some(mode)
    ensures w.config == Some(mode)
  {
  }

  lemma UnitSucceeds(w: Worker, round: Round, unit: Incoming, mode: Mode, k: nat)
    requires w.running && unit.AccessUnit? && Decodes(w, round, unit) && w.config == Some(mode)
    requires w.switch.phase.AwaitingOutput? && w.switch.requested == Some(mode) && Reaches(round.pictures, mode, k)
    ensures Reported(w, HandleUnit(w, round, unit), mode)
  {
    var fed := Feed(Ready(w, unit), unit);
    assert fed.running && fed.switch == w.switch && Extends(w.log, fed.log);
    hide Feed, Ready;
    PictureSucceeds(fed, round.handledAt, mode, round.pictures, k);
    var shown := ShowAll(fed, round.handledAt, mode, round.pictures);
    ReportedFrom(w, fed, shown, mode);
    ReportedLater(w, shown, Abort(shown), mode);
    hide ShowAll, Reported, Abort;
  }

  lemma ReportedFrom(w: Worker, fed: Worker, after: Worker, mode: Mode)
    requires Extends(w.log, fed.log) && fed.switch == w.switch && Reported(fed, after, mode)
    ensures Reported(w, after, mode)
  {
    assert after.log[..|w.log|] == after.log[..|fed.log|][..|w.log|];
  }

  // ----- The end -----

  /** A stop from the parent: an open request fails first, without a terminal flag. */
  lemma StopSays(w: Worker, now: nat)
    requires w.running
    ensures w.switch.Settled() ==> Finish(w, now) == w.(running := false, log := w.log + [Told(StoppedNote)])
    ensures w.switch.Active() ==>
              Finish(w, now) == w.(switch := w.switch.(phase := Failed, deadline := None), running := false,
                                   log := w.log + [Told(QualityFailed(false)), Told(StoppedNote)])
  {
    assert [Told(QualityFailed(false))] + [Told(StoppedNote)] == [Told(QualityFailed(false)), Told(StoppedNote)];
    assert [] + [Told(StoppedNote)] == [Told(StoppedNote)];
  }
}

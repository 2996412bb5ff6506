/** Every run of the worker loop earns its QualityApplied reports. */
module WorkerTheorems {
  import opened Basics
  import opened QualitySwitch
  import opened WorkerLoop
  import opened WorkerTrail

  // ----- The landmarks agree with the loop's variables -----

  lemma TakingAligns(w: Worker, round: Round)
    requires Aligned(w) && w.running
    ensures Aligned(TakeCommand(w, round).worker)
    ensures TakeCommand(w, round).goesOn ==> TakeCommand(w, round).worker.running
  {
    if round.command.None? {
    } else if Refusable(w, round.command.value) {
      SayingKeeps(w, [Told(QualityFailed(false))]);
    } else {
      var (machine, actions) := Next(w.switch, round.takenAt, Prepare(w.revision, round.command.value));
      PrepareShape(w.switch, round.takenAt, w.revision, round.command.value);
      hide Next, Since;
      if actions != [] {
        RequestingAligns(w, machine, PrepareSent(actions[0].requestId, actions[0].revision, actions[0].mode));
      } else {
        SameSwitchAligns(w);
      }
    }
  }

  lemma PrepareShape(m: Machine, now: nat, revision: u16, mode: Mode)
    ensures var (machine, actions) := Next(m, now, Prepare(revision, mode));
            if actions == [] then machine == m
            else |actions| == 1 && actions[0].SendPrepareQuality? && actions[0].mode == mode
                 && machine.requested == Some(mode) && machine.phase.Preparing?
  {
  }

  lemma SameSwitchAligns(w: Worker)
    requires Aligned(w)
    ensures Aligned(w.(switch := w.switch))
  {
    hide Since;
  }

  /** A new request: the landmarks of the latest release stay where they are. */
  lemma RequestingAligns(w: Worker, machine: Machine, act: Act)
    requires Aligned(w) && w.running && act.PrepareSent? && machine.requested == Some(act.mode)
        && machine.phase.Preparing?
    ensures Aligned(Say(w.(switch := machine), [act]))
  {
    TrailPush(w.log, act);
    hide TrailOf;
  }

  lemma DeadlineAligns(w: Worker, now: nat)
    requires Aligned(w) && w.running
    ensures Aligned(CheckDeadline(w, now))
  {
  }

  /** What a control event may do to the machine, in the terms of the log. */
  ghost predicate Controlled(m: Machine, machine: Machine, actions: seq<Action>) {
    var (reports, ends) := Reports(actions);
    && (reports == [] || reports == [Told(QualityFailed(ends))])
    && machine.requested == m.requested
    && (ReleaseOutputs in actions ==> m.phase.Preparing? && !ends && reports == [])
    && (ReleaseOutputs in actions ==> machine.phase.Staged? || machine.phase.Switching?)
    && (ReleaseOutputs !in actions && !ends ==>
         machine.Settled() || machine.phase == m.phase || (m.phase.Staged? && machine.phase.Switching?))
    && (|actions| > 1 && actions[1].SendCommitQuality? ==> ReleaseOutputs in actions)
  }

  lemma QualityActions(m: Machine, now: nat, event: Event)
    requires event.PrepareAccepted? || event.Rejected? || event.CaptureStarted? || event.Paused?
    ensures Controlled(m, Next(m, now, event).0, Next(m, now, event).1)
  {
  }

  lemma SayingAligns(w: Worker, acts: seq<Act>)
    requires Aligned(w) && w.running
    requires forall k :: 0 <= k < |acts| ==> Neutral(acts[k])
    ensures Aligned(Say(w, acts))
  {
    SayingKeeps(w, acts);
  }

  lemma ReleasingAligns(w: Worker, machine: Machine)
    requires Aligned(w) && w.running && w.switch.phase.Preparing?
    requires machine.phase.Staged? || machine.phase.Switching?
    requires machine.requested == w.switch.requested
    ensures Aligned(ReleaseAll(w.(switch := machine)))
  {
    var torn := w.(switch := machine, config := None, sink := None, decoder := false, started := false,
                   lastPts := 0, decoded := 0, submitted := 0, log := w.log + [OutputsReleased]);
    TrailPush(w.log, OutputsReleased);
    assert Aligned(torn);
    SayingAligns(torn, [Told(Waiting)]);
    assert ReleaseAll(w.(switch := machine)).log == torn.log + [Told(Waiting)];
    assert ReleaseAll(w.(switch := machine)) == Say(torn, [Told(Waiting)]);
  }

  lemma MovingAligns(w: Worker, machine: Machine, submitted: nat)
    requires Aligned(w) && w.running && machine.requested == w.switch.requested
    requires machine.Settled() || machine.phase == w.switch.phase
        || (w.switch.phase.Staged? && machine.phase.Switching?)
    ensures Aligned(w.(switch := machine, submitted := submitted))
  {
  }

  /** The acts that follow the machine's move and, if it released, the teardown. */
  function Aftermath(w: Worker, machine: Machine, actions: seq<Action>, sendWorks: bool): (acts: seq<Act>)
    ensures forall k :: 0 <= k < |acts| ==> Neutral(acts[k])
  {
    var boundary := ReleaseOutputs in actions;
    var commits := |actions| > 1 && actions[1].SendCommitQuality?;
    (if boundary then [] else Reports(actions).0)
    + (if commits then [CommitSent(actions[1].requestId, actions[1].epoch)] else [])
    + (if commits && !sendWorks then []
       else if boundary || machine.phase.Staged? != w.switch.phase.Staged? then [Told(Progress(machine.phase.Staged?))]
       else [])
  }

  lemma PerformShape(w: Worker, machine: Machine, actions: seq<Action>, sendWorks: bool)
    requires Controlled(w.switch, machine, actions) && !Reports(actions).1
    ensures var moved := w.(switch := machine);
            var base := if ReleaseOutputs in actions then ReleaseAll(moved) else moved;
            var done := Perform(w, machine, actions, sendWorks);
            done.running ==> done == Say(base, Aftermath(w, machine, actions, sendWorks))
  {
    var moved := w.(switch := machine);
    var base := if ReleaseOutputs in actions then ReleaseAll(moved) else moved;
    var done := Perform(w, machine, actions, sendWorks);
    assert moved.log + [] == moved.log;
    if done.running {
      var acts := Aftermath(w, machine, actions, sendWorks);
      if ReleaseOutputs in actions {
        assert done.log == base.log + acts;
      } else {
        assert done.log == base.log + acts;
      }
    }
  }

  lemma PerformingAligns(w: Worker, machine: Machine, actions: seq<Action>, sendWorks: bool)
    requires Aligned(w) && w.running
    requires Controlled(w.switch, machine, actions)
    ensures Aligned(Perform(w, machine, actions, sendWorks))
  {
    if !Reports(actions).1 && Perform(w, machine, actions, sendWorks).running {
      PerformShape(w, machine, actions, sendWorks);
      if ReleaseOutputs in actions {
        ReleasingAligns(w, machine);
        SayingAligns(ReleaseAll(w.(switch := machine)), Aftermath(w, machine, actions, sendWorks));
      } else {
        MovingAligns(w, machine, w.submitted);
        SayingAligns(w.(switch := machine), Aftermath(w, machine, actions, sendWorks));
      }
    }
  }

  lemma CapabilitiesAlign(w: Worker, now: nat, frame: Incoming)
    requires Aligned(w) && w.running && frame.CapabilityFrame?
    ensures Aligned(HandleCapabilities(w, now, frame))
  {
    var offers := UsableOnly(frame.offers);
    var moved := w.(switch := Next(w.switch, now, EpochObserved(frame.epoch)).0,
                    advertised := true, permission := frame.permission, revision := frame.revision, offers := offers);
    SayingKeeps(moved, [Told(Capabilities(frame.permission, offers))]);
  }

  lemma ConfigTakenAligns(w: Worker, machine: Machine, mode: Mode)
    requires Aligned(w) && w.running && w.switch.AwaitingVideo()
    requires machine.phase.AwaitingOutput? && machine.requested == Some(mode) == w.switch.requested
    ensures Aligned(Say(w.(switch := machine, config := Some(mode)), [ConfigTaken(mode)]))
  {
    TrailPush(w.log, ConfigTaken(mode));
    if TrailOf(w.log).c < 0 { NoConfigYet(w.log); }
    hide TrailOf;
  }

  lemma AcceptingAligns(w: Worker, mode: Mode, machine: Machine, actions: seq<Action>)
    requires Aligned(w) && w.running && w.switch.AwaitingVideo()
    requires actions == [] ==> machine.phase.AwaitingOutput? && machine.requested == Some(mode) == w.switch.requested
    requires actions != [] ==> Reports(actions).1
    ensures Aligned(AcceptConfig(w, mode, machine, actions))
  {
    if actions == [] {
      var progress := if w.switch.phase.Staged? then [Told(Progress(false))] else [];
      SayingKeeps(w, progress);
      ConfigTakenAligns(Say(w, progress), machine, mode);
      assert w.log + [] == w.log;
    }
  }

  lemma ConfigAnswers(m: Machine, now: nat, mode: Mode)
    requires m.AwaitingVideo()
    ensures var (machine, actions) := Next(m, now, VideoConfig(mode));
            && (actions == [] ==> machine.phase.AwaitingOutput? && machine.requested == Some(mode) == m.requested)
            && (actions != [] ==> Reports(actions).1)
  {
  }

  lemma ConfigAligns(w: Worker, now: nat, payload: seq<u8>)
    requires Aligned(w) && w.running
    ensures Aligned(HandleConfig(w, now, payload))
  {
    var parsed := ParseConfig(payload);
    if parsed.Some? {
      var mode := parsed.value;
      if w.switch.AwaitingVideo() {
        var (machine, actions) := Next(w.switch, now, VideoConfig(mode));
        ConfigAnswers(w.switch, now, mode);
        AcceptingAligns(w, mode, machine, actions);
      } else {
        TrailPush(w.log, ConfigTaken(mode));
      }
    }
  }

  // ----- Media -----

  lemma OpeningAligns(w: Worker)
    requires Aligned(w) && w.running && w.config.Some? && !w.decoder
    ensures Aligned(Say(w.(decoder := true), [DecoderOpened]))
  {
    TrailPush(w.log, DecoderOpened);
  }

  lemma FeedingAligns(w: Worker, unit: Incoming)
    requires unit.AccessUnit?
    requires Aligned(w) && w.running && w.config.Some? && w.decoder
    requires w.started || (unit.keyframe && unit.configIncluded)
    ensures var fed := Say(w.(lastPts := unit.pts), [Fed(unit.keyframe, unit.configIncluded, unit.pts)]);
            Aligned(fed) && TrailOf(fed.log).f >= 0
  {
    TrailPush(w.log, Fed(unit.keyframe, unit.configIncluded, unit.pts));
  }

  /** A running loop whose decoder has been fed since the latest release. */
  ghost predicate Decoding(w: Worker, c: Mode) {
    Aligned(w) && w.running && w.decoder && w.config == Some(c) && TrailOf(w.log).f >= 0
  }

  lemma CountingAligns(w: Worker, c: Mode, p: Picture)
    requires Decoding(w, c)
    ensures var counted := Say(w, [FrameDecoded(p.width, p.height)]).(decoded := w.decoded + 1, started := true);
            Decoding(counted, c) && TrailOf(counted.log).d == |w.log| && TrailOf(counted.log).f == TrailOf(w.log).f
  {
    TrailPush(w.log, FrameDecoded(p.width, p.height));
  }

  lemma SinkingAligns(w: Worker, c: Mode)
    requires Decoding(w, c) && w.sink.None?
    ensures var lit := Say(w.(sink := Some(c)), [SinkOpened(c)]);
            Decoding(lit, c) && TrailOf(lit.log).d == TrailOf(w.log).d && TrailOf(lit.log).f == TrailOf(w.log).f
  {
    TrailPush(w.log, SinkOpened(c));
    if w.switch.phase.AwaitingOutput? { NoSinkYet(w.log); }
  }

  function Count(w: Worker, p: Picture): Worker {
    Say(w, [FrameDecoded(p.width, p.height)]).(decoded := w.decoded + 1, started := true)
  }

  lemma ReceiveShape(w: Worker, c: Mode, p: Picture)
    requires w.running
    ensures var lit := Receive(w, c, p); var counted := Count(w, p);
            lit.running ==>
              && p.width == c.width && p.height == c.height
              && lit == if w.sink.Some? then counted else Say(counted.(sink := Some(c)), [SinkOpened(c)])
  {
  }

  lemma ReceivingAligns(w: Worker, c: Mode, p: Picture)
    requires Decoding(w, c)
    ensures var lit := Receive(w, c, p);
            lit.running ==>
              && Decoding(lit, c) && lit.sink.Some? && lit.switch == w.switch
              && p.width == c.width && p.height == c.height
              && TrailOf(lit.log).d == |w.log| && TrailOf(lit.log).f == TrailOf(w.log).f
  {
    hide Since, Receive, TrailOf;
    CountingAligns(w, c, p);
    ReceiveShape(w, c, p);
    if w.sink.None? { SinkingAligns(Count(w, p), c); }
  }

  lemma OutputReadyAnswers(m: Machine, now: nat)
    ensures var (machine, actions) := Next(m, now, OutputReady);
            && (actions == [] ==> machine == m)
            && machine.requested == m.requested
            && (actions != [] ==> m.phase.AwaitingOutput? && m.requested.Some? && machine.Settled())
            && (actions != [] ==> actions == [ReportApplied(m.requested.value)])
  {
  }

  lemma SubmittingAligns(w: Worker, now: nat, c: Mode, machine: Machine, actions: seq<Action>)
    requires Decoding(w, c) && w.sink.Some?
    requires (machine, actions) == Next(w.switch, now, OutputReady)
    ensures Decoding(Submit(w, now), c)
  {
    hide Since, Next;
    OutputReadyAnswers(w.switch, now);
    MovingAligns(w, machine, w.submitted + 1);
    var acts := [Submitted(w.sink.value)] + Reports(actions).0;
    assert forall k :: 0 <= k < |acts| ==> Neutral(acts[k]);
    SayingAligns(w.(switch := machine, submitted := w.submitted + 1), acts);
    TrailKeeps(w.log, acts);
  }

  lemma AllEarnedPush(log: seq<Act>, mode: Mode)
    requires AllEarned(log) && Earned(log + [Told(QualityApplied(mode))], |log|, mode)
    ensures AllEarned(log + [Told(QualityApplied(mode))])
  {
    hide Earned;
    var after := log + [Told(QualityApplied(mode))];
    forall i: nat | i < |after| && after[i].Told? && after[i].note.QualityApplied?
      ensures Earned(after, i, after[i].note.mode)
    {
      if i < |log| { EarnedLater(log, after, i, after[i].note.mode); }
    }
  }

  /** The moment of truth: everything an applied report needs is in the log. */
  lemma SubmittingEarns(w: Worker, now: nat, c: Mode)
    requires Decoding(w, c) && w.sink.Some? && AllEarned(w.log)
    requires var d := TrailOf(w.log).d; d >= 0 && TrailOf(w.log).f < d && w.log[d] == FrameDecoded(c.width, c.height)
    ensures AllEarned(Submit(w, now).log)
  {
    hide AllEarned, Earned, Next;
    OutputReadyAnswers(w.switch, now);
    var acts := Next(w.switch, now, OutputReady).1;
    var shown := w.log + [Submitted(w.sink.value)];
    AllEarnedLater(w.log, shown);
    if acts != [] {
      var mode := w.switch.requested.value;
      BackedNow(w, mode);
      AllEarnedPush(shown, mode);
      assert Submit(w, now).log == shown + [Told(QualityApplied(mode))];
    } else {
      assert Submit(w, now).log == shown;
    }
  }

  lemma BackedNow(w: Worker, mode: Mode)
    requires Aligned(w) && w.running && w.switch.phase.AwaitingOutput? && w.sink == w.switch.requested == Some(mode)
    requires w.config == Some(mode) && w.decoder && TrailOf(w.log).f >= 0
    requires var d := TrailOf(w.log).d;
             d >= 0 && TrailOf(w.log).f < d && w.log[d] == FrameDecoded(mode.width, mode.height)
    ensures Earned((w.log + [Submitted(mode)]) + [Told(QualityApplied(mode))], |w.log| + 1, mode)
  {
    hide Marked, TrailOf, Earned;
    TrailIsMarked(w.log);
    BackedBy(w.log, TrailOf(w.log), mode);
  }

  lemma BackedBy(log: seq<Act>, t: Trail, mode: Mode)
    requires Marked(log, t)
    requires 0 <= t.p < t.r && 0 <= t.c < t.n < t.f < t.o < |log| && t.f < t.d < |log|
    requires log[t.p].PrepareSent? && log[t.p].mode == mode
    requires forall k :: t.r < k < |log| && log[k].ConfigTaken? ==> log[k].mode == mode
    requires log[t.f].Fed? && log[t.f].keyframe && log[t.f].configIncluded
    requires log[t.o] == SinkOpened(mode)
    requires forall k :: t.r < k < |log| && log[k].SinkOpened? ==> k == t.o
    requires log[t.d] == FrameDecoded(mode.width, mode.height)
    ensures Earned((log + [Submitted(mode)]) + [Told(QualityApplied(mode))], |log| + 1, mode)
  {
    var after := (log + [Submitted(mode)]) + [Told(QualityApplied(mode))];
    assert forall k :: 0 <= k < |log| ==> after[k] == log[k];
    assert forall k :: t.p < k < |log| ==> KindOf(log[k]) != KPrepare && !log[k].PrepareSent?;
    assert forall k :: t.r < k < |log| ==> KindOf(log[k]) != KRelease && !log[k].OutputsReleased?;
    assert forall k :: t.r < k < t.f ==> KindOf(log[k]) != KFed && !log[k].Fed?;
    assert after[t.d] == FrameDecoded(mode.width, mode.height);
    assert Backed(after, |log| + 1, mode, t.p, t.r, t.c, t.n, t.f, t.o);
  }

  // ----- Pictures, units, passes and runs -----

  lemma LitShows(lit: Worker, now: nat, c: Mode, p: Picture) returns (shown: Worker)
    requires Decoding(lit, c) && lit.sink.Some? && AllEarned(lit.log)
    requires var d := TrailOf(lit.log).d;
             d >= 0 && TrailOf(lit.log).f < d && lit.log[d] == FrameDecoded(c.width, c.height)
    ensures shown == if p.active then Submit(lit, now) else lit
    ensures Decoding(shown, c) && AllEarned(shown.log)
  {
    hide Since, AllEarned;
    shown := lit;
    if p.active {
      var (machine, actions) := Next(lit.switch, now, OutputReady);
      SubmittingAligns(lit, now, c, machine, actions);
      SubmittingEarns(lit, now, c);
      shown := Submit(lit, now);
    }
  }

  lemma ReportingKeeps(w: Worker, c: Mode, note: Note)
    requires Decoding(w, c) && AllEarned(w.log) && !note.QualityApplied?
    ensures var said := Say(w, [Told(note)]); Decoding(said, c) && AllEarned(said.log)
  {
    hide Since, AllEarned;
    AllEarnedLater(w.log, Say(w, [Told(note)]).log);
    SayingAligns(w, [Told(note)]);
    TrailKeeps(w.log, [Told(note)]);
  }

  lemma AbortingEarns(w: Worker)
    requires AllEarned(w.log)
    ensures AllEarned(Abort(w).log) && !Abort(w).running
  {
    hide AllEarned;
    AllEarnedLater(w.log, Abort(w).log);
  }

  lemma ShowingKeeps(w: Worker, now: nat, c: Mode, p: Picture)
    requires Decoding(w, c) && AllEarned(w.log)
    ensures var shown := ShowPicture(w, now, c, p);
            AllEarned(shown.log) && (shown.running ==> Decoding(shown, c))
  {
    hide Since, AllEarned, Submit, Receive;
    var lit := Receive(w, c, p);
    ReceivingAligns(w, c, p);
    ReceivingIsQuiet(w, c, p);
    AllEarnedLater(w.log, lit.log);
    AbortingEarns(lit);
    if lit.running {
      var shown := LitShows(lit, now, c, p);
      ReportingKeeps(shown, c, Stats(p.active, shown.submitted, c));
    }
  }

  lemma ReceivingIsQuiet(w: Worker, c: Mode, p: Picture)
    requires w.running
    ensures Quietly(w.log, Receive(w, c, p).log)
    ensures Receive(w, c, p).running ==> Receive(w, c, p).log[|w.log|] == FrameDecoded(c.width, c.height)
  {
  }

  lemma {:induction false} ShowingAllKeeps(w: Worker, now: nat, c: Mode, pictures: seq<Picture>)
    requires Decoding(w, c) && AllEarned(w.log)
    ensures var shown := ShowAll(w, now, c, pictures);
            AllEarned(shown.log) && (shown.running ==> Decoding(shown, c))
    decreases |pictures|
  {
    if pictures != [] {
      var front := pictures[..|pictures| - 1];
      ShowingAllKeeps(w, now, c, front);
      var before := ShowAll(w, now, c, front);
      if before.running { ShowingKeeps(before, now, c, pictures[|pictures| - 1]); }
    }
  }

  lemma FeedKeeps(w: Worker, unit: Incoming)
    requires unit.AccessUnit? && Aligned(w) && w.running && AllEarned(w.log) && w.config.Some?
    requires w.started || (unit.keyframe && unit.configIncluded)
    ensures AllEarned(Ready(w, unit).log)
    ensures AllEarned(Feed(Ready(w, unit), unit).log) && Decoding(Feed(Ready(w, unit), unit), w.config.value)
  {
    hide Since, AllEarned, Quietly;
    var open := if w.decoder then w else Say(w.(decoder := true), [DecoderOpened]);
    if !w.decoder {
      OpeningAligns(w);
      QuietSay(w.log, [DecoderOpened]);
      AllEarnedLater(w.log, open.log);
    }
    var flushed := Ready(w, unit);
    if unit.discontinuity {
      SayingAligns(open, [DecoderFlushed]);
      QuietSay(open.log, [DecoderFlushed]);
      AllEarnedLater(open.log, flushed.log);
    }
    FeedingAligns(flushed, unit);
    FeedIsQuiet(flushed, unit);
    AllEarnedLater(flushed.log, Feed(flushed, unit).log);
  }

  lemma FeedIsQuiet(w: Worker, unit: Incoming)
    requires unit.AccessUnit?
    ensures Quietly(w.log, Feed(w, unit).log)
  {
  }

  lemma UnitKeeps(w: Worker, round: Round, unit: Incoming)
    requires unit.AccessUnit? && Aligned(w) && w.running && AllEarned(w.log)
    ensures var after := HandleUnit(w, round, unit); Aligned(after) && AllEarned(after.log)
  {
    hide Since, AllEarned, ShowAll, Ready, Feed;
    AbortingEarns(w);
    if !unit.empty && w.config.Some? && (w.started || (unit.keyframe && unit.configIncluded)) {
      FeedKeeps(w, unit);
      AbortingEarns(Ready(w, unit));
      var fed := Feed(Ready(w, unit), unit);
      ShowingAllKeeps(fed, round.handledAt, w.config.value, round.pictures);
      AbortingEarns(ShowAll(fed, round.handledAt, w.config.value, round.pictures));
    }
  }

  // ----- Everything but a submitted picture is quiet -----

  lemma QuietSay(log: seq<Act>, acts: seq<Act>)
    requires forall k :: 0 <= k < |acts| ==> !(acts[k].Told? && acts[k].note.QualityApplied?)
    ensures Quietly(log, log + acts)
  {
  }

  lemma QuietChain(a: seq<Act>, b: seq<Act>, c: seq<Act>)
    requires Quietly(a, b) && Quietly(b, c)
    ensures Quietly(a, c)
  {
    assert c[..|a|] == c[..|b|][..|a|];
  }

  lemma QuietAbort(w: Worker)
    ensures Quietly(w.log, Abort(w).log)
  {
    QuietSay(w.log, [Told(ErrorNote), Told(StoppedNote)]);
  }

  lemma TakingIsQuiet(w: Worker, round: Round)
    ensures Quietly(w.log, TakeCommand(w, round).worker.log)
  {
    hide Quietly;
    var after := TakeCommand(w, round).worker;
    QuietSay(w.log, []);
    assert w.log + [] == w.log;
    QuietSay(w.log, [Told(QualityFailed(false))]);
    if round.command.Some? {
      var (machine, actions) := Next(w.switch, round.takenAt, Prepare(w.revision, round.command.value));
      if actions != [] {
        var act := PrepareSent(actions[0].requestId, actions[0].revision, actions[0].mode);
        QuietSay(w.log, [act]);
        var sent := Say(w.(switch := machine), [act]);
        QuietAbort(sent);
        QuietChain(w.log, sent.log, Abort(sent).log);
      }
    }
  }

  lemma DeadlineIsQuiet(w: Worker, now: nat)
    ensures Quietly(w.log, CheckDeadline(w, now).log)
  {
    hide Quietly;
    QuietSay(w.log, []);
    assert w.log + [] == w.log;
    var machine := Next(w.switch, now, DeadlineExceeded).0;
    QuietSay(w.log, [Told(QualityFailed(true))]);
    var said := Say(w.(switch := machine), [Told(QualityFailed(true))]);
    QuietAbort(said);
    QuietChain(w.log, said.log, Abort(said).log);
  }

  lemma PerformingIsQuiet(w: Worker, machine: Machine, actions: seq<Action>, sendWorks: bool)
    requires Controlled(w.switch, machine, actions)
    ensures Quietly(w.log, Perform(w, machine, actions, sendWorks).log)
  {
    hide Quietly;
    var (reports, ends) := Reports(actions);
    var told := Say(w.(switch := machine), reports);
    QuietSay(w.log, reports);
    QuietAbort(told);
    QuietChain(w.log, told.log, Abort(told).log);
    if !ends {
      var released := if ReleaseOutputs in actions then ReleaseAll(told) else told;
      QuietSay(told.log, []);
      assert told.log + [] == told.log;
      QuietSay(told.log, [OutputsReleased, Told(Waiting)]);
      QuietChain(w.log, told.log, released.log);
      var commits := if |actions| > 1 && actions[1].SendCommitQuality?
        then [CommitSent(actions[1].requestId, actions[1].epoch)] else [];
      var sent := Say(released, commits);
      assert released.log + [] == released.log;
      QuietSay(released.log, commits);
      QuietChain(w.log, released.log, sent.log);
      QuietAbort(sent);
      QuietChain(w.log, sent.log, Abort(sent).log);
      QuietSay(sent.log, [Told(Progress(machine.phase.Staged?))]);
      QuietChain(w.log, sent.log, sent.log + [Told(Progress(machine.phase.Staged?))]);
    }
  }

  lemma AcceptingIsQuiet(w: Worker, mode: Mode, machine: Machine, actions: seq<Action>)
    requires actions == [] || actions[0].ReportFailed?
    ensures Quietly(w.log, AcceptConfig(w, mode, machine, actions).log)
  {
    hide Quietly;
    var told := Say(w.(switch := machine), Reports(actions).0);
    QuietSay(w.log, Reports(actions).0);
    QuietAbort(told);
    QuietChain(w.log, told.log, Abort(told).log);
    QuietSay(told.log, [ConfigTaken(mode)]);
    QuietChain(w.log, told.log, told.log + [ConfigTaken(mode)]);
    var said := told.log + [Told(Progress(false))];
    QuietSay(told.log, [Told(Progress(false))]);
    QuietSay(said, [ConfigTaken(mode)]);
    QuietChain(told.log, said, said + [ConfigTaken(mode)]);
    QuietChain(w.log, told.log, said + [ConfigTaken(mode)]);
  }

  lemma ConfigIsQuiet(w: Worker, now: nat, payload: seq<u8>)
    ensures Quietly(w.log, HandleConfig(w, now, payload).log)
  {
    hide Quietly, AcceptConfig;
    QuietAbort(w);
    var parsed := ParseConfig(payload);
    if parsed.Some? {
      var (machine, actions) := Next(w.switch, now, VideoConfig(parsed.value));
      AcceptingIsQuiet(w, parsed.value, machine, actions);
      QuietSay(w.log, [ConfigTaken(parsed.value)]);
    }
  }

  /** One frame from the phone keeps the landmarks right and the reports earned. */
  lemma FrameKeeps(w: Worker, round: Round, frame: Incoming)
    requires Aligned(w) && w.running && AllEarned(w.log)
    ensures var after := HandleFrame(w, round, frame); Aligned(after) && AllEarned(after.log)
  {
    hide Since, AllEarned, Quietly, Perform, HandleConfig, HandleUnit, Next, Controlled;
    match frame {
      case Malformed => AbortingEarns(w);
      case PairingFrame =>
        SayingAligns(w, [Told(PairingInfo)]);
        QuietSay(w.log, [Told(PairingInfo)]);
        AllEarnedLater(w.log, w.log + [Told(PairingInfo)]);
      case CapabilityFrame(permission, _, _, _) =>
        CapabilitiesAlign(w, round.handledAt, frame);
        var note := Told(Capabilities(permission, UsableOnly(frame.offers)));
        QuietSay(w.log, [note]);
        AllEarnedLater(w.log, w.log + [note]);
      case ConfigFrame(payload) =>
        ConfigAligns(w, round.handledAt, payload);
        ConfigIsQuiet(w, round.handledAt, payload);
        AllEarnedLater(w.log, HandleConfig(w, round.handledAt, payload).log);
      case AccessUnit(_, _, _, _, _) => UnitKeeps(w, round, frame);
      case ResultAccepted(id, streaming) => ControlKeeps(w, round, PrepareAccepted(id, streaming));
      case ResultRejected(id, reason) => ControlKeeps(w, round, Rejected(id, reason));
      case ResultApplied(id, mode) => ControlKeeps(w, round, CaptureStarted(id, mode));
      case PausedFrame(id, epoch) => ControlKeeps(w, round, Paused(id, epoch));
      case UnknownCapabilities =>
      case OtherFrame =>
    }
  }

  lemma ControlKeeps(w: Worker, round: Round, event: Event)
    requires Aligned(w) && w.running && AllEarned(w.log)
    requires event.PrepareAccepted? || event.Rejected? || event.CaptureStarted? || event.Paused?
    ensures var after := HandleQuality(w, round.handledAt, event, round.sendWorks);
            Aligned(after) && AllEarned(after.log)
  {
    hide Since, AllEarned, Quietly, Perform, Next, Controlled;
    var (machine, actions) := Next(w.switch, round.handledAt, event);
    QualityActions(w.switch, round.handledAt, event);
    PerformingAligns(w, machine, actions, round.sendWorks);
    PerformingIsQuiet(w, machine, actions, round.sendWorks);
    AllEarnedLater(w.log, Perform(w, machine, actions, round.sendWorks).log);
  }

  lemma RoundKeeps(w: Worker, round: Round)
    requires Aligned(w) && AllEarned(w.log)
    ensures Aligned(Iterate(w, round)) && AllEarned(Iterate(w, round).log)
  {
    hide Since, AllEarned, Quietly, TakeCommand, CheckDeadline, HandleFrame;
    if w.running {
      var taken := TakeCommand(w, round);
      TakingAligns(w, round);
      TakingIsQuiet(w, round);
      AllEarnedLater(w.log, taken.worker.log);
      if taken.goesOn {
        var checked := CheckDeadline(taken.worker, round.checkedAt);
        DeadlineAligns(taken.worker, round.checkedAt);
        DeadlineIsQuiet(taken.worker, round.checkedAt);
        AllEarnedLater(taken.worker.log, checked.log);
        if checked.running {
          AbortingEarns(checked);
          if round.poll.Got? { FrameKeeps(checked, round, round.poll.frame); }
        }
      }
    }
  }

  lemma {:induction false} RunsKeep(rounds: seq<Round>)
    ensures Aligned(Play(rounds)) && AllEarned(Play(rounds).log)
  {
    hide Since, Iterate;
    if rounds == [] {
      BegunAligns();
    } else {
      RunsKeep(rounds[..|rounds| - 1]);
      RoundKeeps(Play(rounds[..|rounds| - 1]), rounds[|rounds| - 1]);
    }
  }

  lemma BegunAligns()
    ensures Aligned(Begun) && AllEarned(Begun.log)
  {
  }

  /** MAIN RESULT. Whatever the phone, the parent, the decoder and the sink do,
      every QualityApplied(w, h, fps) the worker ever reports was earned. */
  lemma AppliedIsAlwaysEarned(rounds: seq<Round>, i: nat)
    requires i < |Play(rounds).log| && Play(rounds).log[i].Told? && Play(rounds).log[i].note.QualityApplied?
    ensures Earned(Play(rounds).log, i, Play(rounds).log[i].note.mode)
  {
    RunsKeep(rounds);
  }
}

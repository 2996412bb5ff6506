/** One pass of the worker loop never loses and never invents a verdict. */
module WorkerVerdicts {
  import opened Basics
  import opened QualitySwitch
  import opened ModeResolver
  import opened WorkerLoop

  predicate IsRuling(note: Note) { note.QualityApplied? || note.QualityFailed? }

  /** The verdicts among some acts, in order. */
  function Rulings(acts: seq<Act>): seq<Note> {
    if acts == [] then []
    else
      var last := acts[|acts| - 1];
      Rulings(acts[..|acts| - 1]) + (if last.Told? && IsRuling(last.note) then [last.note] else [])
  }

  lemma {:induction false} RulingsConcat(a: seq<Act>, b: seq<Act>)
    ensures Rulings(a + b) == Rulings(a) + Rulings(b)
    decreases |b|
  {
    if b == [] {
      assert a + b == a;
    } else {
      var front := b[..|b| - 1];
      RulingsConcat(a, front);
      assert (a + b)[..|a + b| - 1] == a + front;
    }
  }

  lemma {:induction false} NoRulings(acts: seq<Act>)
    requires forall k :: 0 <= k < |acts| ==> !(acts[k].Told? && IsRuling(acts[k].note))
    ensures Rulings(acts) == []
  {
    if acts != [] { NoRulings(acts[..|acts| - 1]); }
  }

  lemma OneRuling(note: Note)
    requires IsRuling(note)
    ensures Rulings([Told(note)]) == [note]
  {
    assert [Told(note)][..0] == [];
  }

  function Load(m: Machine): nat { if m.Active() then 1 else 0 }

  /** From `w` to `after` the log grows by verdicts for exactly the request that
      stopped being open, and an applied one names the requested mode. */
  ghost predicate Settles(w: Worker, after: Worker) {
    && |w.log| <= |after.log| && after.log[..|w.log|] == w.log
    && |Rulings(after.log[|w.log|..])| + Load(after.switch) == Load(w.switch)
    && (forall mode :: QualityApplied(mode) in Rulings(after.log[|w.log|..]) ==> Some(mode) == w.switch.requested)
    && after.switch.requested == w.switch.requested
    && after.switch.nextRequestId == w.switch.nextRequestId
    && (WellOffered(w) ==> WellOffered(after))
  }

  ghost predicate WellOffered(w: Worker) { forall o :: o in w.offers ==> Usable(o) }

  lemma SettlesChain(a: Worker, b: Worker, c: Worker)
    requires Settles(a, b) && Settles(b, c)
    ensures Settles(a, c)
  {
    var first, second := b.log[|a.log|..], c.log[|b.log|..];
    assert c.log == c.log[..|b.log|] + second;
    assert b.log == b.log[..|a.log|] + first;
    assert c.log == a.log + (first + second);
    assert c.log[|a.log|..] == first + second;
    RulingsConcat(first, second);
  }

  /** Saying things that are no verdicts settles nothing. */
  lemma QuietlySettles(w: Worker, after: Worker, acts: seq<Act>)
    requires after.log == w.log + acts
    requires forall k :: 0 <= k < |acts| ==> !(acts[k].Told? && IsRuling(acts[k].note))
    requires Load(after.switch) == Load(w.switch)
    requires after.switch.requested == w.switch.requested && after.switch.nextRequestId == w.switch.nextRequestId
    requires WellOffered(w) ==> WellOffered(after)
    ensures Settles(w, after)
  {
    NoRulings(acts);
    assert after.log[|w.log|..] == acts;
  }

  lemma VerdictSettles(w: Worker, after: Worker, note: Note)
    requires after.log == w.log + [Told(note)] && IsRuling(note)
    requires w.switch.Active() && !after.switch.Active()
    requires note.QualityApplied? ==> Some(note.mode) == w.switch.requested
    requires after.switch.requested == w.switch.requested && after.switch.nextRequestId == w.switch.nextRequestId
    requires after.offers == w.offers
    ensures Settles(w, after)
  {
    OneRuling(note);
    assert after.log[|w.log|..] == [Told(note)];
  }

  lemma AbortSettles(w: Worker)
    ensures Settles(w, Abort(w))
  {
    QuietlySettles(w, Abort(w), [Told(ErrorNote), Told(StoppedNote)]);
  }

  lemma SameSettles(w: Worker)
    ensures Settles(w, w)
  {
    assert w.log + [] == w.log;
    QuietlySettles(w, w, []);
  }

  /** How an answer of the machine reads to the parent. */
  ghost predicate Answers(m: Machine, machine: Machine, actions: seq<Action>) {
    var (reports, _) := Reports(actions);
    && machine.requested == m.requested && machine.nextRequestId == m.nextRequestId
    && (reports == [] ==> Load(machine) == Load(m))
    && (reports != [] ==>
          m.Active() && !machine.Active() && |reports| == 1 && reports[0].Told? && IsRuling(reports[0].note))
    && (reports != [] && reports[0].note.QualityApplied? ==> Some(reports[0].note.mode) == m.requested)
  }

  lemma MachineAnswers(m: Machine, now: nat, event: Event)
    requires !event.Prepare?
    ensures Answers(m, Next(m, now, event).0, Next(m, now, event).1) || event.UserStop?
    ensures event.UserStop? ==>
      var (machine, actions) := Next(m, now, event);
      !machine.Active() && (actions != [] <==> m.Active())
      && machine.requested == m.requested && machine.nextRequestId == m.nextRequestId
  {
  }

  lemma TellingSettles(w: Worker, machine: Machine, actions: seq<Action>)
    requires Answers(w.switch, machine, actions)
    ensures Settles(w, Say(w.(switch := machine), Reports(actions).0))
  {
    hide Settles;
    var (reports, _) := Reports(actions);
    var told := Say(w.(switch := machine), reports);
    if reports == [] {
      QuietlySettles(w, told, []);
    } else {
      assert reports == [reports[0]];
      VerdictSettles(w, told, reports[0].note);
    }
  }

  lemma PerformingSettles(w: Worker, machine: Machine, actions: seq<Action>, sendWorks: bool)
    requires Answers(w.switch, machine, actions)
    ensures Settles(w, Perform(w, machine, actions, sendWorks))
  {
    hide Settles, Answers, Reports;
    var (reports, ends) := Reports(actions);
    var told := Say(w.(switch := machine), reports);
    TellingSettles(w, machine, actions);
    AbortSettles(told);
    SettlesChain(w, told, Abort(told));
    SameSettles(told);
    ReleasingSettles(told);
    hide ReleaseAll, Abort;
    var released := if ReleaseOutputs in actions then ReleaseAll(told) else told;
    SettlesChain(w, told, released);
    var sent := released;
    if |actions| > 1 && actions[1].SendCommitQuality? {
      sent := Say(released, [CommitSent(actions[1].requestId, actions[1].epoch)]);
      SayingSettles(released, CommitSent(actions[1].requestId, actions[1].epoch));
      SettlesChain(w, released, sent);
    }
    AbortSettles(sent);
    SettlesChain(w, sent, Abort(sent));
    SayingSettles(sent, Told(Progress(machine.phase.Staged?)));
    SettlesChain(w, sent, Say(sent, [Told(Progress(machine.phase.Staged?))]));
  }

  lemma ReleasingSettles(w: Worker)
    ensures Settles(w, ReleaseAll(w))
  {
    hide Settles;
    QuietlySettles(w, ReleaseAll(w), [OutputsReleased, Told(Waiting)]);
  }

  lemma SayingSettles(w: Worker, act: Act)
    requires !(act.Told? && IsRuling(act.note))
    ensures Settles(w, Say(w, [act]))
  {
    hide Settles;
    QuietlySettles(w, Say(w, [act]), [act]);
  }

  lemma AcceptingSettles(w: Worker, mode: Mode, machine: Machine, actions: seq<Action>)
    requires Answers(w.switch, machine, actions)
    ensures Settles(w, AcceptConfig(w, mode, machine, actions))
  {
    hide Settles, Answers;
    var told := Say(w.(switch := machine), Reports(actions).0);
    TellingSettles(w, machine, actions);
    AbortSettles(told);
    SettlesChain(w, told, Abort(told));
    var said := if w.switch.phase.Staged? then Say(told, [Told(Progress(false))]) else told;
    SameSettles(told);
    QuietlySettles(told, Say(told, [Told(Progress(false))]), [Told(Progress(false))]);
    SettlesChain(w, told, said);
    var taken := Say(said.(config := Some(mode)), [ConfigTaken(mode)]);
    QuietlySettles(said, taken, [ConfigTaken(mode)]);
    SettlesChain(w, said, taken);
  }

  lemma ConfigSettles(w: Worker, now: nat, payload: seq<u8>)
    ensures Settles(w, HandleConfig(w, now, payload))
  {
    hide Settles, Answers, Next, AcceptConfig;
    AbortSettles(w);
    var parsed := ParseConfig(payload);
    if parsed.Some? {
      MachineAnswers(w.switch, now, VideoConfig(parsed.value));
      var (machine, actions) := Next(w.switch, now, VideoConfig(parsed.value));
      AcceptingSettles(w, parsed.value, machine, actions);
      QuietlySettles(w, Say(w.(config := parsed), [ConfigTaken(parsed.value)]), [ConfigTaken(parsed.value)]);
    }
  }

  lemma ReceivingSettles(w: Worker, c: Mode, p: Picture)
    ensures Settles(w, Receive(w, c, p))
  {
    hide Settles;
    var seen := Say(w, [FrameDecoded(p.width, p.height)]);
    QuietlySettles(w, seen, [FrameDecoded(p.width, p.height)]);
    AbortSettles(seen);
    SettlesChain(w, seen, Abort(seen));
    var counted := seen.(decoded := seen.decoded + 1, started := true);
    assert counted.log + [] == counted.log;
    QuietlySettles(seen, counted, []);
    SettlesChain(w, seen, counted);
    AbortSettles(counted);
    SettlesChain(w, counted, Abort(counted));
    var lit := Say(counted.(sink := Some(c)), [SinkOpened(c)]);
    QuietlySettles(counted, lit, [SinkOpened(c)]);
    SettlesChain(w, counted, lit);
  }

  lemma SubmittingSettles(w: Worker, now: nat)
    requires w.sink.Some?
    ensures Settles(w, Submit(w, now))
  {
    hide Settles, Next, Answers;
    var (machine, actions) := Next(w.switch, now, OutputReady);
    MachineAnswers(w.switch, now, OutputReady);
    var shown := Say(w.(submitted := w.submitted + 1), [Submitted(w.sink.value)]);
    QuietlySettles(w, shown, [Submitted(w.sink.value)]);
    TellingSettles(shown, machine, actions);
    SettlesChain(w, shown, Say(shown.(switch := machine), Reports(actions).0));
    assert shown.log + Reports(actions).0 == w.log + ([Submitted(w.sink.value)] + Reports(actions).0);
  }

  lemma PictureSettles(w: Worker, now: nat, c: Mode, p: Picture)
    requires w.running
    ensures Settles(w, ShowPicture(w, now, c, p))
  {
    hide Settles;
    var lit := Receive(w, c, p);
    ReceivingSettles(w, c, p);
    AbortSettles(lit);
    SettlesChain(w, lit, Abort(lit));
    if lit.running {
      ReceiveLit(w, c, p);
      hide Receive, Submit;
      var shown := if p.active then Submit(lit, now) else lit;
      SubmittingSettles(lit, now);
      SameSettles(lit);
      SettlesChain(w, lit, shown);
      var stats := [Told(Stats(p.active, shown.submitted, c))];
      QuietlySettles(shown, Say(shown, stats), stats);
      SettlesChain(w, shown, Say(shown, stats));
    }
  }

  lemma ReceiveLit(w: Worker, c: Mode, p: Picture)
    requires Receive(w, c, p).running
    ensures Receive(w, c, p).sink.Some?
  {
  }

  lemma {:induction false} PicturesSettle(w: Worker, now: nat, c: Mode, pictures: seq<Picture>)
    ensures Settles(w, ShowAll(w, now, c, pictures))
    decreases |pictures|
  {
    hide Settles, ShowPicture;
    SameSettles(w);
    if pictures != [] {
      var front := pictures[..|pictures| - 1];
      PicturesSettle(w, now, c, front);
      var before := ShowAll(w, now, c, front);
      if before.running {
        PictureSettles(before, now, c, pictures[|pictures| - 1]);
        SettlesChain(w, before, ShowAll(w, now, c, pictures));
      }
    }
  }

  lemma UnitSettles(w: Worker, round: Round, unit: Incoming)
    requires unit.AccessUnit?
    ensures Settles(w, HandleUnit(w, round, unit))
  {
    hide Settles, ShowAll;
    SameSettles(w);
    AbortSettles(w);
    var open := if w.decoder then w else Say(w.(decoder := true), [DecoderOpened]);
    QuietlySettles(w, Say(w.(decoder := true), [DecoderOpened]), [DecoderOpened]);
    var ready := Ready(w, unit);
    QuietlySettles(open, Say(open, [DecoderFlushed]), [DecoderFlushed]);
    SameSettles(open);
    SettlesChain(w, open, ready);
    AbortSettles(ready);
    SettlesChain(w, ready, Abort(ready));
    var fed := Feed(ready, unit);
    QuietlySettles(ready, fed, [Fed(unit.keyframe, unit.configIncluded, unit.pts)]);
    SettlesChain(w, ready, fed);
    if w.config.Some? {
      var shown := ShowAll(fed, round.handledAt, w.config.value, round.pictures);
      PicturesSettle(fed, round.handledAt, w.config.value, round.pictures);
      SettlesChain(w, fed, shown);
      AbortSettles(shown);
      SettlesChain(w, shown, Abort(shown));
    }
  }

  lemma FrameSettles(w: Worker, round: Round, frame: Incoming)
    ensures Settles(w, HandleFrame(w, round, frame))
  {
    hide Settles, HandleUnit, HandleConfig, Perform, Next, Answers;
    match frame {
      case Malformed => AbortSettles(w);
      case PairingFrame => QuietlySettles(w, Say(w, [Told(PairingInfo)]), [Told(PairingInfo)]);
      case CapabilityFrame(_, _, _, _) => CapabilitiesSettle(w, round.handledAt, frame);
      case ConfigFrame(payload) => ConfigSettles(w, round.handledAt, payload);
      case AccessUnit(_, _, _, _, _) => UnitSettles(w, round, frame);
      case ResultAccepted(id, streaming) => ControlSettles(w, round, PrepareAccepted(id, streaming));
      case ResultRejected(id, reason) => ControlSettles(w, round, Rejected(id, reason));
      case ResultApplied(id, mode) => ControlSettles(w, round, CaptureStarted(id, mode));
      case PausedFrame(id, epoch) => ControlSettles(w, round, Paused(id, epoch));
      case UnknownCapabilities => SameSettles(w);
      case OtherFrame => SameSettles(w);
    }
  }

  lemma CapabilitiesSettle(w: Worker, now: nat, frame: Incoming)
    requires frame.CapabilityFrame?
    ensures Settles(w, HandleCapabilities(w, now, frame))
  {
    hide Settles;
    QuietlySettles(w, HandleCapabilities(w, now, frame),
      [Told(Capabilities(frame.permission, UsableOnly(frame.offers)))]);
  }

  lemma ControlSettles(w: Worker, round: Round, event: Event)
    requires !event.Prepare? && !event.UserStop?
    ensures Settles(w, HandleQuality(w, round.handledAt, event, round.sendWorks))
  {
    hide Settles, Perform, Next, Answers;
    MachineAnswers(w.switch, round.handledAt, event);
    var (machine, actions) := Next(w.switch, round.handledAt, event);
    PerformingSettles(w, machine, actions, round.sendWorks);
  }

  lemma DeadlineSettles(w: Worker, now: nat)
    ensures Settles(w, CheckDeadline(w, now))
  {
    hide Settles;
    SameSettles(w);
    var (machine, actions) := Next(w.switch, now, DeadlineExceeded);
    if w.switch.Busy() && actions != [] {
      var told := Say(w.(switch := machine), [Told(QualityFailed(true))]);
      VerdictSettles(w, told, QualityFailed(true));
      AbortSettles(told);
      SettlesChain(w, told, Abort(told));
    }
  }

  /** A taken command that the loop neither refuses nor passes on. */
  predicate Dropped(w: Worker, round: Round) {
    && round.command.Some?
    && !Refusable(w, round.command.value)
    && Next(w.switch, round.takenAt, Prepare(w.revision, round.command.value)).1 == []
  }

  ghost predicate Extends(w: Worker, after: Worker) {
    |w.log| <= |after.log| && after.log[..|w.log|] == w.log
  }

  /** A pass from `w` to `after`, in terms of commands and verdicts. */
  ghost predicate Accounts(w: Worker, round: Round, after: Worker)
    requires Extends(w, after)
  {
    var rulings := Rulings(after.log[|w.log|..]);
    var mode := if round.command.Some? then round.command else w.switch.requested;
    && |rulings| + Load(after.switch) + (if Dropped(w, round) then 1 else 0)
       == Load(w.switch) + (if round.command.Some? then 1 else 0)
    && (forall m :: QualityApplied(m) in rulings ==> Some(m) == mode)
    && (after.switch.Active() ==> after.switch.requested == mode)
    && WellOffered(after)
    && w.switch.nextRequestId <= after.switch.nextRequestId
  }

  lemma AccountsChain(w: Worker, round: Round, mid: Worker, after: Worker)
    requires Extends(w, mid) && Accounts(w, round, mid) && Settles(mid, after)
    ensures Extends(w, after) && Accounts(w, round, after)
  {
    hide Dropped, WellOffered, Rulings;
    var first, second := mid.log[|w.log|..], after.log[|mid.log|..];
    TailsJoin(w.log, mid.log, after.log);
    RulingsConcat(first, second);
    forall m | QualityApplied(m) in Rulings(second)
      ensures mid.switch.Active()
    {
      assert |Rulings(second)| > 0;
    }
  }

  lemma TailsJoin(a: seq<Act>, b: seq<Act>, c: seq<Act>)
    requires |a| <= |b| <= |c| && b[..|a|] == a && c[..|b|] == b
    ensures c[..|a|] == a && c[|a|..] == b[|a|..] + c[|b|..]
  {
    assert c == b + c[|b|..] && b == a + b[|a|..];
  }

  lemma RestSettles(mid: Worker, round: Round)
    ensures var checked := CheckDeadline(mid, round.checkedAt);
            Settles(mid, if !checked.running then checked
                         else match round.poll
                              case Nothing => checked
                              case PollFailed => Abort(checked)
                              case Got(frame) => HandleFrame(checked, round, frame))
  {
    hide Settles, CheckDeadline, HandleFrame;
    var checked := CheckDeadline(mid, round.checkedAt);
    DeadlineSettles(mid, round.checkedAt);
    AbortSettles(checked);
    SettlesChain(mid, checked, Abort(checked));
    if round.poll.Got? {
      FrameSettles(checked, round, round.poll.frame);
      SettlesChain(mid, checked, HandleFrame(checked, round, round.poll.frame));
    }
  }

  /** MAIN RESULT for one pass. With the worker free when a command is taken, the
      command is refused at once, becomes the open request, or - only when request
      ids have run out - is dropped without a word; the open request is the one
      that later verdicts are about. */
  lemma PassAccounts(w: Worker, round: Round)
    requires w.running && WellOffered(w)
    requires round.command.Some? ==> !w.switch.Active()
    ensures Extends(w, Iterate(w, round)) && Accounts(w, round, Iterate(w, round))
    ensures Dropped(w, round) <==>
      round.command.Some? && !Refusable(w, round.command.value) && w.switch.nextRequestId == U32_MAX
  {
    hide Accounts, TakeCommand, CheckDeadline, HandleFrame, Settles;
    var mid := TakeCommand(w, round).worker;
    TakingAccounts(w, round);
    DropsOnlyWhenExhausted(w, round);
    if TakeCommand(w, round).goesOn {
      RestSettles(mid, round);
      AccountsChain(w, round, mid, Iterate(w, round));
    }
  }

  lemma DropsOnlyWhenExhausted(w: Worker, round: Round)
    requires WellOffered(w)
    requires round.command.Some? ==> !w.switch.Active()
    ensures Dropped(w, round) <==>
      round.command.Some? && !Refusable(w, round.command.value) && w.switch.nextRequestId == U32_MAX
  {
    if round.command.Some? && !Refusable(w, round.command.value) { OfferedIsNonzero(w, round.command.value); }
  }

  lemma TakingAccounts(w: Worker, round: Round)
    requires w.running && WellOffered(w)
    requires round.command.Some? ==> !w.switch.Active()
    ensures var mid := TakeCommand(w, round).worker; Extends(w, mid) && Accounts(w, round, mid)
  {
    var after := TakeCommand(w, round).worker;
    if round.command.Some? && Refusable(w, round.command.value) {
      OneRuling(QualityFailed(false));
      assert after.log[|w.log|..] == [Told(QualityFailed(false))];
    } else if round.command.Some? {
      var (machine, actions) := Next(w.switch, round.takenAt, Prepare(w.revision, round.command.value));
      if actions != [] {
        var act := PrepareSent(actions[0].requestId, actions[0].revision, actions[0].mode);
        var tail := if round.sendWorks then [act] else [act, Told(ErrorNote), Told(StoppedNote)];
        NoRulings(tail);
        assert (w.log + [act]) + [Told(ErrorNote), Told(StoppedNote)]
          == w.log + [act, Told(ErrorNote), Told(StoppedNote)];
        assert after.log[|w.log|..] == tail;
      } else {
        assert after.log[|w.log|..] == [];
      }
    } else {
      assert after.log[|w.log|..] == [];
    }
  }

  lemma OfferedIsNonzero(w: Worker, mode: Mode)
    requires WellOffered(w) && !Refusable(w, mode)
    ensures mode.width > 0 && mode.height > 0 && mode.fps > 0
  {
    var i :| 0 <= i < |w.offers| && w.offers[i].mode == mode;
    assert w.offers[i] in w.offers;
  }

  /** Stopping gives an open request its one verdict. */
  lemma StoppingSettles(w: Worker, now: nat)
    requires w.running
    ensures Settles(w, Finish(w, now)) && !Finish(w, now).switch.Active()
  {
    hide Settles;
    MachineAnswers(w.switch, now, UserStop);
    var (machine, actions) := Next(w.switch, now, UserStop);
    hide Next;
    var after := Finish(w, now);
    if actions != [] {
      var told := Say(w.(switch := machine), [Told(QualityFailed(false))]);
      VerdictSettles(w, told, QualityFailed(false));
      QuietlySettles(told, after, [Told(StoppedNote)]);
      assert (w.log + [Told(QualityFailed(false))]) + [Told(StoppedNote)]
        == w.log + ([Told(QualityFailed(false))] + [Told(StoppedNote)]);
      SettlesChain(w, told, after);
    } else {
      QuietlySettles(w, after, [] + [Told(StoppedNote)]);
    }
  }
}

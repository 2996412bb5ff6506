/** Parent, mailboxes, pipe, worker and event channel together
    (host-rs/src/session.rs, host-rs/src/video.rs, host-rs/src/quality/client.rs). */
module QualitySystem {
  import opened Basics
  import opened QualitySwitch
  import opened ModeResolver
  import opened WorkerLoop
  import opened WorkerVerdicts
  import opened QualityClient
  import WorkerTheorems
  import WorkerTrail
  import WorkerProgress
  import ParentProgress

  datatype Command = ApplyQuality(mode: Mode) | Turn

  /** `parent.slot` and `turn` are the writer's one-slot mailboxes, `pipe` the
      worker's standard input, `mailbox` its one-slot request mailbox, `inbox` its
      standard output. The last three count quality commands queued, verdicts
      taken from the channel, and commands the worker took and dropped. */
  datatype System = System(
    parent: Parent, turn: bool,
    pipe: seq<Command>, mailbox: Option<Mode>,
    worker: Worker, inbox: seq<Note>,
    issued: nat, heard: nat, dropped: nat)

  datatype Step =
    | PressApply(wish: Wish, now: nat)
    | PressTurn
    | PressStop
    | WriterTakes
    | ReaderDelivers
    | WorkerPasses(round: Round)
    | WorkerStops(now: nat)
    | ParentHears(now: nat)
    | ParentWatches(now: nat)
    | ChildDies

  function Started(wish: Wish): System {
    System(Parent(Connecting, NewView(wish), None, None, true), false, [], None, Begun, [Waiting], 0, 0, 0)
  }

  /** The lines among some acts. */
  function Lines(acts: seq<Act>): seq<Note> {
    if acts == [] then []
    else
      var last := acts[|acts| - 1];
      Lines(acts[..|acts| - 1]) + (if last.Told? then [last.note] else [])
  }

  function Opened(before: Parent, after: Parent): nat {
    if before.view.pending.None? && after.view.pending.Some? then 1 else 0
  }

  function Take(s: System, step: Step, aspect: Aspect): System {
    match step
    case PressApply(wish, now) =>
      var parent := PrepareQuality(s.parent, wish, now, aspect);
      s.(parent := parent, issued := s.issued + Opened(s.parent, parent))
    case PressTurn => s.(turn := true)
    case PressStop => s.(parent := StopPressed(s.parent))
    case WriterTakes =>
      if s.parent.slot.Some? then
        s.(parent := s.parent.(slot := None), pipe := s.pipe + [ApplyQuality(s.parent.slot.value)])
      else if s.turn then s.(turn := false, pipe := s.pipe + [Turn])
      else s
    case ReaderDelivers =>
      if s.pipe == [] then s
      else if s.pipe[0].ApplyQuality? then s.(pipe := s.pipe[1..], mailbox := Some(s.pipe[0].mode))
      else s.(pipe := s.pipe[1..])
    case WorkerPasses(round) =>
      if !s.worker.running then s
      else
        var pass := round.(command := s.mailbox);
        var worker := Iterate(s.worker, pass);
        var said := if |s.worker.log| <= |worker.log| then Lines(worker.log[|s.worker.log|..]) else [];
        s.(worker := worker, mailbox := None, inbox := s.inbox + said,
           dropped := s.dropped + if Dropped(s.worker, pass) then 1 else 0)
    case WorkerStops(now) =>
      var worker := Finish(s.worker, now);
      var said := if |s.worker.log| <= |worker.log| then Lines(worker.log[|s.worker.log|..]) else [];
      s.(worker := worker, inbox := s.inbox + said)
    case ParentHears(now) =>
      if !s.parent.open || s.inbox == [] then s
      else
        var parent := Hear(s.parent, s.inbox[0], now, aspect);
        s.(parent := parent, inbox := s.inbox[1..],
           issued := s.issued + Opened(s.parent, parent),
           heard := s.heard + if IsRuling(s.inbox[0]) then 1 else 0)
    case ParentWatches(now) => s.(parent := Watch(s.parent, now))
    case ChildDies => s.(parent := if s.parent.open then Close(s.parent, true) else s.parent)
  }

  function Play(wish: Wish, steps: seq<Step>, aspect: Aspect): System {
    if steps == [] then Started(wish)
    else Take(Play(wish, steps[..|steps| - 1], aspect), steps[|steps| - 1], aspect)
  }

  // ----- Where a command can be -----

  /** The quality commands in the pipe. */
  function Queued(pipe: seq<Command>): seq<Mode> {
    if pipe == [] then []
    else (if pipe[0].ApplyQuality? then [pipe[0].mode] else []) + Queued(pipe[1..])
  }

  /** The verdicts in the channel. */
  function Verdicts(notes: seq<Note>): seq<Note> {
    if notes == [] then [] else (if IsRuling(notes[0]) then [notes[0]] else []) + Verdicts(notes[1..])
  }

  function Count<T>(o: Option<T>): nat { if o.Some? then 1 else 0 }

  /** How many commands are on their way, being applied, or on their way back. */
  function Afloat(s: System): nat {
    Count(s.parent.slot) + |Queued(s.pipe)| + Count(s.mailbox) + Load(s.worker.switch) + |Verdicts(s.inbox)|
  }

  /** The parent still listens: neither closed nor stopping. */
  predicate Live(s: System) { s.parent.open && !s.parent.state.Stopping? }

  ghost predicate AllAgree(s: System, mode: Mode) {
    && (s.parent.slot.Some? ==> s.parent.slot.value == mode)
    && (forall m :: m in Queued(s.pipe) ==> m == mode)
    && (s.mailbox.Some? ==> s.mailbox.value == mode)
    && (s.worker.switch.Active() ==> s.worker.switch.requested == Some(mode))
    && (forall m :: QualityApplied(m) in Verdicts(s.inbox) ==> m == mode)
  }

  /** The invariant of the composed system. */
  ghost predicate Consistent(s: System) {
    && s.issued == s.heard + Afloat(s) + s.dropped
    && Afloat(s) + s.dropped <= 1
    && (s.dropped > 0 ==> s.worker.switch.nextRequestId == U32_MAX)
    && WellOffered(s.worker)
    && Guarded(s.parent)
    && (Live(s) ==> (s.parent.view.pending.Some? <==> Afloat(s) + s.dropped == 1))
    && (Live(s) && s.parent.view.pending.Some? ==> AllAgree(s, s.parent.view.pending.value.mode))
  }

  // ----- Sequences -----

  lemma {:induction false} QueuedPush(pipe: seq<Command>, command: Command)
    ensures Queued(pipe + [command]) == Queued(pipe) + if command.ApplyQuality? then [command.mode] else []
  {
    if pipe == [] {
      assert pipe + [command] == [command];
    } else {
      QueuedPush(pipe[1..], command);
      assert (pipe + [command])[1..] == pipe[1..] + [command];
    }
  }

  lemma {:induction false} VerdictsConcat(a: seq<Note>, b: seq<Note>)
    ensures Verdicts(a + b) == Verdicts(a) + Verdicts(b)
    decreases |a|
  {
    if a == [] {
      assert a + b == b;
    } else {
      var head := if IsRuling(a[0]) then [a[0]] else [];
      VerdictsConcat(a[1..], b);
      calc {
        Verdicts(a + b);
        { assert (a + b)[0] == a[0] && (a + b)[1..] == a[1..] + b; }
        head + Verdicts(a[1..] + b);
        head + (Verdicts(a[1..]) + Verdicts(b));
        (head + Verdicts(a[1..])) + Verdicts(b);
      }
    }
  }

  lemma {:induction false} VerdictsOfLines(acts: seq<Act>)
    ensures Verdicts(Lines(acts)) == Rulings(acts)
  {
    if acts != [] {
      var last := acts[|acts| - 1];
      VerdictsOfLines(acts[..|acts| - 1]);
      VerdictsConcat(Lines(acts[..|acts| - 1]), if last.Told? then [last.note] else []);
      if last.Told? { assert [last.note][1..] == []; }
    }
  }

  // ----- Steps -----

  /** What queueing does: an apply that opens does so from an empty slate. */
  lemma OpeningQueues(p: Parent, wish: Wish, now: nat, aspect: Aspect)
    ensures var after := PrepareQuality(p, wish, now, aspect);
            && after.open == p.open && after.state == p.state
            && (Opened(p, after) == 1 ==> p.open && !p.state.Stopping?)
            && (Opened(p, after) == 1 ==> after.slot == Some(after.view.pending.value.mode))
            && (Opened(p, after) == 0 ==> after.slot == p.slot && after.view.pending == p.view.pending)
            && (Guarded(p) ==> Guarded(after))
  {
  }

  lemma ApplyKeeps(s: System, wish: Wish, now: nat, aspect: Aspect)
    requires Consistent(s)
    ensures Consistent(Take(s, PressApply(wish, now), aspect))
  {
    hide PrepareQuality;
    OpeningQueues(s.parent, wish, now, aspect);
  }

  lemma WriterKeeps(s: System, aspect: Aspect)
    requires Consistent(s)
    ensures Consistent(Take(s, WriterTakes, aspect))
  {
    if s.parent.slot.Some? {
      QueuedPush(s.pipe, ApplyQuality(s.parent.slot.value));
    } else {
      QueuedPush(s.pipe, Turn);
    }
  }

  lemma ReaderKeeps(s: System, aspect: Aspect)
    requires Consistent(s)
    ensures Consistent(Take(s, ReaderDelivers, aspect))
  {
    if s.pipe != [] {
      var head := if s.pipe[0].ApplyQuality? then [s.pipe[0].mode] else [];
      assert Queued(s.pipe) == head + Queued(s.pipe[1..]);
      assert forall m :: m in Queued(s.pipe[1..]) ==> m in Queued(s.pipe);
      if s.pipe[0].ApplyQuality? { assert Queued(s.pipe)[0] == s.pipe[0].mode && s.pipe[0].mode in Queued(s.pipe); }
    }
  }

  /** A pass seen from the system: the mailbox is emptied, the lines queued. */
  function AfterPass(s: System, pass: Round, worker: Worker): System
    requires Extends(s.worker, worker)
  {
    s.(worker := worker, mailbox := None, inbox := s.inbox + Lines(worker.log[|s.worker.log|..]),
       dropped := s.dropped + if Dropped(s.worker, pass) then 1 else 0)
  }

  lemma AccountingKeeps(s: System, pass: Round, worker: Worker)
    requires Consistent(s) && pass.command == s.mailbox
    requires Extends(s.worker, worker) && Accounts(s.worker, pass, worker)
    requires Dropped(s.worker, pass) ==> s.worker.switch.nextRequestId == U32_MAX
    ensures Consistent(AfterPass(s, pass, worker))
  {
    hide Dropped, WellOffered;
    var acts := worker.log[|s.worker.log|..];
    VerdictsOfLines(acts);
    VerdictsConcat(s.inbox, Lines(acts));
  }

  lemma MailboxMeansFree(s: System)
    requires Consistent(s)
    ensures WellOffered(s.worker) && (s.mailbox.Some? ==> !s.worker.switch.Active())
  {
  }

  lemma WorkerKeeps(s: System, round: Round, aspect: Aspect)
    requires Consistent(s)
    ensures Consistent(Take(s, WorkerPasses(round), aspect))
  {
    hide Consistent, Accounts, Iterate, Dropped, WellOffered, Refusable;
    if s.worker.running {
      var pass := round.(command := s.mailbox);
      MailboxMeansFree(s);
      PassAccounts(s.worker, pass);
      AccountingKeeps(s, pass, Iterate(s.worker, pass));
    }
  }

  lemma SettlingKeeps(s: System, worker: Worker)
    requires Consistent(s) && Settles(s.worker, worker)
    ensures Consistent(s.(worker := worker, inbox := s.inbox + Lines(worker.log[|s.worker.log|..])))
  {
    hide WellOffered;
    var acts := worker.log[|s.worker.log|..];
    VerdictsOfLines(acts);
    VerdictsConcat(s.inbox, Lines(acts));
  }

  lemma StoppingKeeps(s: System, now: nat, aspect: Aspect)
    requires Consistent(s)
    ensures Consistent(Take(s, WorkerStops(now), aspect))
  {
    var worker := Finish(s.worker, now);
    if s.worker.running { StoppingSettles(s.worker, now); } else { SameSettles(s.worker); }
    hide Consistent, Finish;
    SettlingKeeps(s, worker);
  }

  /** What hearing one line does to the parent. */
  lemma HearingShape(p: Parent, note: Note, now: nat, aspect: Aspect)
    requires p.open && Guarded(p)
    ensures var after := Hear(p, note, now, aspect);
            && Guarded(after)
            && (after.open && !after.state.Stopping? ==> !p.state.Stopping?)
            && (Opened(p, after) == 1 ==> !p.state.Stopping? && !IsRuling(note))
            && (Opened(p, after) == 1 ==> after.slot == Some(after.view.pending.value.mode))
            && (Opened(p, after) == 0 ==> after.slot == p.slot)
            && (after.open && !after.state.Stopping? && Opened(p, after) == 0 ==>
                 if IsRuling(note) then after.view.pending.None? else after.view.pending == p.view.pending)
            && (p.state.Stopping? ==> after.view.pending == p.view.pending || !after.open)
  {
    AlwaysGuarded(p, note, AUTO, now, aspect);
    match note {
      case Capabilities(permission, offers) =>
        AdvertiseBegins(p.view, permission, offers, aspect);
        hide Advertise;
      case _ =>
    }
  }

  /** The channel without its first line. */
  lemma VerdictsHead(notes: seq<Note>)
    requires notes != []
    ensures Verdicts(notes) == (if IsRuling(notes[0]) then [notes[0]] else []) + Verdicts(notes[1..])
    ensures forall note :: note in Verdicts(notes[1..]) ==> note in Verdicts(notes)
  {
  }

  predicate Listens(p: Parent) { p.open && !p.state.Stopping? }

  lemma VerdictHeard(s: System, parent: Parent)
    requires Consistent(s) && s.inbox != [] && IsRuling(s.inbox[0]) && Guarded(parent) && parent.slot == s.parent.slot
    requires Listens(parent) ==> parent.view.pending.None?
    ensures Consistent(s.(parent := parent, inbox := s.inbox[1..], heard := s.heard + 1))
  {
    VerdictsHead(s.inbox);
    hide Verdicts, Queued, WellOffered, Guarded;
  }

  lemma OtherLineHeard(s: System, parent: Parent)
    requires Consistent(s) && s.inbox != [] && !IsRuling(s.inbox[0]) && Guarded(parent) && parent.slot == s.parent.slot
    requires Listens(parent) ==> Live(s) && parent.view.pending == s.parent.view.pending
    ensures Consistent(s.(parent := parent, inbox := s.inbox[1..]))
  {
    VerdictsHead(s.inbox);
    hide Verdicts, Queued, WellOffered, Guarded;
  }

  lemma OpeningHeard(s: System, parent: Parent)
    requires Consistent(s) && s.inbox != [] && !IsRuling(s.inbox[0]) && Guarded(parent) && Live(s)
    requires s.parent.view.pending.None? && parent.view.pending.Some?
    requires parent.slot == Some(parent.view.pending.value.mode)
    ensures Consistent(s.(parent := parent, inbox := s.inbox[1..], issued := s.issued + 1))
  {
    VerdictsHead(s.inbox);
    hide Verdicts, WellOffered, Guarded;
  }

  lemma HearingIs(s: System, now: nat, aspect: Aspect)
    requires s.parent.open && s.inbox != []
    ensures var parent := Hear(s.parent, s.inbox[0], now, aspect);
            Take(s, ParentHears(now), aspect)
            == s.(parent := parent, inbox := s.inbox[1..],
                  issued := s.issued + Opened(s.parent, parent),
                  heard := s.heard + if IsRuling(s.inbox[0]) then 1 else 0)
  {
    hide Hear;
  }

  lemma HearingKeeps(s: System, now: nat, aspect: Aspect)
    requires Consistent(s)
    ensures Consistent(Take(s, ParentHears(now), aspect))
  {
    if s.parent.open && s.inbox != [] {
      assert Guarded(s.parent);
      HearingIs(s, now, aspect);
      hide Consistent, Guarded, Take;
      HearingShape(s.parent, s.inbox[0], now, aspect);
      hide Hear;
      var parent := Hear(s.parent, s.inbox[0], now, aspect);
      if IsRuling(s.inbox[0]) {
        VerdictHeard(s, parent);
      } else if Opened(s.parent, parent) == 1 {
        OpeningHeard(s, parent);
      } else {
        OtherLineHeard(s, parent);
      }
    }
  }

  lemma OtherStepsKeep(s: System, step: Step, aspect: Aspect)
    requires Consistent(s)
    requires step.PressTurn? || step.PressStop? || step.ParentWatches? || step.ChildDies?
    ensures Consistent(Take(s, step, aspect))
  {
  }

  lemma StepKeeps(s: System, step: Step, aspect: Aspect)
    requires Consistent(s)
    ensures Consistent(Take(s, step, aspect))
  {
    hide Consistent, Take;
    match step {
      case PressApply(wish, now) => ApplyKeeps(s, wish, now, aspect);
      case WriterTakes => WriterKeeps(s, aspect);
      case ReaderDelivers => ReaderKeeps(s, aspect);
      case WorkerPasses(round) => WorkerKeeps(s, round, aspect);
      case WorkerStops(now) => StoppingKeeps(s, now, aspect);
      case ParentHears(now) => HearingKeeps(s, now, aspect);
      case _ => OtherStepsKeep(s, step, aspect);
    }
  }

  lemma {:induction false} AlwaysConsistent(wish: Wish, steps: seq<Step>, aspect: Aspect)
    ensures Consistent(Play(wish, steps, aspect))
  {
    hide Consistent, Take;
    if steps == [] {
      StartsConsistent(wish);
    } else {
      AlwaysConsistent(wish, steps[..|steps| - 1], aspect);
      StepKeeps(Play(wish, steps[..|steps| - 1], aspect), steps[|steps| - 1], aspect);
    }
  }

  lemma StartsConsistent(wish: Wish)
    ensures Consistent(Started(wish))
  {
    assert Verdicts([Waiting]) == Verdicts([Waiting][1..]);
  }

  // ----- Main results -----

  /** MAIN RESULT. In every interleaving of the parent, the writer, the reader, the
      worker and the phone, at most one apply is in flight; and every command ever
      queued is still in flight, or has been answered by exactly one verdict that
      the parent has taken, or was dropped because the worker's request ids ran out. */
  lemma EveryCommandIsAccountedFor(wish: Wish, steps: seq<Step>, aspect: Aspect)
    ensures var s := Play(wish, steps, aspect);
            && s.issued == s.heard + Afloat(s) + s.dropped
            && Afloat(s) + s.dropped <= 1
            && (s.dropped > 0 ==> s.worker.switch.nextRequestId == U32_MAX)
            && (Live(s) ==> (s.parent.view.pending.Some? <==> s.issued == s.heard + 1))
  {
    AlwaysConsistent(wish, steps, aspect);
  }

  /** MAIN RESULT. No mailbox is ever overwritten: a quality command reaches the
      writer's slot, and later the worker's, only when that slot is empty. */
  lemma NothingIsOverwritten(wish: Wish, steps: seq<Step>, step: Step, aspect: Aspect)
    ensures var s := Play(wish, steps, aspect);
            var after := Take(s, step, aspect);
            && (after.issued > s.issued ==> s.parent.slot.None? && after.parent.slot.Some?)
            && (step.ReaderDelivers? && s.pipe != [] && s.pipe[0].ApplyQuality? ==> s.mailbox.None?)
  {
    var s := Play(wish, steps, aspect);
    AlwaysConsistent(wish, steps, aspect);
    StepKeeps(s, step, aspect);
    match step {
      case PressApply(wanted, now) =>
        OpeningQueues(s.parent, wanted, now, aspect);
        hide PrepareQuality;
      case ParentHears(now) =>
        if s.parent.open && s.inbox != [] { HearingShape(s.parent, s.inbox[0], now, aspect); }
        hide Hear;
      case _ =>
    }
  }

  /** MAIN RESULT. A listening parent that hears of an applied quality was waiting
      for exactly that quality, so confirming it never fails. */
  lemma ConfirmationsAreExpected(wish: Wish, steps: seq<Step>, aspect: Aspect)
    ensures var s := Play(wish, steps, aspect);
            Live(s) && s.inbox != [] && s.inbox[0].QualityApplied? ==>
              s.parent.view.pending.Some? && s.parent.view.pending.value.mode == s.inbox[0].mode
              && Confirm(s.parent.view, s.inbox[0].mode).1
  {
    AlwaysConsistent(wish, steps, aspect);
    var s := Play(wish, steps, aspect);
    if Live(s) && s.inbox != [] && s.inbox[0].QualityApplied? {
      assert Verdicts(s.inbox)[0] == s.inbox[0];
    }
  }

  /** A silently dropped command is not waited for beyond the watchdog: while it is
      pending and unstaged the watchdog runs, and its expiry ends the session. */
  lemma DroppedCommandsTimeOut(wish: Wish, steps: seq<Step>, now: nat, aspect: Aspect)
    ensures var s := Play(wish, steps, aspect);
            Live(s) && s.dropped > 0 && !s.parent.view.staged ==>
              && s.parent.watchdog.Some?
              && (now >= s.parent.watchdog.value ==>
                   var after := Take(s, ParentWatches(now), aspect);
                   !after.parent.open && after.parent.state.SessionFailed? && after.parent.view.pending.None?)
  {
    AlwaysConsistent(wish, steps, aspect);
  }

  // ----- Progress -----

  /** MAIN RESULT. In every interleaving a failure the worker told as not terminal leaves a
      listening parent listening, with no command under way and room for the next; one it
      told as terminal closes the session. */
  lemma EarlyFailuresAreSurvived(wish: Wish, steps: seq<Step>, now: nat, aspect: Aspect)
    ensures var s := Play(wish, steps, aspect);
            var after := Take(s, ParentHears(now), aspect);
            Live(s) && s.inbox != [] && s.inbox[0].QualityFailed? ==>
              && after.inbox == s.inbox[1..] && after.heard == s.heard + 1
              && after.parent.view.pending.None? && after.parent.watchdog.None?
              && after.parent.view.error == Some(Reported)
              && Afloat(after) + after.dropped == 0
              && (!s.inbox[0].terminal ==>
                    Live(after) && after.parent.state == s.parent.state
                    && after.parent.view.offers == s.parent.view.offers
                    && after.parent.view.applied == s.parent.view.applied)
              && (s.inbox[0].terminal ==> !after.parent.open && after.parent.state.SessionFailed?)
  {
    var s := Play(wish, steps, aspect);
    AlwaysConsistent(wish, steps, aspect);
    if Live(s) && s.inbox != [] && s.inbox[0].QualityFailed? {
      var terminal := s.inbox[0].terminal;
      ParentProgress.FailureEndsExactlyIfTerminal(s.parent, terminal, now, aspect);
      VerdictsHead(s.inbox);
      assert |Verdicts(s.inbox)| == 1 + |Verdicts(s.inbox[1..])|;
      hide Hear, Verdicts, Queued, Play, WellOffered;
    }
  }

  /** MAIN RESULT. In every interleaving a listening parent that hears of an applied quality
      carries on, shows exactly that one, and waits for nothing more. */
  lemma SuccessIsShown(wish: Wish, steps: seq<Step>, now: nat, aspect: Aspect)
    ensures var s := Play(wish, steps, aspect);
            var after := Take(s, ParentHears(now), aspect);
            Live(s) && s.inbox != [] && s.inbox[0].QualityApplied? ==>
              && Live(after) && after.parent.state == s.parent.state
              && after.parent.view.applied == Some(s.inbox[0].mode)
              && after.parent.view.pending.None? && after.parent.view.error.None? && after.parent.watchdog.None?
  {
    var s := Play(wish, steps, aspect);
    ConfirmationsAreExpected(wish, steps, aspect);
    if Live(s) && s.inbox != [] && s.inbox[0].QualityApplied? {
      ParentProgress.ExpectedQualityIsApplied(s.parent, s.inbox[0].mode, now, aspect);
      hide Hear, Play;
    }
  }

  /** The four steps that carry a press of Apply to the phone. */
  function Deliver(wish: Wish, now: nat, round: Round): seq<Step> {
    [PressApply(wish, now), WriterTakes, ReaderDelivers, WorkerPasses(round)]
  }

  function TakeAll(s: System, steps: seq<Step>, aspect: Aspect): System
    decreases |steps|
  {
    if steps == [] then s else TakeAll(Take(s, steps[0], aspect), steps[1..], aspect)
  }

  /** The wish resolves, for a parent that may ask, to a mode it does not have already. */
  predicate Wants(p: Parent, wish: Wish, aspect: Aspect, offer: Offer) {
    && Listens(p) && !p.state.SessionFailed? && p.view.pending.None?
    && p.view.permission == Some(0) && p.view.offers.Some? && p.view.offers.value != []
    && Resolve(wish, p.view.offers.value, aspect) == Some(offer) && p.view.applied != Some(offer.mode)
  }

  /** MAIN RESULT. From every reachable state in which a press of Apply asks for something
      new and nothing waits in the pipe, the request is on its way to the phone four steps
      later, provided the phone still offers the mode and the loop still has an id. */
  lemma PressesReachThePhone(wish: Wish, steps: seq<Step>, wanted: Wish, offer: Offer, now: nat, round: Round,
                             aspect: Aspect)
    requires var s := Play(wish, steps, aspect);
             && Wants(s.parent, wanted, aspect, offer) && s.pipe == []
             && s.worker.running && s.worker.advertised && s.worker.permission == 0
             && (exists o :: o in s.worker.offers && o.mode == offer.mode)
             && s.worker.switch.nextRequestId < U32_MAX
    requires round.sendWorks && round.poll.Nothing? && round.checkedAt < round.takenAt + 5000
    ensures var s := Play(wish, steps, aspect);
            var after := TakeAll(s, Deliver(wanted, now, round), aspect);
            && after.worker.log
               == s.worker.log + [PrepareSent(s.worker.switch.nextRequestId, s.worker.revision, offer.mode)]
            && after.worker.switch.phase.Preparing? && after.worker.switch.requested == Some(offer.mode)
            && after.parent.view.pending == Some(offer) && after.parent.watchdog == Some(now + 5000)
            && after.pipe == [] && after.mailbox.None? && after.parent.slot.None?
  {
    var s := Play(wish, steps, aspect);
    AlwaysConsistent(wish, steps, aspect);
    ParentProgress.PressOpensAnApply(s.parent, wanted, now, aspect);
    hide Play, PrepareQuality, Resolve;
    var sent := s.(parent := PrepareQuality(s.parent, wanted, now, aspect).(slot := None), issued := s.issued + 1,
                   mailbox := Some(offer.mode));
    ThreeSteps(s, wanted, now, aspect, sent, offer.mode);
    hide Take;
    LastStep(sent, round, offer.mode, aspect);
    Unrolled(s, wanted, now, round, aspect);
  }

  lemma ThreeSteps(s: System, wanted: Wish, now: nat, aspect: Aspect, sent: System, mode: Mode)
    requires var p := PrepareQuality(s.parent, wanted, now, aspect);
             && s.pipe == [] && s.parent.view.pending.None? && p.view.pending.Some? && p.slot == Some(mode)
             && sent == s.(parent := p.(slot := None), issued := s.issued + 1, mailbox := Some(mode))
    ensures Take(Take(Take(s, PressApply(wanted, now), aspect), WriterTakes, aspect), ReaderDelivers, aspect) == sent
  {
    hide PrepareQuality;
    assert ([] + [ApplyQuality(mode)])[1..] == [];
  }

  lemma LastStep(sent: System, round: Round, mode: Mode, aspect: Aspect)
    requires sent.mailbox == Some(mode)
    requires var w := sent.worker;
             && w.running && w.switch.Settled() && w.switch.nextRequestId < U32_MAX && WellOffered(w)
             && w.advertised && w.permission == 0 && exists o :: o in w.offers && o.mode == mode
    requires round.sendWorks && round.poll.Nothing? && round.checkedAt < round.takenAt + 5000
    ensures var after := Take(sent, WorkerPasses(round), aspect);
            && after.mailbox.None? && after.parent == sent.parent && after.pipe == sent.pipe
            && after.worker.switch.phase.Preparing? && after.worker.switch.requested == Some(mode)
            && after.worker.log
               == sent.worker.log + [PrepareSent(sent.worker.switch.nextRequestId, sent.worker.revision, mode)]
  {
    var w := sent.worker;
    var o :| o in w.offers && o.mode == mode;
    assert Usable(o);
    var i :| 0 <= i < |w.offers| && w.offers[i] == o;
    assert w.offers[i].mode == mode;
    WorkerProgress.RequestGoesOut(w, round.(command := Some(mode)), mode);
    hide Iterate, Dropped;
  }

  lemma Unrolled(s: System, wanted: Wish, now: nat, round: Round, aspect: Aspect)
    ensures TakeAll(s, Deliver(wanted, now, round), aspect)
         == Take(Take(Take(Take(s, PressApply(wanted, now), aspect), WriterTakes, aspect), ReaderDelivers, aspect),
                 WorkerPasses(round), aspect)
  {
    hide Take;
    var all := Deliver(wanted, now, round);
    assert all[1..] == [WriterTakes, ReaderDelivers, WorkerPasses(round)];
    assert all[1..][1..] == [ReaderDelivers, WorkerPasses(round)];
    assert all[1..][1..][1..] == [WorkerPasses(round)];
    assert all[1..][1..][1..][1..] == [];
    var s1 := Take(s, all[0], aspect);
    var s2 := Take(s1, all[1], aspect);
    var s3 := Take(s2, all[2], aspect);
    assert TakeAll(s, all, aspect) == TakeAll(s1, all[1..], aspect);
    assert TakeAll(s1, all[1..], aspect) == TakeAll(s2, all[1..][1..], aspect);
    assert TakeAll(s2, all[1..][1..], aspect) == TakeAll(s3, all[1..][1..][1..], aspect);
    assert TakeAll(s3, all[1..][1..][1..], aspect) == TakeAll(Take(s3, all[3], aspect), [], aspect);
  }

  // ----- What an applied quality means, end to end -----

  ghost predicate ToldSomewhere(log: seq<Act>, note: Note) { exists i: nat :: i < |log| && log[i] == Told(note) }

  /** The worker's history backs its reports, and every line in the channel is one it
      wrote. */
  ghost predicate Truthful(s: System) {
    && WorkerTrail.Aligned(s.worker) && WorkerTrail.AllEarned(s.worker.log)
    && forall note :: note in s.inbox ==> ToldSomewhere(s.worker.log, note)
  }

  lemma {:induction false} LinesAreTold(acts: seq<Act>)
    ensures forall note :: note in Lines(acts) ==> Told(note) in acts
  {
    if acts != [] { LinesAreTold(acts[..|acts| - 1]); }
  }

  /** A longer log, and the channel with the lines that were added to it. */
  lemma SayingIsTruthful(s: System, worker: Worker, inbox: seq<Note>)
    requires Truthful(s) && Extends(s.worker, worker)
    requires WorkerTrail.Aligned(worker) && WorkerTrail.AllEarned(worker.log)
    requires inbox == s.inbox + Lines(worker.log[|s.worker.log|..])
    ensures forall note :: note in inbox ==> ToldSomewhere(worker.log, note)
  {
    hide WorkerTrail.Aligned, WorkerTrail.AllEarned;
    var acts := worker.log[|s.worker.log|..];
    LinesAreTold(acts);
    forall note | note in inbox ensures ToldSomewhere(worker.log, note) {
      if note in s.inbox {
        var i: nat :| i < |s.worker.log| && s.worker.log[i] == Told(note);
        assert worker.log[..|s.worker.log|][i] == worker.log[i];
        assert worker.log[i] == Told(note);
      } else {
        var k :| 0 <= k < |acts| && acts[k] == Told(note);
        assert worker.log[|s.worker.log| + k] == Told(note);
      }
    }
  }

  lemma FinishingIsTruthful(w: Worker, now: nat)
    requires WorkerTrail.Aligned(w) && WorkerTrail.AllEarned(w.log)
    ensures Extends(w, Finish(w, now))
    ensures WorkerTrail.Aligned(Finish(w, now)) && WorkerTrail.AllEarned(Finish(w, now).log)
  {
    var after := Finish(w, now);
    hide WorkerTrail.Since, WorkerTrail.AllEarned;
    if w.running {
      assert WorkerTrail.Quietly(w.log, after.log);
      WorkerTrail.AllEarnedLater(w.log, after.log);
    }
  }

  lemma StepIsTruthful(s: System, step: Step, aspect: Aspect)
    requires Truthful(s) && Consistent(s)
    ensures Truthful(Take(s, step, aspect))
  {
    hide Consistent, Iterate, Finish, WorkerTrail.Aligned, WorkerTrail.AllEarned, Hear, Dropped, Accounts;
    var after := Take(s, step, aspect);
    match step {
      case WorkerPasses(round) =>
        if s.worker.running {
          var pass := round.(command := s.mailbox);
          MailboxMeansFree(s);
          PassAccounts(s.worker, pass);
          WorkerTheorems.RoundKeeps(s.worker, pass);
          SayingIsTruthful(s, after.worker, after.inbox);
        }
      case WorkerStops(now) =>
        FinishingIsTruthful(s.worker, now);
        SayingIsTruthful(s, after.worker, after.inbox);
      case _ =>
        hide PrepareQuality, StopPressed, Watch, Close;
    }
  }

  lemma {:induction false} AlwaysTruthful(wish: Wish, steps: seq<Step>, aspect: Aspect)
    ensures Truthful(Play(wish, steps, aspect))
  {
    hide Consistent, Take, Truthful;
    if steps == [] {
      StartsTruthful(wish);
    } else {
      AlwaysTruthful(wish, steps[..|steps| - 1], aspect);
      AlwaysConsistent(wish, steps[..|steps| - 1], aspect);
      StepIsTruthful(Play(wish, steps[..|steps| - 1], aspect), steps[|steps| - 1], aspect);
    }
  }

  lemma StartsTruthful(wish: Wish)
    ensures Truthful(Started(wish))
  {
    WorkerTheorems.BegunAligns();
    assert Begun.log[1] == Told(Waiting);
    hide WorkerTrail.Aligned, WorkerTrail.AllEarned;
  }

  /** MAIN RESULT, end to end: in every interleaving, a quality the parent is about to
      hear of as applied is backed by the worker's history - the request, the release,
      the configuration, the fresh decoder and its keyframe, a decoded picture of that
      size submitted to a sink opened for it - and a listening parent has exactly that
      quality pending. */
  lemma AppliedIsEarnedAndExpected(wish: Wish, steps: seq<Step>, aspect: Aspect, mode: Mode)
    requires QualityApplied(mode) in Play(wish, steps, aspect).inbox
    ensures var s := Play(wish, steps, aspect);
            && (exists i: nat :: i < |s.worker.log| && s.worker.log[i] == Told(QualityApplied(mode))
                  && WorkerTrail.Earned(s.worker.log, i, mode))
            && (Live(s) ==> s.parent.view.pending.Some? && s.parent.view.pending.value.mode == mode)
  {
    AlwaysTruthful(wish, steps, aspect);
    AlwaysConsistent(wish, steps, aspect);
    var s := Play(wish, steps, aspect);
    hide Play, WorkerTrail.Earned, WorkerTrail.Aligned, WellOffered;
    var i: nat :| i < |s.worker.log| && s.worker.log[i] == Told(QualityApplied(mode));
    assert WorkerTrail.Earned(s.worker.log, i, mode);
    RulingsAreVerdicts(s.inbox, QualityApplied(mode));
  }

  lemma {:induction false} RulingsAreVerdicts(notes: seq<Note>, note: Note)
    requires note in notes && IsRuling(note)
    ensures note in Verdicts(notes)
  {
    if notes[0] != note { RulingsAreVerdicts(notes[1..], note); }
  }
}

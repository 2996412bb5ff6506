/** The destructive boundary of a switch: what is gone before a commit goes out,
    and what an early refusal leaves alone. */
module WorkerBoundary {
  import opened Basics
  import opened QualitySwitch
  import opened ModeResolver
  import opened WorkerLoop
  import WorkerTheorems
  import WorkerTrail

  /** A commit at `i` directly follows a teardown and names the latest request. */
  ghost predicate CommitAt(log: seq<Act>, i: nat)
    requires i < |log| && log[i].CommitSent?
  {
    && i >= 2 && log[i - 2] == OutputsReleased && log[i - 1] == Told(Waiting)
    && LatestRequest(log[..i]) == Some(log[i].requestId)
  }

  ghost predicate TornDownFirst(log: seq<Act>) {
    forall i: nat :: i < |log| && log[i].CommitSent? ==> CommitAt(log, i)
  }

  lemma CommitAtLater(log: seq<Act>, after: seq<Act>, i: nat)
    requires i < |log| <= |after| && after[..|log|] == log && log[i].CommitSent? && CommitAt(log, i)
    ensures after[i].CommitSent? && CommitAt(after, i)
  {
    assert forall k :: 0 <= k < |log| ==> after[k] == after[..|log|][k];
    assert after[..i] == log[..i];
  }

  function LatestRequest(log: seq<Act>): Option<u32> {
    if log == [] then None
    else if log[|log| - 1].PrepareSent? then Some(log[|log| - 1].requestId)
    else LatestRequest(log[..|log| - 1])
  }

  lemma LatestRequestPush(log: seq<Act>, act: Act)
    ensures LatestRequest(log + [act]) == if act.PrepareSent? then Some(act.requestId) else LatestRequest(log)
  {
    assert (log + [act])[..|log|] == log;
  }

  /** `after` extends `before` with neither a commit nor a new request. */
  ghost predicate Idly(before: seq<Act>, after: seq<Act>) {
    && |before| <= |after|
    && after[..|before|] == before
    && forall k :: |before| <= k < |after| ==> !after[k].CommitSent? && !after[k].PrepareSent?
  }

  lemma {:induction false} IdlyKeepsRequest(before: seq<Act>, after: seq<Act>)
    requires Idly(before, after)
    ensures LatestRequest(after) == LatestRequest(before)
    decreases |after|
  {
    if |after| == |before| {
      assert after == before;
    } else {
      var front := after[..|after| - 1];
      assert front[..|before|] == before;
      IdlyKeepsRequest(before, front);
    }
  }

  lemma IdlyKeepsOrder(before: seq<Act>, after: seq<Act>)
    requires Idly(before, after) && TornDownFirst(before)
    ensures TornDownFirst(after)
  {
    hide CommitAt;
    forall i: nat | i < |after| && after[i].CommitSent?
      ensures CommitAt(after, i)
    {
      assert after[i] == after[..|before|][i];
      CommitAtLater(before, after, i);
    }
  }

  /** The log agrees with the machine about which request is the latest. */
  ghost predicate Bounded(w: Worker) {
    && TornDownFirst(w.log)
    && (w.running && w.switch.Active() ==> LatestRequest(w.log) == Some(w.switch.requestId))
  }

  lemma IdlyBounded(w: Worker, after: Worker)
    requires Bounded(w) && Idly(w.log, after.log)
    requires after.running && after.switch.Active() ==>
      w.running && w.switch.Active() && after.switch.requestId == w.switch.requestId
    ensures Bounded(after)
  {
    IdlyKeepsOrder(w.log, after.log);
    IdlyKeepsRequest(w.log, after.log);
  }

  lemma IdlyChain(a: seq<Act>, b: seq<Act>, c: seq<Act>)
    requires Idly(a, b) && Idly(b, c)
    ensures Idly(a, c)
  {
    assert c[..|a|] == c[..|b|][..|a|];
  }

  lemma TakingBounded(w: Worker, round: Round)
    requires Bounded(w) && w.running
    ensures Bounded(TakeCommand(w, round).worker)
  {
    var after := TakeCommand(w, round).worker;
    if round.command.Some? && !Refusable(w, round.command.value)
       && Next(w.switch, round.takenAt, Prepare(w.revision, round.command.value)).1 != [] {
      var actions := Next(w.switch, round.takenAt, Prepare(w.revision, round.command.value)).1;
      var act := PrepareSent(actions[0].requestId, actions[0].revision, actions[0].mode);
      RequestOrdered(w.log, act);
      LatestRequestPush(w.log, act);
      var sent := Say(w.(switch := Next(w.switch, round.takenAt, Prepare(w.revision, round.command.value)).0), [act]);
      assert Bounded(sent);
      if !round.sendWorks { IdlyBounded(sent, Abort(sent)); }
    } else {
      IdlyBounded(w, after);
    }
  }

  lemma RequestOrdered(log: seq<Act>, act: Act)
    requires TornDownFirst(log) && act.PrepareSent?
    ensures TornDownFirst(log + [act])
  {
    hide CommitAt;
    var after := log + [act];
    forall i: nat | i < |after| && after[i].CommitSent?
      ensures CommitAt(after, i)
    {
      CommitAtLater(log, after, i);
    }
  }

  lemma NewCommitAt(log: seq<Act>, id: u32, epoch: u32)
    requires |log| >= 2 && log[|log| - 2] == OutputsReleased && log[|log| - 1] == Told(Waiting)
    requires LatestRequest(log) == Some(id)
    ensures CommitAt(log + [CommitSent(id, epoch)], |log|)
  {
    hide LatestRequest;
    assert (log + [CommitSent(id, epoch)])[..|log|] == log;
  }

  lemma CommitOrdered(log: seq<Act>, id: u32, epoch: u32)
    requires TornDownFirst(log) && |log| >= 2 && log[|log| - 2] == OutputsReleased && log[|log| - 1] == Told(Waiting)
    requires LatestRequest(log) == Some(id)
    ensures TornDownFirst(log + [CommitSent(id, epoch)])
    ensures LatestRequest(log + [CommitSent(id, epoch)]) == Some(id)
  {
    hide CommitAt, LatestRequest;
    var after := log + [CommitSent(id, epoch)];
    LatestRequestPush(log, CommitSent(id, epoch));
    NewCommitAt(log, id, epoch);
    forall i: nat | i < |after| && after[i].CommitSent?
      ensures CommitAt(after, i)
    {
      if i < |log| { CommitAtLater(log, after, i); }
    }
  }

  /** What a control frame may ask the loop to do. */
  ghost predicate Asked(m: Machine, machine: Machine, actions: seq<Action>) {
    && (|actions| > 1 && actions[1].SendCommitQuality? ==>
         ReleaseOutputs in actions && actions[1].requestId == m.requestId && !Reports(actions).1)
    && (ReleaseOutputs in actions ==> Reports(actions) == ([], false))
    && (machine.Active() ==> m.Active() && machine.requestId == m.requestId)
    && (actions != [] ==> m.Active())
  }

  lemma ControlAsks(m: Machine, now: nat, event: Event)
    requires event.PrepareAccepted? || event.Rejected? || event.CaptureStarted? || event.Paused?
    ensures Asked(m, Next(m, now, event).0, Next(m, now, event).1)
  {
  }

  lemma IdlySay(log: seq<Act>, acts: seq<Act>)
    requires forall k :: 0 <= k < |acts| ==> !acts[k].CommitSent? && !acts[k].PrepareSent?
    ensures Idly(log, log + acts)
  {
  }

  /** Acts that carry out an answer without a commit. */
  lemma PerformingIdly(w: Worker, machine: Machine, actions: seq<Action>, sendWorks: bool)
    requires !(|actions| > 1 && actions[1].SendCommitQuality?)
    ensures Idly(w.log, Perform(w, machine, actions, sendWorks).log)
  {
    hide Idly;
    var (reports, ends) := Reports(actions);
    var told := Say(w.(switch := machine), reports);
    IdlySay(w.log, reports);
    IdlySay(told.log, [Told(ErrorNote), Told(StoppedNote)]);
    IdlySay(told.log, []);
    assert told.log + [] == told.log;
    IdlySay(told.log, [OutputsReleased, Told(Waiting)]);
    var released := if ReleaseOutputs in actions then ReleaseAll(told) else told;
    IdlySay(released.log, [Told(Progress(machine.phase.Staged?))]);
    IdlyChain(w.log, told.log, Abort(told).log);
    IdlyChain(w.log, told.log, released.log);
    IdlyChain(w.log, released.log, released.log + [Told(Progress(machine.phase.Staged?))]);
  }

  lemma CommittingShape(w: Worker, machine: Machine, actions: seq<Action>, sendWorks: bool)
    requires |actions| > 1 && actions[1].SendCommitQuality? && Asked(w.switch, machine, actions)
    ensures var sent := (w.log + [OutputsReleased, Told(Waiting)]) +
                        [CommitSent(actions[1].requestId, actions[1].epoch)];
            Perform(w, machine, actions, sendWorks).log
            == sent + if sendWorks then [Told(Progress(machine.phase.Staged?))]
              else [Told(ErrorNote), Told(StoppedNote)]
    ensures Perform(w, machine, actions, sendWorks).switch == machine
  {
    assert w.log + [] == w.log;
  }

  lemma PerformingBounded(w: Worker, machine: Machine, actions: seq<Action>, sendWorks: bool)
    requires Bounded(w) && w.running && Asked(w.switch, machine, actions)
    ensures Bounded(Perform(w, machine, actions, sendWorks))
  {
    hide TornDownFirst, Idly, LatestRequest;
    var after := Perform(w, machine, actions, sendWorks);
    if |actions| > 1 && actions[1].SendCommitQuality? {
      CommittingShape(w, machine, actions, sendWorks);
      hide Perform;
      var id, epoch := actions[1].requestId, actions[1].epoch;
      var torn := w.log + [OutputsReleased, Told(Waiting)];
      IdlySay(w.log, [OutputsReleased, Told(Waiting)]);
      IdlyKeepsOrder(w.log, torn);
      IdlyKeepsRequest(w.log, torn);
      CommitOrdered(torn, id, epoch);
      var sent := torn + [CommitSent(id, epoch)];
      var tail := if sendWorks then [Told(Progress(machine.phase.Staged?))] else [Told(ErrorNote), Told(StoppedNote)];
      IdlySay(sent, tail);
      IdlyKeepsOrder(sent, after.log);
      IdlyKeepsRequest(sent, after.log);
    } else {
      PerformingIdly(w, machine, actions, sendWorks);
      PerformingSwitch(w, machine, actions, sendWorks);
      hide Perform;
      IdlyBounded(w, after);
    }
  }

  lemma PerformingSwitch(w: Worker, machine: Machine, actions: seq<Action>, sendWorks: bool)
    ensures Perform(w, machine, actions, sendWorks).switch == machine
  {
  }

  lemma {:induction false} ShowingIdly(w: Worker, now: nat, c: Mode, pictures: seq<Picture>)
    ensures var after := ShowAll(w, now, c, pictures);
            Idly(w.log, after.log) && after.switch.requestId == w.switch.requestId
            && (after.running ==> w.running) && (after.switch.Active() ==> w.switch.Active())
    decreases |pictures|
  {
    if pictures != [] {
      var front := pictures[..|pictures| - 1];
      ShowingIdly(w, now, c, front);
      var before := ShowAll(w, now, c, front);
      if before.running {
        OnePictureIdly(before, now, c, pictures[|pictures| - 1]);
        IdlyChain(w.log, before.log, ShowAll(w, now, c, pictures).log);
      }
    }
  }

  lemma OnePictureIdly(w: Worker, now: nat, c: Mode, p: Picture)
    ensures var after := ShowPicture(w, now, c, p);
            Idly(w.log, after.log) && after.switch.requestId == w.switch.requestId
            && (after.running ==> w.running) && (after.switch.Active() ==> w.switch.Active())
  {
    var lit := Receive(w, c, p);
    assert Idly(w.log, lit.log);
    IdlyChain(w.log, lit.log, Abort(lit).log);
    if lit.running {
      ReceiveLights(w, c, p);
      hide Receive;
      var machine := Next(lit.switch, now, OutputReady).0;
      assert Idly(lit.log, Submit(lit, now).log);
      IdlyChain(w.log, lit.log, Submit(lit, now).log);
      var after := ShowPicture(w, now, c, p);
      var shown := if p.active then Submit(lit, now) else lit;
      IdlyChain(w.log, shown.log, Say(shown, [Told(Stats(p.active, shown.submitted, c))]).log);
    }
  }

  lemma ReceiveLights(w: Worker, c: Mode, p: Picture)
    requires Receive(w, c, p).running
    ensures Receive(w, c, p).sink.Some? && w.running && Receive(w, c, p).switch == w.switch
  {
  }

  lemma UnitIdly(w: Worker, round: Round, unit: Incoming)
    requires unit.AccessUnit? && w.running
    ensures var after := HandleUnit(w, round, unit);
            && Idly(w.log, after.log)
            && (after.running && after.switch.Active() ==>
                  w.switch.Active() && after.switch.requestId == w.switch.requestId)
  {
    hide ShowAll;
    var ready := Ready(w, unit);
    assert Idly(w.log, ready.log);
    IdlyChain(w.log, ready.log, Abort(ready).log);
    var fed := Feed(ready, unit);
    IdlyChain(w.log, ready.log, fed.log);
    if w.config.Some? {
      var shown := ShowAll(fed, round.handledAt, w.config.value, round.pictures);
      ShowingIdly(fed, round.handledAt, w.config.value, round.pictures);
      IdlyChain(w.log, fed.log, shown.log);
      IdlyChain(w.log, shown.log, Abort(shown).log);
    }
  }

  lemma UnitBounded(w: Worker, round: Round, unit: Incoming)
    requires unit.AccessUnit? && Bounded(w) && w.running
    ensures Bounded(HandleUnit(w, round, unit))
  {
    UnitIdly(w, round, unit);
    hide HandleUnit, Bounded, Idly;
    IdlyBounded(w, HandleUnit(w, round, unit));
  }

  lemma AcceptingIdly(w: Worker, mode: Mode, machine: Machine, actions: seq<Action>)
    ensures Idly(w.log, AcceptConfig(w, mode, machine, actions).log)
  {
    hide Idly;
    var told := Say(w.(switch := machine), Reports(actions).0);
    IdlySay(w.log, Reports(actions).0);
    IdlySay(told.log, [Told(ErrorNote), Told(StoppedNote)]);
    IdlyChain(w.log, told.log, Abort(told).log);
    IdlySay(told.log, [ConfigTaken(mode)]);
    IdlyChain(w.log, told.log, told.log + [ConfigTaken(mode)]);
    var said := told.log + [Told(Progress(false))];
    IdlySay(told.log, [Told(Progress(false))]);
    IdlySay(said, [ConfigTaken(mode)]);
    IdlyChain(told.log, said, said + [ConfigTaken(mode)]);
    IdlyChain(w.log, told.log, said + [ConfigTaken(mode)]);
  }

  lemma ConfigKeepsId(m: Machine, now: nat, mode: Mode)
    ensures var machine := Next(m, now, VideoConfig(mode)).0;
            machine.requestId == m.requestId && (machine.Active() ==> m.Active())
  {
  }

  lemma ConfigIdly(w: Worker, now: nat, payload: seq<u8>)
    requires w.running
    ensures var after := HandleConfig(w, now, payload);
            && Idly(w.log, after.log)
            && (after.running && after.switch.Active() ==>
                  w.switch.Active() && after.switch.requestId == w.switch.requestId)
  {
    hide Idly, Next;
    var parsed := ParseConfig(payload);
    IdlySay(w.log, [Told(ErrorNote), Told(StoppedNote)]);
    if parsed.Some? {
      var (machine, actions) := Next(w.switch, now, VideoConfig(parsed.value));
      ConfigKeepsId(w.switch, now, parsed.value);
      AcceptingIdly(w, parsed.value, machine, actions);
      AcceptingSwitch(w, parsed.value, machine, actions);
      IdlySay(w.log, [ConfigTaken(parsed.value)]);
    }
    hide AcceptConfig;
  }

  lemma ConfigBounded(w: Worker, now: nat, payload: seq<u8>)
    requires Bounded(w) && w.running
    ensures Bounded(HandleConfig(w, now, payload))
  {
    ConfigIdly(w, now, payload);
    hide HandleConfig, Bounded, Idly;
    IdlyBounded(w, HandleConfig(w, now, payload));
  }

  lemma AcceptingSwitch(w: Worker, mode: Mode, machine: Machine, actions: seq<Action>)
    ensures AcceptConfig(w, mode, machine, actions).switch == machine
    ensures AcceptConfig(w, mode, machine, actions).running ==> w.running
  {
  }

  lemma FrameBounded(w: Worker, round: Round, frame: Incoming)
    requires Bounded(w) && w.running
    ensures Bounded(HandleFrame(w, round, frame))
  {
    hide Bounded, HandleUnit, HandleConfig, Perform, Asked, Next;
    match frame {
      case ConfigFrame(payload) => ConfigBounded(w, round.handledAt, payload);
      case AccessUnit(_, _, _, _, _) => UnitBounded(w, round, frame);
      case ResultAccepted(id, streaming) => ControlBounded(w, round, PrepareAccepted(id, streaming));
      case ResultRejected(id, reason) => ControlBounded(w, round, Rejected(id, reason));
      case ResultApplied(id, mode) => ControlBounded(w, round, CaptureStarted(id, mode));
      case PausedFrame(id, epoch) => ControlBounded(w, round, Paused(id, epoch));
      case CapabilityFrame(_, _, epoch, _) => CapabilitiesBounded(w, round, frame);
      case _ => IdlyBounded(w, HandleFrame(w, round, frame));
    }
  }

  lemma CapabilitiesBounded(w: Worker, round: Round, frame: Incoming)
    requires Bounded(w) && w.running && frame.CapabilityFrame?
    ensures Bounded(HandleCapabilities(w, round.handledAt, frame))
  {
    IdlyBounded(w, HandleCapabilities(w, round.handledAt, frame));
  }

  lemma ControlBounded(w: Worker, round: Round, event: Event)
    requires Bounded(w) && w.running
    requires event.PrepareAccepted? || event.Rejected? || event.CaptureStarted? || event.Paused?
    ensures Bounded(HandleQuality(w, round.handledAt, event, round.sendWorks))
  {
    hide Bounded, Perform, Asked, Next;
    ControlAsks(w.switch, round.handledAt, event);
    PerformingBounded(w, Next(w.switch, round.handledAt, event).0, Next(w.switch, round.handledAt, event).1,
      round.sendWorks);
  }

  lemma DeadlineBounded(w: Worker, now: nat)
    requires Bounded(w) && w.running
    ensures Bounded(CheckDeadline(w, now))
  {
    IdlyBounded(w, CheckDeadline(w, now));
  }

  lemma {:induction false} RunsAreBounded(rounds: seq<Round>)
    ensures Bounded(Play(rounds))
  {
    hide Bounded, HandleFrame, TakeCommand, CheckDeadline;
    if rounds == [] {
      BegunBounded();
    } else {
      RunsAreBounded(rounds[..|rounds| - 1]);
      var w, round := Play(rounds[..|rounds| - 1]), rounds[|rounds| - 1];
      if w.running {
        TakingBounded(w, round);
        var taken := TakeCommand(w, round);
        if taken.goesOn {
          GoesOnRunning(w, round);
          DeadlineBounded(taken.worker, round.checkedAt);
          var checked := CheckDeadline(taken.worker, round.checkedAt);
          if checked.running {
            AbortBounded(checked);
            if round.poll.Got? { FrameBounded(checked, round, round.poll.frame); }
          }
        }
      }
    }
  }

  lemma GoesOnRunning(w: Worker, round: Round)
    requires w.running && TakeCommand(w, round).goesOn
    ensures TakeCommand(w, round).worker.running
  {
  }

  lemma AbortBounded(w: Worker)
    requires Bounded(w)
    ensures Bounded(Abort(w))
  {
    IdlyBounded(w, Abort(w));
  }

  lemma BegunBounded()
    ensures Bounded(Begun)
  {
  }

  /** MAIN RESULT. In every run, a commit goes out directly after the teardown and
      names the latest request the worker sent. */
  lemma CommitsFollowTeardown(rounds: seq<Round>, i: nat)
    requires i < |Play(rounds).log| && Play(rounds).log[i].CommitSent?
    ensures var log := Play(rounds).log;
            && i >= 2 && log[i - 2] == OutputsReleased && log[i - 1] == Told(Waiting)
            && LatestRequest(log[..i]) == Some(log[i].requestId)
  {
    RunsAreBounded(rounds);
  }

  // ----- What is left when a commit goes out -----

  /** Nothing of the old stream. */
  predicate Empty(w: Worker) {
    && w.config.None? && w.sink.None? && !w.decoder && !w.started
    && w.lastPts == 0 && w.decoded == 0 && w.submitted == 0
  }

  /** `after` extends `before`, and if it has sent a commit since, nothing is left. */
  ghost predicate CommitsEmpty(before: seq<Act>, after: Worker) {
    && |before| <= |after.log| && after.log[..|before|] == before
    && ((exists k :: |before| <= k < |after.log| && after.log[k].CommitSent?) ==> Empty(after))
  }

  lemma CommitlessChain(a: seq<Act>, b: seq<Act>, after: Worker)
    requires |a| <= |b| && b[..|a|] == a && (forall k :: |a| <= k < |b| ==> !b[k].CommitSent?)
    requires CommitsEmpty(b, after)
    ensures CommitsEmpty(a, after)
  {
    assert after.log[..|a|] == after.log[..|b|][..|a|];
    assert forall k :: 0 <= k < |b| ==> after.log[k] == after.log[..|b|][k];
    hide Empty;
  }

  lemma IdlyCommitsEmpty(before: seq<Act>, after: Worker)
    requires Idly(before, after.log)
    ensures CommitsEmpty(before, after)
  {
    hide Empty;
  }

  lemma ControlCommitsEmpty(w: Worker, round: Round, event: Event)
    requires event.PrepareAccepted? || event.Rejected? || event.CaptureStarted? || event.Paused?
    ensures CommitsEmpty(w.log, HandleQuality(w, round.handledAt, event, round.sendWorks))
  {
    ControlAsks(w.switch, round.handledAt, event);
    var (machine, actions) := Next(w.switch, round.handledAt, event);
    hide Next;
    if |actions| > 1 && actions[1].SendCommitQuality? {
      CommittingShape(w, machine, actions, round.sendWorks);
      CommittingEmpties(w, machine, actions, round.sendWorks);
      hide Perform, Asked, Empty;
    } else {
      PerformingIdly(w, machine, actions, round.sendWorks);
      IdlyCommitsEmpty(w.log, Perform(w, machine, actions, round.sendWorks));
      hide Perform, CommitsEmpty;
    }
  }

  lemma CommittingEmpties(w: Worker, machine: Machine, actions: seq<Action>, sendWorks: bool)
    requires |actions| > 1 && actions[1].SendCommitQuality? && Asked(w.switch, machine, actions)
    ensures Empty(Perform(w, machine, actions, sendWorks))
  {
  }

  lemma FrameCommitsEmpty(w: Worker, round: Round, frame: Incoming)
    requires w.running
    ensures CommitsEmpty(w.log, HandleFrame(w, round, frame))
  {
    hide HandleUnit, HandleConfig, HandleQuality, Idly, CommitsEmpty;
    match frame {
      case ConfigFrame(payload) =>
        ConfigIdly(w, round.handledAt, payload);
        IdlyCommitsEmpty(w.log, HandleConfig(w, round.handledAt, payload));
      case AccessUnit(_, _, _, _, _) =>
        UnitIdly(w, round, frame);
        IdlyCommitsEmpty(w.log, HandleUnit(w, round, frame));
      case ResultAccepted(id, streaming) => ControlCommitsEmpty(w, round, PrepareAccepted(id, streaming));
      case ResultRejected(id, reason) => ControlCommitsEmpty(w, round, Rejected(id, reason));
      case ResultApplied(id, mode) => ControlCommitsEmpty(w, round, CaptureStarted(id, mode));
      case PausedFrame(id, epoch) => ControlCommitsEmpty(w, round, Paused(id, epoch));
      case _ =>
        OthersIdly(w, round, frame);
        IdlyCommitsEmpty(w.log, HandleFrame(w, round, frame));
    }
  }

  lemma OthersIdly(w: Worker, round: Round, frame: Incoming)
    requires frame.Malformed? || frame.PairingFrame? || frame.UnknownCapabilities? || frame.CapabilityFrame?
        || frame.OtherFrame?
    ensures Idly(w.log, HandleFrame(w, round, frame).log)
  {
    hide Next;
  }

  /** Taking a command sends no commit, and neither does the deadline check. */
  lemma TakingCommitsNothing(w: Worker, round: Round)
    requires w.running
    ensures var taken := TakeCommand(w, round);
            var checked := if taken.goesOn then CheckDeadline(taken.worker, round.checkedAt) else taken.worker;
            && |w.log| <= |checked.log| && checked.log[..|w.log|] == w.log
            && forall k :: |w.log| <= k < |checked.log| ==> !checked.log[k].CommitSent?
  {
    var taken := TakeCommand(w, round);
    Taking(w, round);
    Checking(taken.worker, round.checkedAt);
    Uncommitted(w.log, taken.worker.log, CheckDeadline(taken.worker, round.checkedAt).log);
    hide TakeCommand, CheckDeadline;
  }

  ghost predicate NoCommit(before: seq<Act>, after: seq<Act>) {
    && |before| <= |after| && after[..|before|] == before
    && forall k :: |before| <= k < |after| ==> !after[k].CommitSent?
  }

  lemma Uncommitted(a: seq<Act>, b: seq<Act>, c: seq<Act>)
    requires NoCommit(a, b) && NoCommit(b, c)
    ensures NoCommit(a, c)
  {
    assert c[..|a|] == c[..|b|][..|a|];
    assert forall k :: 0 <= k < |b| ==> c[k] == c[..|b|][k];
  }

  lemma Taking(w: Worker, round: Round)
    ensures NoCommit(w.log, TakeCommand(w, round).worker.log)
  {
    hide Next, Refusable;
  }

  lemma Checking(w: Worker, now: nat)
    ensures NoCommit(w.log, CheckDeadline(w, now).log)
  {
    hide Next;
  }

  lemma PassCommitsEmpty(w: Worker, round: Round)
    ensures CommitsEmpty(w.log, Iterate(w, round))
  {
    hide TakeCommand, CheckDeadline, HandleFrame, Empty;
    if w.running {
      TakingCommitsNothing(w, round);
      var taken := TakeCommand(w, round);
      var checked := if taken.goesOn then CheckDeadline(taken.worker, round.checkedAt) else taken.worker;
      if taken.goesOn && checked.running {
        if round.poll.Got? {
          FrameCommitsEmpty(checked, round, round.poll.frame);
        } else {
          IdlySay(checked.log, if round.poll.PollFailed? then [Told(ErrorNote), Told(StoppedNote)] else []);
          assert checked.log + [] == checked.log;
          IdlyCommitsEmpty(checked.log, Iterate(w, round));
        }
        CommitlessChain(w.log, checked.log, Iterate(w, round));
      }
    }
  }

  lemma CommittedBefore(before: seq<Act>, after: Worker, i: nat)
    requires CommitsEmpty(before, after) && i < |after.log| && after.log[i].CommitSent?
    ensures if i < |before| then before[i].CommitSent? else Empty(after)
  {
    if i < |before| { assert after.log[i] == after.log[..|before|][i]; }
    hide Empty;
  }

  /** MAIN RESULT. In every run, the pass that sends a commit leaves the loop without
      configuration, decoder, sink, clock or counts of the old stream. */
  lemma {:induction false} CommitLeavesNothing(rounds: seq<Round>, i: nat)
    requires i < |Play(rounds).log| && Play(rounds).log[i].CommitSent?
    ensures exists k :: 0 <= k < |rounds|
              && |Play(rounds[..k]).log| <= i < |Play(rounds[..k + 1]).log| && Empty(Play(rounds[..k + 1]))
  {
    hide Iterate, Empty;
    var n := |rounds|;
    if n > 0 {
      var front := rounds[..n - 1];
      assert rounds[..n] == rounds;
      PassCommitsEmpty(Play(front), rounds[n - 1]);
      CommittedBefore(Play(front).log, Play(rounds), i);
      hide CommitsEmpty, Play;
      if i < |Play(front).log| {
        CommitLeavesNothing(front, i);
        var k :| 0 <= k < |front| && |Play(front[..k]).log| <= i < |Play(front[..k + 1]).log|
                 && Empty(Play(front[..k + 1]));
        assert front[..k] == rounds[..k] && front[..k + 1] == rounds[..k + 1];
      } else {
        assert |Play(rounds[..n - 1]).log| <= i < |Play(rounds[..n - 1 + 1]).log| && Empty(Play(rounds[..n - 1 + 1]));
      }
    }
  }

  /** A phone that refuses before the boundary costs nothing: the stream keeps its
      configuration, decoder, sink and clock, and the parent hears one
      non-terminal failure. */
  lemma EarlyRefusalTouchesNothing(w: Worker, round: Round, id: u32, reason: u8)
    requires w.running && w.switch.phase.Preparing? && w.switch.requestId == id
    ensures var after := HandleFrame(w, round, ResultRejected(id, reason));
            after == w.(switch := after.switch, log := w.log + [Told(QualityFailed(false))])
            && after.switch.phase.Failed? && after.switch.deadline.None?
  {
  }

  /** A refusal while staged is also non-terminal: in every run the loop goes on after
      it, and it goes on with no configuration, decoder or sink, which went when the
      request was staged. */
  lemma StagedRefusalIsNotTerminal(rounds: seq<Round>, round: Round, id: u32, reason: u8)
    requires Play(rounds).running && Play(rounds).switch.phase.Staged? && Play(rounds).switch.requestId == id
    requires round.command.None? && round.poll == Got(ResultRejected(id, reason))
    ensures var w, after := Play(rounds), Iterate(Play(rounds), round);
            && after == w.(switch := after.switch, log := w.log + [Told(QualityFailed(false)), Told(Progress(false))])
            && after.running && after.switch.phase.Failed?
            && after.config.None? && after.sink.None? && !after.decoder
  {
    WorkerTheorems.RunsKeep(rounds);
    StagedHasNothing(Play(rounds));
    StagedRefusal(Play(rounds), round, id, reason);
    hide HandleFrame, Play;
  }

  lemma StagedHasNothing(w: Worker)
    requires WorkerTrail.Aligned(w) && w.running && w.switch.phase.Staged?
    ensures w.config.None? && w.sink.None? && !w.decoder
  {
  }

  lemma StagedRefusal(w: Worker, round: Round, id: u32, reason: u8)
    requires w.running && w.switch.phase.Staged? && w.switch.requestId == id
    ensures var after := HandleFrame(w, round, ResultRejected(id, reason));
            after == w.(switch := after.switch, log := w.log + [Told(QualityFailed(false)), Told(Progress(false))])
            && after.running && after.switch.phase.Failed?
  {
    assert (w.log + [Told(QualityFailed(false))]) + [Told(Progress(false))]
        == w.log + [Told(QualityFailed(false)), Told(Progress(false))];
  }
}

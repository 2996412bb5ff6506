/** What holds of every run of the switch machine, whatever events arrive. */
module QualityRuns {
  import opened Basics
  import opened QualitySwitch

  datatype Timed = Timed(now: nat, event: Event)

  datatype Run = Run(machine: Machine, log: seq<Action>)

  function Play(events: seq<Timed>): Run {
    if events == [] then Run(Fresh, [])
    else
      var before := Play(events[..|events| - 1]);
      var last := events[|events| - 1];
      var (machine, actions) := Next(before.machine, last.now, last.event);
      Run(machine, before.log + actions)
  }

  // ----- Requests are answered one at a time, in a fixed shape -----

  datatype Verdict =
    | Pending
    | WasApplied
    | WasRefused(reason: Reason)   // the connection carries on
    | WasStopped                   // reported, capture stopped
    | WasFatal(reason: Reason)     // reported, capture stopped, connection closed

  /** Everything one request may cause: the reference the machine is held to. */
  datatype Life = Life(id: u32, revision: u16, mode: Mode, released: bool, commit: Option<u32>, verdict: Verdict)
  {
    /** Media may be confirmed or committed only once the old outputs are gone. */
    predicate Lawful() {
      && (commit.Some? ==> released)
      && (verdict.WasApplied? ==> released)
      && (verdict.WasRefused? ==> commit.None?)
    }

    function Actions(): seq<Action> {
      [SendPrepareQuality(id, revision, mode)]
      + (if released then [ReleaseOutputs] else [])
      + (if commit.Some? then [SendCommitQuality(id, commit.value)] else [])
      + match verdict {
          case Pending => []
          case WasApplied => [ReportApplied(mode)]
          case WasRefused(reason) => [ReportFailed(reason)]
          case WasStopped => [ReportFailed(Stopped), StopCapture]
          case WasFatal(reason) => [ReportFailed(reason), StopCapture, CloseConnection]
        }
    }
  }

  function Flatten(lives: seq<Life>): seq<Action> {
    if lives == [] then [] else Flatten(lives[..|lives| - 1]) + lives[|lives| - 1].Actions()
  }

  ghost predicate Sequential(lives: seq<Life>) {
    && (forall i :: 0 <= i < |lives| ==> lives[i].Lawful())
    && (forall i, j :: 0 <= i < j < |lives| ==> lives[i].id < lives[j].id)
    && (forall i :: 0 <= i < |lives| - 1 ==> !lives[i].verdict.Pending?)
  }

  /** How the machine's phase reads the life of its latest request. */
  ghost predicate Reads(m: Machine, life: Life) {
    && life.id == m.requestId
    && m.requestId < m.nextRequestId
    && m.requested == Some(life.mode)
    && life.Lawful()
    && !m.phase.Idle?
    && (m.Settled() <==> !life.verdict.Pending?)
    && (m.phase.Preparing? ==> !life.released && life.commit.None?)
    && (m.phase.Staged? ==> life.released && life.commit.None?)
    && (m.phase.Switching? || m.phase.AwaitingOutput? ==> life.released)
  }

  ghost predicate Tracks(m: Machine, lives: seq<Life>) {
    if lives == [] then m.phase.Idle? else Reads(m, lives[|lives| - 1])
  }

  lemma FlattenPush(lives: seq<Life>, last: Life)
    ensures Flatten(lives + [last]) == Flatten(lives) + last.Actions()
  {
    assert (lives + [last])[..|lives|] == lives;
  }

  /** The life of the latest request after one more event. */
  function Advance(m: Machine, life: Life, now: nat, event: Event): Life {
    var actions := Next(m, now, event).1;
    match event
    case Paused(_, epoch) =>
      if ReleaseOutputs in actions && epoch < U32_MAX then life.(released := true, commit := Some(epoch + 1))
      else if actions != [] then life.(verdict := WasFatal(EpochOverflow)) else life
    case PrepareAccepted(_, _) => if actions != [] then life.(released := true) else life
    case OutputReady => if actions != [] then life.(verdict := WasApplied) else life
    case UserStop => if actions != [] then life.(verdict := WasStopped) else life
    case Rejected(_, reason) =>
      if CloseConnection in actions then life.(verdict := WasFatal(PhoneRejected(reason)))
      else if actions != [] then life.(verdict := WasRefused(PhoneRejected(reason))) else life
    case VideoConfig(_) => if actions != [] then life.(verdict := WasFatal(ModeMismatch)) else life
    case CaptureStarted(_, _) => if actions != [] then life.(verdict := WasFatal(ModeMismatch)) else life
    case DeadlineExceeded => if actions != [] then life.(verdict := WasFatal(DeadlineExpired)) else life
    case _ => life
  }

  lemma LifeAdvances(m: Machine, life: Life, now: nat, event: Event)
    requires Reads(m, life)
    requires var actions := Next(m, now, event).1; actions == [] || !actions[0].SendPrepareQuality?
    ensures var (machine, actions) := Next(m, now, event);
            var next := Advance(m, life, now, event);
            Reads(machine, next) && next.Actions() == life.Actions() + actions
            && (!life.verdict.Pending? ==> next == life)
  {
    var (machine, actions) := Next(m, now, event);
    var next := Advance(m, life, now, event);
    if actions != [] {
      assert life.verdict.Pending?;
      var opening := [SendPrepareQuality(life.id, life.revision, life.mode)];
      if event.Paused? && ReleaseOutputs in actions {
        assert life.Actions() == opening;
        assert next.Actions() == opening + [ReleaseOutputs] + [SendCommitQuality(life.id, event.epoch + 1)];
      } else if event.PrepareAccepted? {
        assert life.Actions() == opening;
        assert next.Actions() == opening + [ReleaseOutputs];
      }
    } else {
      assert next == life;
    }
  }

  lemma LifeBegins(m: Machine, now: nat, event: Event) returns (newest: Life)
    requires Next(m, now, event).1 != [] && Next(m, now, event).1[0].SendPrepareQuality?
    ensures var (machine, actions) := Next(m, now, event);
            m.Settled() && Reads(machine, newest) && newest.Actions() == actions
            && newest.id == m.nextRequestId && newest.verdict.Pending?
  {
    assert event.Prepare?;
    newest := Life(m.nextRequestId, event.revision, event.mode, false, None, Pending);
  }

  lemma IdleStaysIdle(m: Machine, now: nat, event: Event)
    requires m.phase.Idle? && !(Next(m, now, event).1 != [] && Next(m, now, event).1[0].SendPrepareQuality?)
    ensures Next(m, now, event).0.phase.Idle? && Next(m, now, event).1 == []
  {
  }

  lemma {:induction false} PushLife(log: seq<Action>, lives: seq<Life>, machine: Machine, newest: Life)
    requires log == Flatten(lives)
    requires Sequential(lives) && Reads(machine, newest)
    requires lives != [] ==> lives[|lives| - 1].id < newest.id && !lives[|lives| - 1].verdict.Pending?
    ensures log + newest.Actions() == Flatten(lives + [newest])
    ensures Sequential(lives + [newest])
    ensures Tracks(machine, lives + [newest])
  {
    FlattenPush(lives, newest);
  }

  lemma {:induction false} UpdateLife(log: seq<Action>, lives: seq<Life>, machine: Machine, next: Life,
      actions: seq<Action>)
    requires log == Flatten(lives) && lives != [] && Sequential(lives) && Reads(machine, next)
    requires next.id == lives[|lives| - 1].id
    requires next.Actions() == lives[|lives| - 1].Actions() + actions
    ensures var after := lives[..|lives| - 1] + [next];
            log + actions == Flatten(after) && Sequential(after) && Tracks(machine, after)
  {
    hide Flatten;
    var front, last := lives[..|lives| - 1], lives[|lives| - 1];
    FlattenLast(lives);
    FlattenPush(front, next);
    assert log + actions == Flatten(front) + (last.Actions() + actions);
  }

  lemma FlattenLast(lives: seq<Life>)
    requires lives != []
    ensures Flatten(lives) == Flatten(lives[..|lives| - 1]) + lives[|lives| - 1].Actions()
  {
    hide *;
    var front, last := lives[..|lives| - 1], lives[|lives| - 1];
    assert lives == front + [last];
    FlattenPush(front, last);
  }

  lemma OneMoreEvent(run: Run, lives: seq<Life>, now: nat, event: Event,
                     machine: Machine, actions: seq<Action>) returns (after: seq<Life>)
    requires run.log == Flatten(lives) && Sequential(lives) && Tracks(run.machine, lives)
    requires (machine, actions) == Next(run.machine, now, event)
    ensures run.log + actions == Flatten(after) && Sequential(after) && Tracks(machine, after)
  {
    if actions != [] && actions[0].SendPrepareQuality? {
      var newest := LifeBegins(run.machine, now, event);
      PushLife(run.log, lives, machine, newest);
      after := lives + [newest];
    } else if lives == [] {
      IdleStaysIdle(run.machine, now, event);
      after := [];
      assert run.log + actions == run.log;
    } else {
      var last := lives[|lives| - 1];
      LifeAdvances(run.machine, last, now, event);
      var next := Advance(run.machine, last, now, event);
      UpdateLife(run.log, lives, machine, next, actions);
      after := lives[..|lives| - 1] + [next];
    }
  }

  lemma {:induction false} PlayTracks(events: seq<Timed>) returns (lives: seq<Life>)
    ensures Play(events).log == Flatten(lives) && Sequential(lives) && Tracks(Play(events).machine, lives)
  {
    if events == [] {
      lives := [];
    } else {
      var before := PlayTracks(events[..|events| - 1]);
      var last := events[|events| - 1];
      var run := Play(events[..|events| - 1]);
      var (machine, actions) := Next(run.machine, last.now, last.event);
      lives := OneMoreEvent(run, before, last.now, last.event, machine, actions);
    }
  }

  /** MAIN RESULT. The actions of any run are the actions of a sequence of lawful
      lives with increasing ids, only the last of which may be undecided: one
      release at most, always before Applied; one commit at most, right after
      the release; one verdict at most. */
  lemma EveryRunIsSequential(events: seq<Timed>)
    ensures exists lives :: Sequential(lives) && Play(events).log == Flatten(lives)
  {
    var lives := PlayTracks(events);
  }

  /** A commit answers exactly a pause for the pending request, with the epoch
      one past the paused one. */
  lemma CommitFollowsPause(m: Machine, now: nat, event: Event, id: u32, epoch: u32)
    ensures SendCommitQuality(id, epoch) in Next(m, now, event).1
      <==> && event.Paused? && event.requestId == id && event.epoch + 1 == epoch
           && m.phase.Preparing? && m.requestId == id
           && (m.epoch.Some? ==> m.epoch.value == event.epoch)
    ensures SendCommitQuality(id, epoch) in Next(m, now, event).1 ==>
      Next(m, now, event).1 == [ReleaseOutputs, SendCommitQuality(id, epoch)]
      && Next(m, now, event).0.epoch == Some(epoch)
  {
  }

  // ----- Deadlines -----

  /** A run with its clock: `armed` is when the deadline was last set, `arms`
      how often for the latest request, `looked` the last time it was compared,
      `busy` the time the latest request has spent under a deadline. */
  datatype Watch = Watch(machine: Machine, now: nat, armed: nat, arms: nat, looked: nat, busy: nat)

  const FirstWatch: Watch := Watch(Fresh, 0, 0, 0, 0, 0)

  function Observe(w: Watch, t: Timed): Watch
    requires w.now <= t.now
  {
    var machine := Next(w.machine, t.now, t.event).0;
    var spent := if w.machine.Busy() then w.busy + (t.now - w.now) else w.busy;
    if machine.requestId != w.machine.requestId then Watch(machine, t.now, t.now, 1, t.now, 0)
    else if machine.deadline.Some? && machine.deadline != w.machine.deadline then
      Watch(machine, t.now, t.now, w.arms + 1, t.now, spent)
    else Watch(machine, t.now, w.armed, w.arms, if t.event.DeadlineExceeded? then t.now else w.looked, spent)
  }

  /** Time never runs backwards and, while busy, an event comes within `gap` of
      the last comparison or arming. */
  ghost predicate Polled(w: Watch, t: Timed, gap: nat) {
    w.now <= t.now && (w.machine.Busy() ==> t.now <= w.looked + gap)
  }

  ghost predicate OnTime(w: Watch, gap: nat) {
    && (w.machine.deadline.Some? <==> w.machine.Busy())
    && w.machine.requestId < w.machine.nextRequestId
    && (w.machine.Busy() ==> w.arms >= 1)
    && w.armed <= w.looked <= w.now
    && (w.machine.Busy() ==>
      && w.machine.deadline == Some(w.armed + APPLY_DEADLINE_MS)
      && w.looked < w.armed + APPLY_DEADLINE_MS
      && w.now <= w.looked + gap)
    && (w.machine.phase.Preparing? ==> w.arms == 1 && w.busy == w.now - w.armed)
    && (w.machine.phase.Staged? ==> w.arms == 1)
    && w.arms <= 2
    && (w.arms == 1 && w.machine.Busy() ==> w.busy == w.now - w.armed)
    && (w.arms == 1 ==> w.busy <= APPLY_DEADLINE_MS + gap)
    && (w.arms == 2 && w.machine.Busy() ==> w.busy <= APPLY_DEADLINE_MS + gap + (w.now - w.armed))
    && w.busy <= 2 * (APPLY_DEADLINE_MS + gap)
  }

  lemma StaysOnTime(w: Watch, t: Timed, gap: nat)
    requires OnTime(w, gap) && Polled(w, t, gap)
    ensures OnTime(Observe(w, t), gap)
  {
  }

  function Watched(w: Watch, events: seq<Timed>): Watch
    requires Monotone(w.now, events)
    decreases |events|
  {
    if events == [] then w else Watched(Observe(w, events[0]), events[1..])
  }

  predicate Monotone(start: nat, events: seq<Timed>)
    decreases |events|
  {
    events != [] ==> start <= events[0].now && Monotone(events[0].now, events[1..])
  }

  ghost predicate AlwaysPolled(w: Watch, events: seq<Timed>, gap: nat)
    requires Monotone(w.now, events)
    decreases |events|
  {
    events != [] ==> Polled(w, events[0], gap) && AlwaysPolled(Observe(w, events[0]), events[1..], gap)
  }

  /** MAIN RESULT. A deadline exists exactly while busy; it is armed at most
      twice per request and only ever to five seconds ahead; a request is never
      busy for longer than two full deadlines and two polling gaps. */
  lemma {:induction false} DeadlineDiscipline(w: Watch, events: seq<Timed>, gap: nat)
    requires OnTime(w, gap) && Monotone(w.now, events) && AlwaysPolled(w, events, gap)
    ensures OnTime(Watched(w, events), gap)
    decreases |events|
  {
    if events != [] {
      StaysOnTime(w, events[0], gap);
      DeadlineDiscipline(Observe(w, events[0]), events[1..], gap);
    }
  }

  lemma DeadlinesFromTheStart(events: seq<Timed>, gap: nat)
    requires Monotone(0, events) && AlwaysPolled(FirstWatch, events, gap)
    ensures var w := Watched(FirstWatch, events);
            && (w.machine.deadline.Some? <==> w.machine.Busy())
            && w.arms <= 2
            && w.busy <= 2 * (APPLY_DEADLINE_MS + gap)
  {
    DeadlineDiscipline(FirstWatch, events, gap);
  }

  /** Leaving the human-staged wait is the only renewal: no other event moves a
      deadline that is already running. */
  lemma OnlyPrepareAndUnstagingArm(m: Machine, now: nat, event: Event)
    requires m.deadline.Some? <==> m.Busy()
    ensures var after := Next(m, now, event).0;
            after.deadline.Some? && after.deadline != m.deadline ==>
              && after.deadline == Some(now + APPLY_DEADLINE_MS)
              && ((m.Settled() && event.Prepare?) || m.phase.Staged?)
  {
  }

  // ----- Exhausted request ids -----

  /** A valid request to a settled machine is taken up exactly when an id is left:
      with the counter at its limit nothing is sent and nothing is reported. */
  lemma PreparedUnlessExhausted(m: Machine, now: nat, revision: u16, mode: Mode)
    requires m.Settled() && mode.width > 0 && mode.height > 0 && mode.fps > 0
    ensures Next(m, now, Prepare(revision, mode)).1 != [] <==> m.nextRequestId < U32_MAX
    ensures m.nextRequestId == U32_MAX ==> Next(m, now, Prepare(revision, mode)) == (m, [])
  {
  }

  /** Every failure names its cause, and ends the connection unless it came before the
      boundary or from the user. */
  lemma FailuresNameTheirCause(m: Machine, now: nat, event: Event, reason: Reason)
    ensures var failed := ReportFailed(reason) in Next(m, now, event).1;
            failed <==>
              match reason
              case EpochOverflow =>
                event == Paused(m.requestId, 0xFFFF_FFFF) && m.phase.Preparing?
                && (m.epoch.None? || m.epoch == Some(0xFFFF_FFFF))
              case ModeMismatch =>
                && (event.VideoConfig? || (event.CaptureStarted? && event.requestId == m.requestId))
                && m.requested != Some(event.mode)
                && (m.phase.Switching? || m.phase.Staged? || m.phase.AwaitingOutput?)
              case DeadlineExpired =>
                && event.DeadlineExceeded? && m.deadline.Some? && now >= m.deadline.value
                && (m.phase.Preparing? || m.phase.Switching? || m.phase.AwaitingOutput?)
              case Stopped => event.UserStop? && !m.phase.Idle? && !m.phase.Applied? && !m.phase.Failed?
              case PhoneRejected(code) =>
                event == Rejected(m.requestId, code) && !m.phase.Idle? && !m.phase.Applied? && !m.phase.Failed?
    ensures ReportFailed(reason) in Next(m, now, event).1 ==>
              && Next(m, now, event).0 == m.(phase := Failed, deadline := None)
              && Next(m, now, event).1
                 == [ReportFailed(reason)]
                    + (if reason.PhoneRejected? && (m.phase.Preparing? || m.phase.Staged?) then []
                       else if reason.Stopped? then [StopCapture]
                       else [StopCapture, CloseConnection])
  {
  }
}

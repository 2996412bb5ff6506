/** The parent process's side of a quality apply
    (host-rs/src/quality/client.rs, host-rs/src/session.rs). */
module QualityClient {
  import opened Basics
  import opened QualitySwitch
  import opened ModeResolver
  import opened WorkerLoop

  datatype Trouble = NotReady | Unsupported | Unexpected | Expired | Reported

  datatype View = View(
    offers: Option<seq<Offer>>, permission: Option<u8>,
    pending: Option<Offer>, staged: bool, applied: Option<Mode>,
    error: Option<Trouble>, migratedToAuto: bool,
    initialWish: Wish, initialChecked: bool)
  {
    predicate IsReady() { permission == Some(PERMISSION_READY) && offers.Some? && offers.value != [] }

    function Resolved(wish: Wish, aspect: Aspect): Option<Offer> {
      if offers.None? then None else Resolve(wish, offers.value, aspect)
    }
  }

  function NewView(wish: Wish): View { View(None, None, None, false, None, None, false, wish, false) }

  function BeginWish(v: View, wish: Wish, aspect: Aspect): (View, Option<Offer>) {
    if v.pending.Some? then (v, None)
    else if !v.IsReady() then (v.(error := Some(NotReady)), None)
    else
      var resolved := v.Resolved(wish, aspect);
      if resolved.None? then (v.(error := Some(Unsupported)), None)
      else
        var clean := v.(error := None, initialChecked := true);
        if v.applied == Some(resolved.value.mode) then (clean, None)
        else (clean.(pending := resolved, staged := false), resolved)
  }

  function Advertise(v: View, permission: u8, offers: seq<Offer>, aspect: Aspect): (View, Option<Offer>) {
    var told := v.(permission := Some(permission), offers := Some(UsableOnly(offers)));
    if !told.IsReady() || told.initialChecked then (told, None)
    else
      var checked := told.(initialChecked := true);
      if checked.Resolved(v.initialWish, aspect).Some? then BeginWish(checked, v.initialWish, aspect)
      else BeginWish(checked.(migratedToAuto := true, initialWish := AUTO), AUTO, aspect)
  }

  function ProgressTo(v: View, staged: bool): View {
    if v.pending.Some? then v.(staged := staged, applied := None) else v
  }

  function FailedView(v: View, trouble: Trouble): View { v.(pending := None, staged := false, error := Some(trouble)) }

  function Confirm(v: View, mode: Mode): (View, bool) {
    if v.pending.None? || v.pending.value.mode != mode then (FailedView(v, Unexpected), false)
    else (v.(applied := Some(mode), pending := None, staged := false, error := None), true)
  }

  function Disconnected(v: View): View {
    v.(offers := None, permission := None, pending := None, staged := false, applied := None)
  }

  // ----- The session around it -----

  datatype SessionState = Connecting | SessionWaiting | Streaming | Stopping | SessionFailed | Ended

  /** `slot` is the quality half of the one-slot mailbox to the writer thread. */
  datatype Parent = Parent(state: SessionState, view: View, watchdog: Option<nat>, slot: Option<Mode>, open: bool)

  /** A watchdog runs exactly while an apply is pending and not human-staged. */
  predicate Guarded(p: Parent) {
    && (p.watchdog.Some? <==> p.view.pending.Some? && !p.view.staged)
    && (p.view.staged ==> p.view.pending.Some?)
  }

  function Queue(p: Parent, now: nat, offer: Option<Offer>): Parent {
    if offer.None? then p
    else p.(watchdog := Some(now + APPLY_DEADLINE_MS), slot := Some(offer.value.mode))
  }

  function PrepareQuality(p: Parent, wish: Wish, now: nat, aspect: Aspect): Parent {
    if !p.open || p.state.Stopping? || p.state.SessionFailed? || p.view.pending.Some?
       || !p.view.IsReady() || p.view.Resolved(wish, aspect).None? then p
    else
      var (view, offer) := BeginWish(p.view, wish, aspect);
      Queue(p.(view := view), now, offer)
  }

  /** The end of a session, however it came: nothing pending survives it. */
  function Close(p: Parent, failed: bool): Parent {
    Parent(if failed || p.state.SessionFailed? then SessionFailed else Ended,
           Disconnected(p.view), None, p.slot, false)
  }

  function Hear(p: Parent, note: Note, now: nat, aspect: Aspect): Parent {
    if !p.open then p
    else if note.StoppedNote? then Close(p, false)
    else if p.state.Stopping? then p
    else
      match note
      case Waiting => p.(state := SessionWaiting)
      case Stats(active, submitted, mode) =>
        var live := active && submitted > 0;
        var view := if live && p.view.pending.None? then p.view.(applied := Some(mode)) else p.view;
        p.(view := view, state := if live then Streaming else SessionWaiting)
      case ErrorNote => p.(state := SessionFailed)
      case Capabilities(permission, offers) =>
        var (view, offer) := Advertise(p.view, permission, offers, aspect);
        Queue(p.(view := view), now, offer)
      case Progress(staged) =>
        var view := ProgressTo(p.view, staged);
        p.(view := view,
           watchdog := if staged then None
                       else if p.view.staged && view.pending.Some? then Some(now + APPLY_DEADLINE_MS)
                       else p.watchdog)
      case QualityApplied(mode) =>
        var (view, ok) := Confirm(p.view, mode);
        var heard := p.(watchdog := None, view := view);
        if ok then heard else Close(heard, true)
      case QualityFailed(terminal) =>
        var heard := p.(watchdog := None, view := FailedView(p.view, Reported));
        if terminal then Close(heard, true) else heard
      case _ => p
  }

  function Watch(p: Parent, now: nat): Parent {
    if p.open && p.watchdog.Some? && now >= p.watchdog.value then
      Close(p.(watchdog := None, view := FailedView(p.view, Expired)), true)
    else p
  }

  function StopPressed(p: Parent): Parent {
    if !p.open then p
    else p.(watchdog := None, view := p.view.(pending := None, staged := false), state := Stopping)
  }

  /** MAIN RESULT. No action of the parent ever leaves a pending, unstaged apply
      without a watchdog, or a watchdog without one. */
  lemma AlwaysGuarded(p: Parent, note: Note, wish: Wish, now: nat, aspect: Aspect)
    requires Guarded(p)
    ensures Guarded(Hear(p, note, now, aspect))
    ensures Guarded(PrepareQuality(p, wish, now, aspect))
    ensures Guarded(Watch(p, now))
    ensures Guarded(StopPressed(p))
    ensures Guarded(Close(p, true)) && Guarded(Close(p, false))
  {
    match note {
      case Capabilities(permission, offers) => AdvertiseBegins(p.view, permission, offers, aspect);
      case _ =>
    }
  }

  /** An advertisement starts at most one apply, and only from a clean slate. */
  lemma AdvertiseBegins(v: View, permission: u8, offers: seq<Offer>, aspect: Aspect)
    ensures var (view, offer) := Advertise(v, permission, offers, aspect);
            && (offer.Some? ==> v.pending.None? && view.pending == offer && !view.staged && !v.initialChecked)
            && (offer.None? ==> view.pending == v.pending && view.staged == v.staged)
            && (offer.Some? ==> offer.value in offers && Usable(offer.value))
            && (view.applied == v.applied)
  {
  }

  /** The first usable advertisement with permission always finds something to
      apply: the saved wish if it resolves, Auto otherwise. */
  lemma FirstAdvertisementApplies(v: View, permission: u8, offers: seq<Offer>, aspect: Aspect)
    requires !v.initialChecked && v.pending.None? && v.applied.None?
    requires permission == PERMISSION_READY && exists o :: o in offers && Usable(o)
    ensures var (view, offer) := Advertise(v, permission, offers, aspect);
            && offer.Some? && view.pending == offer
            && view.migratedToAuto == (v.migratedToAuto || Resolve(v.initialWish, UsableOnly(offers), aspect).None?)
            && offer == Resolve(if Resolve(v.initialWish, UsableOnly(offers), aspect).Some? then v.initialWish
              else AUTO,
                                UsableOnly(offers), aspect)
  {
    hide Pick;
    var o :| o in offers && Usable(o);
    var kept := UsableOnly(offers);
    assert o in kept;
    AutoResolves(kept, aspect);
  }

  /** The view, updated in place. */
  class Client {
    var offers: Option<seq<Offer>>
    var permission: Option<u8>
    var pending: Option<Offer>
    var staged: bool
    var applied: Option<Mode>
    var error: Option<Trouble>
    var migratedToAuto: bool
    var initialWish: Wish
    var initialChecked: bool

    function State(): View
      reads this
    {
      View(offers, permission, pending, staged, applied, error, migratedToAuto, initialWish, initialChecked)
    }

    constructor (wish: Wish)
      ensures State() == NewView(wish)
    {
      offers, permission, pending, staged, applied := None, None, None, false, None;
      error, migratedToAuto, initialWish, initialChecked := None, false, wish, false;
    }

    method BeginApply(wish: Wish, aspect: Aspect) returns (offer: Option<Offer>)
      modifies this
      ensures (State(), offer) == BeginWish(old(State()), wish, aspect)
    {
      if pending.Some? { return None; }
      if !State().IsReady() {
        error := Some(NotReady);
        return None;
      }
      var resolved := State().Resolved(wish, aspect);
      if resolved.None? {
        error := Some(Unsupported);
        return None;
      }
      error := None;
      initialChecked := true;
      if applied == Some(resolved.value.mode) { return None; }
      pending := resolved;
      staged := false;
      return resolved;
    }

    method OnAdvertise(heardPermission: u8, heardOffers: seq<Offer>, aspect: Aspect) returns (offer: Option<Offer>)
      modifies this
      ensures (State(), offer) == Advertise(old(State()), heardPermission, heardOffers, aspect)
    {
      permission := Some(heardPermission);
      offers := Some(UsableOnly(heardOffers));
      if !State().IsReady() || initialChecked { return None; }
      initialChecked := true;
      var wish := initialWish;
      if State().Resolved(initialWish, aspect).None? {
        migratedToAuto := true;
        initialWish := AUTO;
        wish := AUTO;
      }
      offer := BeginApply(wish, aspect);
    }

    method OnProgress(nowStaged: bool)
      modifies this
      ensures State() == ProgressTo(old(State()), nowStaged)
    {
      if pending.Some? {
        staged := nowStaged;
        applied := None;
      }
    }

    method OnFailed(trouble: Trouble)
      modifies this
      ensures State() == FailedView(old(State()), trouble)
    {
      pending := None;
      staged := false;
      error := Some(trouble);
    }

    method OnConfirmed(mode: Mode) returns (expected: bool)
      modifies this
      ensures (State(), expected) == Confirm(old(State()), mode)
    {
      if pending.None? || pending.value.mode != mode {
        OnFailed(Unexpected);
        return false;
      }
      applied := Some(mode);
      pending := None;
      staged := false;
      error := None;
      return true;
    }

    method OnDisconnected()
      modifies this
      ensures State() == Disconnected(old(State()))
    {
      offers, permission, pending, staged, applied := None, None, None, false, None;
    }
  }

  /** The session's fields, updated in place by `poll`, `stop` and the controls. */
  class Session {
    const quality: Client
    var state: SessionState
    var watchdog: Option<nat>
    var slot: Option<Mode>
    var open: bool

    function State(): Parent
      reads this, quality
    {
      Parent(state, quality.State(), watchdog, slot, open)
    }

    constructor (wish: Wish)
      ensures State() == Parent(Connecting, NewView(wish), None, None, true)
      ensures fresh(quality)
    {
      quality := new Client(wish);
      state, watchdog, slot, open := Connecting, None, None, true;
    }

    method QueueQuality(mode: Mode)
      modifies this`slot
      ensures slot == Some(mode)
    {
      slot := Some(mode);
    }

    method Prepare(wish: Wish, now: nat, aspect: Aspect) returns (accepted: bool)
      modifies this, quality
      ensures State() == PrepareQuality(old(State()), wish, now, aspect)
      ensures accepted <==>
        && old(open) && !old(state).Stopping? && !old(state).SessionFailed? && old(quality.pending).None?
        && old(quality.State()).IsReady() && old(quality.State()).Resolved(wish, aspect).Some?
      ensures !accepted ==> State() == old(State())
      ensures accepted && slot != old(slot) ==>
        quality.pending.Some? && slot == Some(quality.pending.value.mode) && watchdog == Some(now + APPLY_DEADLINE_MS)
    {
      if !open || state.Stopping? || state.SessionFailed? || quality.pending.Some?
         || !quality.State().IsReady() || quality.State().Resolved(wish, aspect).None? {
        return false;
      }
      var offer := quality.BeginApply(wish, aspect);
      if offer.Some? {
        watchdog := Some(now + APPLY_DEADLINE_MS);
        QueueQuality(offer.value.mode);
      }
      return true;
    }

    method Finish(failed: bool)
      modifies this, quality
      ensures State() == Close(old(State()), failed)
    {
      watchdog := None;
      quality.OnDisconnected();
      open := false;
      state := if failed || state.SessionFailed? then SessionFailed else Ended;
    }

    /** One event of `poll`. */
    method OnNote(note: Note, now: nat, aspect: Aspect)
      modifies this, quality
      ensures State() == Hear(old(State()), note, now, aspect)
      ensures old(open) && !old(state).Stopping? && note.QualityFailed? ==>
        open == !note.terminal && quality.pending.None? && watchdog.None? && quality.error == Some(Reported)
      ensures old(open) && !old(state).Stopping? && note.QualityApplied? ==>
        open == (old(quality.pending).Some? && old(quality.pending).value.mode == note.mode)
        && (open ==> quality.applied == Some(note.mode) && quality.pending.None? && watchdog.None?)
    {
      if !open { return; }
      if note.StoppedNote? {
        Finish(false);
        return;
      }
      if state.Stopping? { return; }
      match note {
        case Waiting => state := SessionWaiting;
        case Stats(active, submitted, mode) =>
          if active && submitted > 0 && quality.pending.None? { quality.applied := Some(mode); }
          state := if active && submitted > 0 then Streaming else SessionWaiting;
        case ErrorNote => state := SessionFailed;
        case Capabilities(permission, offers) =>
          var offer := quality.OnAdvertise(permission, offers, aspect);
          if offer.Some? {
            watchdog := Some(now + APPLY_DEADLINE_MS);
            QueueQuality(offer.value.mode);
          }
        case Progress(staged) =>
          var wasStaged := quality.staged;
          quality.OnProgress(staged);
          if staged {
            watchdog := None;
          } else if wasStaged && quality.pending.Some? {
            watchdog := Some(now + APPLY_DEADLINE_MS);
          }
        case QualityApplied(mode) =>
          watchdog := None;
          var expected := quality.OnConfirmed(mode);
          if !expected { Finish(true); }
        case QualityFailed(terminal) =>
          watchdog := None;
          quality.OnFailed(Reported);
          if terminal { Finish(true); }
        case _ =>
      }
    }

    method CheckWatchdog(now: nat)
      modifies this, quality
      ensures State() == Watch(old(State()), now)
    {
      if open && watchdog.Some? && now >= watchdog.value {
        watchdog := None;
        quality.OnFailed(Expired);
        Finish(true);
      }
    }

    method Stop()
      modifies this, quality
      ensures State() == StopPressed(old(State()))
    {
      if !open { return; }
      watchdog := None;
      quality.pending := None;
      quality.staged := false;
      state := Stopping;
    }
  }
}

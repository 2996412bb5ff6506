/** What the parent does with every line it hears while it listens, and with its own
    controls, field by field (host-rs/src/session.rs:355-461 and 468-520,
    host-rs/src/quality/client.rs). */
module ParentProgress {
  import opened Basics
  import opened QualitySwitch
  import opened ModeResolver
  import opened WorkerLoop
  import opened QualityClient

  predicate Listens(p: Parent) { p.open && !p.state.Stopping? }

  // ----- Verdicts -----

  /** A failure clears the apply and is kept as the error; it ends the session if and only
      if it is terminal. */
  lemma FailureEndsExactlyIfTerminal(p: Parent, terminal: bool, now: nat, aspect: Aspect)
    requires Listens(p)
    ensures var after := Hear(p, QualityFailed(terminal), now, aspect);
            && after.open == !terminal
            && after.state == (if terminal then SessionFailed else p.state)
            && after.watchdog == None && after.slot == p.slot
            && after.view.pending == None && !after.view.staged && after.view.error == Some(Reported)
            && after.view.offers == (if terminal then None else p.view.offers)
            && after.view.permission == (if terminal then None else p.view.permission)
            && after.view.applied == (if terminal then None else p.view.applied)
  {
  }

  /** The quality that was asked for keeps the session open and becomes the applied one. */
  lemma ExpectedQualityIsApplied(p: Parent, mode: Mode, now: nat, aspect: Aspect)
    requires Listens(p) && p.view.pending.Some? && p.view.pending.value.mode == mode
    ensures Hear(p, QualityApplied(mode), now, aspect)
         == p.(watchdog := None,
               view := p.view.(applied := Some(mode), pending := None, staged := false, error := None))
  {
  }

  /** Any other ends it as failed, with nothing left of the connection. */
  lemma UnexpectedQualityEnds(p: Parent, mode: Mode, now: nat, aspect: Aspect)
    requires Listens(p) && (p.view.pending.None? || p.view.pending.value.mode != mode)
    ensures Hear(p, QualityApplied(mode), now, aspect)
         == p.(open := false, state := SessionFailed, watchdog := None,
               view := p.view.(offers := None, permission := None, pending := None, staged := false, applied := None,
                               error := Some(Unexpected)))
  {
  }

  // ----- Reports of progress -----

  /** Being staged waits for a human and so without a watchdog; ceasing to be starts a new
      five seconds. Either way what was applied before is no longer shown. */
  lemma ProgressMovesTheWatchdog(p: Parent, staged: bool, now: nat, aspect: Aspect)
    requires Listens(p)
    ensures p.view.pending.Some? ==>
              Hear(p, Progress(staged), now, aspect)
              == p.(view := p.view.(staged := staged, applied := None),
                    watchdog := if staged then None
                                else if p.view.staged then Some(now + 5000)
                                else p.watchdog)
    ensures p.view.pending.None? ==>
              Hear(p, Progress(staged), now, aspect) == p.(watchdog := if staged then None else p.watchdog)
  {
  }

  /** Statistics show whether pictures flow. They name the mode as applied only while
      nothing is pending, for output of the old epoch may have the requested size. */
  lemma StatisticsShowTheStream(p: Parent, active: bool, submitted: nat, mode: Mode, now: nat, aspect: Aspect)
    requires Listens(p)
    ensures Hear(p, Stats(active, submitted, mode), now, aspect)
         == if active && submitted > 0 && p.view.pending.None?
            then p.(state := Streaming, view := p.view.(applied := Some(mode)))
            else if active && submitted > 0 then p.(state := Streaming)
            else p.(state := SessionWaiting)
  {
  }

  /** The remaining lines, and everything heard too late. */
  lemma OtherLinesMoveTheStateAlone(p: Parent, note: Note, now: nat, aspect: Aspect)
    ensures Listens(p) && note == Waiting ==> Hear(p, note, now, aspect) == p.(state := SessionWaiting)
    ensures Listens(p) && note == ErrorNote ==> Hear(p, note, now, aspect) == p.(state := SessionFailed)
    ensures Listens(p) && note == PairingInfo ==> Hear(p, note, now, aspect) == p
    ensures !p.open || (p.state.Stopping? && note != StoppedNote) ==> Hear(p, note, now, aspect) == p
  {
  }

  /** The last line ends the session; a failure told before it stays the state. */
  lemma StoppedEnds(p: Parent, now: nat, aspect: Aspect)
    requires p.open
    ensures Hear(p, StoppedNote, now, aspect)
         == p.(open := false, state := if p.state == SessionFailed then SessionFailed else Ended, watchdog := None,
               view := p.view.(offers := None, permission := None, pending := None, staged := false, applied := None))
  {
  }

  // ----- Offers and wishes -----

  /** An advertisement replaces what is known of the phone. Ready is a phone that grants
      permission and lists a mode this host can use. */
  lemma AdvertisementIsKept(v: View, permission: u8, offers: seq<Offer>, aspect: Aspect)
    ensures var view := Advertise(v, permission, offers, aspect).0;
            && view.permission == Some(permission) && view.offers.Some?
            && (forall o :: o in view.offers.value <==> o in offers && Usable(o))
            && (view.IsReady() <==> permission == 0 && exists o :: o in offers && Usable(o))
            && (view.initialChecked <==> v.initialChecked || view.IsReady())
  {
    var kept := UsableOnly(offers);
    if o :| o in offers && Usable(o) { assert o in kept; }
    if kept != [] { assert kept[0] in offers && Usable(kept[0]); }
    hide UsableOnly, Resolve;
  }

  /** Later ones, and those of a phone that is not ready, change nothing else. */
  lemma LaterAdvertisementsOnlyInform(p: Parent, permission: u8, offers: seq<Offer>, now: nat, aspect: Aspect)
    requires Listens(p)
    requires p.view.initialChecked || permission != 0 || !exists o :: o in offers && Usable(o)
    ensures var after := Hear(p, Capabilities(permission, offers), now, aspect);
            after == p.(view := p.view.(permission := Some(permission), offers := after.view.offers))
  {
    AdvertisementIsKept(p.view, permission, offers, aspect);
    hide UsableOnly, Resolve;
  }

  /** The first one that finds the phone ready opens an apply of the saved wish, or of
      Auto, in the mode the resolver picks. */
  lemma FirstAdvertisementOpens(p: Parent, permission: u8, offers: seq<Offer>, now: nat, aspect: Aspect)
    requires Listens(p) && !p.view.initialChecked && p.view.pending.None? && p.view.applied.None?
    requires permission == 0 && exists o :: o in offers && Usable(o)
    ensures var after := Hear(p, Capabilities(permission, offers), now, aspect);
            && after.open && after.state == p.state && after.view.error.None? && !after.view.staged
            && after.view.pending.Some? && after.view.pending.value in offers && Usable(after.view.pending.value)
            && after.slot == Some(after.view.pending.value.mode) && after.watchdog == Some(now + 5000)
  {
    FirstAdvertisementApplies(p.view, permission, offers, aspect);
    AdvertiseBegins(p.view, permission, offers, aspect);
    hide UsableOnly, Resolve;
  }

  /** A press of Apply that the guard lets through: the mode that is applied already only
      clears the error, any other becomes pending with five seconds to go. Every other
      press changes nothing. */
  lemma PressOpensAnApply(p: Parent, wish: Wish, now: nat, aspect: Aspect)
    ensures var able := Listens(p) && p.state != SessionFailed && p.view.pending.None? && p.view.permission == Some(0)
                        && p.view.offers.Some? && p.view.offers.value != []
                        && Resolve(wish, p.view.offers.value, aspect).Some?;
            var after := PrepareQuality(p, wish, now, aspect);
            if !able then after == p
            else
              var offer := Resolve(wish, p.view.offers.value, aspect).value;
              if p.view.applied == Some(offer.mode)
              then after == p.(view := p.view.(error := None, initialChecked := true))
              else after == p.(view := p.view.(error := None, initialChecked := true, pending := Some(offer),
                                               staged := false),
                               watchdog := Some(now + 5000), slot := Some(offer.mode))
  {
    hide Resolve;
  }

  /** A wish that cannot begin says why. */
  lemma RefusedWishesSayWhy(v: View, wish: Wish, aspect: Aspect)
    ensures v.pending.Some? ==> BeginWish(v, wish, aspect) == (v, None)
    ensures v.pending.None? && !v.IsReady() ==> BeginWish(v, wish, aspect) == (v.(error := Some(NotReady)), None)
    ensures v.pending.None? && v.IsReady() && Resolve(wish, v.offers.value, aspect).None? ==>
              BeginWish(v, wish, aspect) == (v.(error := Some(Unsupported)), None)
  {
    hide Resolve;
  }

  // ----- Time and the user -----

  /** The watchdog ends the session at its time and not before. */
  lemma WatchdogEndsInTime(p: Parent, now: nat)
    ensures p.open && p.watchdog.Some? && now >= p.watchdog.value ==>
              Watch(p, now)
              == p.(open := false, state := SessionFailed, watchdog := None,
                    view := p.view.(offers := None, permission := None, pending := None, staged := false,
                                    applied := None, error := Some(Expired)))
    ensures !p.open || p.watchdog.None? || now < p.watchdog.value ==> Watch(p, now) == p
  {
  }

  /** Stop leaves nothing pending and nothing to time out, and the connection as it is. */
  lemma StopClearsTheApply(p: Parent)
    requires p.open
    ensures StopPressed(p)
         == p.(state := Stopping, watchdog := None, view := p.view.(pending := None, staged := false))
  {
  }
}

/** The window's own reconnection fields, updated in place
    (host-rs/src/gui.rs:181-298, 980-1185, 1229-1270, 1390-1428), proved against
    Reconnect and its accounts. */
module ReconnectWindow {
  import opened Reconnect
  import opened ReconnectBound

  lemma ArmRetryIs(d: Desk, useful: bool, replug: bool)
    ensures var plan, after := PlanRetry(d.app, useful, replug), ArmRetry(d, useful, replug);
            && (plan.Stop? ==> after == d.(app := d.app.(timer := false, waiting := false, absentSeen := false)))
            && (plan.Exhausted? ==>
                  after == d.(app := d.app.(timer := false, waiting := false, absentSeen := false,
                                             retries := LIMIT + 1)))
            && (plan.WaitForDevice? ==>
                  var seen := SeeAbsence(d, d.app.absent);
                    after == seen.(app := seen.app.(waiting := true, timer := true)))
            && (plan.DialAgain? ==>
                  after == d.(app := d.app.(waiting := false, absentSeen := false, retries := plan.attempt,
                                             timer := true)))
  {
  }

  lemma DialIs(d: Desk, dial: Dial)
    ensures var after, wait, seen := DialNow(d, dial), !d.app.usb && d.app.waiting, !d.app.usb && d.app.absentSeen;
            && after.book == d.book.(dials := d.book.dials + 1, ever := d.book.ever + 1)
            && (dial.Started? ==>
                  after.app == d.app.(waiting := wait, absentSeen := seen, pending := true, timer := false,
                                      running := true, session := Connecting))
            && (dial.Refused? ==>
                  after.app == d.app.(waiting := wait, absentSeen := seen, pending := true,
                                      session := Failed(dial.useful, dial.replug)))
  {
  }

  lemma DialCounts(d: Desk, dial: Dial)
    ensures DialNow(d, dial).book.ever == d.book.ever + 1
    ensures var seen := SeeAbsence(d, d.app.absent);
            && seen.app == d.app.(absentSeen := d.app.absentSeen || d.app.absent) && seen.book.ever == d.book.ever
  {
  }

  lemma AutoConnectIs(d: Desk, dial: Dial)
    ensures var after, seen := AutoConnect(d, dial), SeeAbsence(d, d.app.absent);
            var may := UsbMayDial(seen.app.waiting, seen.app.absent, seen.app.absentSeen);
            && (d.app.running ==> after == d)
            && (!d.app.running && !d.app.usb ==> after == if d.app.paired then DialNow(d, dial) else d)
            && (!d.app.running && d.app.usb ==>
                  (!d.app.waiting && d.app.retries == 0 ==> after == d)
                  && (d.app.waiting || d.app.retries > 0 ==>
                       (may ==> after == DialNow(seen, dial))
                       && (!may ==> after == seen.(app := seen.app.(
                                               waiting := seen.app.waiting || seen.app.absent,
                                               timer := seen.app.timer || !seen.app.suppressed)))))
  {
    hide SeeAbsence, DialNow, UsbMayDial;
  }

  lemma ObserveIs(d: Desk)
    ensures var a, after := d.app, Observe(d);
            && (a.session.Live? ==>
                  after == Desk(a.(pending := false, retries := 0, timer := false, recover := true, waiting := false,
                                   absentSeen := false), Book(0, 0, d.book.ever)))
            && (a.session.Connecting? ==> after == d.(app := a.(pending := false, recover := true, timer := false)))
            && (a.session.Failed? ==>
                  after == if a.pending || a.recover
                           then ArmRetry(d.(app := a.(pending := false, recover := false)), a.session.useful,
                             a.session.replug)
                           else d)
            && (a.session.Idle? || a.session.Stopping? ==> after == d)
  {
    hide ArmRetry;
  }

  lemma UiIs(d: Desk, press: Press)
    ensures var a, after := d.app, Ui(d, press);
            && (press.NoPress? ==> after == d)
            && (press.Button? ==>
                  after == if !Allowed(a) then d else if a.running then Disconnect(d) else Connect(d, press.dial))
            && (press.SwitchToLan? ==>
                  after == d.(app := a.(switching := true, session := if a.running then Stopping else a.session)))
            && (press.Pick? ==> after == if a.running then d else d.(app := a.(usb := press.usb, session := Idle)))
            && (press.ChoosePhone? ==> after == if a.running || !a.usb then d else d.(app := a.(absent := false)))
    ensures d.app.running ==> Allowed(d.app)
  {
    hide Connect, Disconnect;
  }

  function Cleared(d: Desk): Desk {
    Desk(d.app.(suppressed := false, retries := 0, pending := true, waiting := false, absentSeen := false,
                recover := false), Book(0, 0, d.book.ever))
  }

  lemma ConnectIs(d: Desk, dial: Dial)
    ensures Connect(d, dial)
            == Cleared(d).(app := Cleared(d).app.(
                             running := dial.Started? || d.app.running,
                             session := if dial.Started? then Connecting else Failed(dial.useful, dial.replug)))
  {
    if dial.Started? {
    } else {
    }
  }

  class Window {
    var usb: bool
    var paired: bool
    var autoConnectAttempted: bool
    var autoRetry: bool
    var autoRetries: nat
    var autoRetrySuppressed: bool
    var autoAttemptPending: bool
    var recoverFromDrop: bool
    var usbWaitForDevice: bool
    var usbAbsentSeen: bool
    var deviceAbsent: bool
    var pendingSwitchToLan: bool
    var running: bool
    var state: Session
    var listing: Listing
    ghost var book: Book

    function Fields(): App
      reads this
    {
      App(usb, paired, autoConnectAttempted, autoRetry, autoRetries, autoRetrySuppressed, autoAttemptPending,
          recoverFromDrop, usbWaitForDevice, usbAbsentSeen, deviceAbsent, pendingSwitchToLan, running, state, listing)
    }

    ghost function View(): Desk
      reads this
    {
      Desk(Fields(), book)
    }

    /** What every frame keeps, and what it keeps unless the transport changes. */
    ghost predicate InOrder()
      reads this
    {
      Between(View()) && Fits(View(), Pressed)
    }

    constructor (overUsb: bool, isPaired: bool, absent: bool)
      ensures View() == Opening(overUsb, isPaired, absent) && InOrder()
    {
      usb, paired, deviceAbsent := overUsb, isPaired, absent;
      autoConnectAttempted, autoRetry, autoRetries, autoRetrySuppressed := false, false, 0, false;
      autoAttemptPending, recoverFromDrop, usbWaitForDevice, usbAbsentSeen := false, false, false, false;
      pendingSwitchToLan, running, state := false, false, Idle;
      listing := if overUsb then On else Off;
      book := Book(0, 0, 0);
      new;
      OpeningFits(overUsb, isPaired, absent);
    }

    method NoteAbsence()
      modifies this`usbAbsentSeen, this`book
      ensures View() == SeeAbsence(old(View()), deviceAbsent)
    {
      if deviceAbsent {
        if !usbAbsentSeen { book := book.(absences := book.absences + 1); }
        usbAbsentSeen := true;
      }
    }

    /** After a failure something is armed if and only if the failure can be retried,
        the user has not disconnected, and either the phone has to come back or a
        counted retry is left; it is a wait in exactly the first case. */
    method ArmRetryNow(useful: bool, replug: bool)
      modifies this
      ensures View() == ArmRetry(old(View()), useful, replug)
      ensures var mayRetry, away := useful && !old(autoRetrySuppressed), old(usb) && (old(deviceAbsent) || replug);
              && (autoRetry <==> mayRetry && (away || old(autoRetries) < LIMIT))
              && (usbWaitForDevice <==> mayRetry && away)
              && (old(autoRetries) <= LIMIT + 1 ==> autoRetries <= LIMIT + 1)
    {
      hide SeeAbsence, ArmRetry;
      ghost var was := View();
      var plan := PlanRetry(Fields(), useful, replug);
      ArmRetryIs(was, useful, replug);
      match plan {
        case Stop =>
          autoRetry, usbWaitForDevice, usbAbsentSeen := false, false, false;
        case Exhausted =>
          autoRetry, usbWaitForDevice, usbAbsentSeen := false, false, false;
          autoRetries := LIMIT + 1;
        case WaitForDevice =>
          NoteAbsence();
          usbWaitForDevice := true;
          autoRetry := true;
        case DialAgain(attempt) =>
          usbWaitForDevice, usbAbsentSeen := false, false;
          autoRetries := attempt;
          autoRetry := true;
      }
    }

    /** One attempt is made if and only if no session runs and the transport allows it:
        over USB a phone that is there and, after a replug was asked for, has been away;
        over Wi-Fi a pairing. A cold start over USB is left to the user. */
    method AutoConnectNow(dial: Dial)
      modifies this
      ensures View() == AutoConnect(old(View()), dial)
      ensures book.ever == old(book.ever)
                + Flag(!old(running)
                       && (if !old(usb) then old(paired)
                           else !old(deviceAbsent)
                                && (if old(usbWaitForDevice) then old(usbAbsentSeen) else old(autoRetries) > 0)))
    {
      hide SeeAbsence, DialNow, AutoConnect;
      AutoConnectIs(View(), dial);
      DialCounts(View(), dial);
      if running { return; }
      if usb {
        if !usbWaitForDevice && autoRetries == 0 { return; }
        NoteAbsence();
        DialCounts(View(), dial);
        if UsbMayDial(usbWaitForDevice, deviceAbsent, usbAbsentSeen) {
          StartDial(dial);
        } else {
          if deviceAbsent { usbWaitForDevice := true; }
          if !autoRetrySuppressed { autoRetry := true; }
        }
      } else if paired {
        StartDial(dial);
      }
    }

    method StartDial(dial: Dial)
      modifies this
      ensures View() == DialNow(old(View()), dial)
    {
      hide DialNow;
      DialIs(View(), dial);
      NoteAttempt();
      if dial.Started? { autoRetry := false; }
      SessionConnect(dial);
    }

    /** Over USB an attempt ends the wait. */
    method NoteAttempt()
      modifies this
      ensures View() == Desk(old(Fields()).(waiting := !usb && old(usbWaitForDevice),
                                            absentSeen := !usb && old(usbAbsentSeen), pending := true),
                             old(book).(dials := old(book.dials) + 1, ever := old(book.ever) + 1))
    {
      if usb { usbWaitForDevice, usbAbsentSeen := false, false; }
      book := book.(dials := book.dials + 1, ever := book.ever + 1);
      autoAttemptPending := true;
    }

    /** What the session makes of a dial. */
    method SessionConnect(dial: Dial)
      modifies this`running, this`state
      ensures View() == old(View()).(app := old(Fields()).(
                          running := dial.Started? || old(running),
                          session := if dial.Started? then Connecting else Failed(dial.useful, dial.replug)))
    {
      match dial {
        case Started => running, state := true, Connecting;
        case Refused(useful, replug) => state := Failed(useful, replug);
      }
    }

    method NoteVideo()
      modifies this
      ensures View() == Desk(old(Fields()).(pending := false, retries := 0, timer := false, recover := true,
                                            waiting := false, absentSeen := false),
                             Book(0, 0, old(book.ever)))
    {
      autoAttemptPending, autoRetries, autoRetry, recoverFromDrop := false, 0, false, true;
      usbWaitForDevice, usbAbsentSeen := false, false;
      book := Book(0, 0, book.ever);
    }

    method ObserveNow()
      modifies this
      ensures View() == Observe(old(View()))
    {
      hide Observe, ArmRetry;
      ObserveIs(View());
      match state {
        case Live =>
          NoteVideo();
        case Connecting =>
          autoAttemptPending, recoverFromDrop, autoRetry := false, true, false;
        case Failed(useful, replug) =>
          if autoAttemptPending || recoverFromDrop {
            autoAttemptPending, recoverFromDrop := false, false;
            ArmRetryNow(useful, replug);
          }
        case _ =>
      }
    }

    method CompleteSwitchNow(dial: Dial)
      modifies this
      ensures View() == CompleteSwitch(old(View()), dial)
    {
      if pendingSwitchToLan && !running {
        pendingSwitchToLan, usb := false, false;
        autoRetries, autoRetrySuppressed := 0, false;
        book := NewBook(Fields(), book.ever);
        AutoConnectNow(dial);
      }
    }

    method LaunchOrRetryNow(due: bool, dial: Dial)
      modifies this
      ensures View() == LaunchOrRetry(old(View()), due, dial)
    {
      if !autoConnectAttempted {
        autoConnectAttempted := true;
        AutoConnectNow(dial);
      } else if autoRetry && due {
        autoRetry := false;
        AutoConnectNow(dial);
      }
    }

    method ReconcileNow(absent: bool, dial: Dial)
      modifies this
      ensures View() == Reconcile(old(View()), absent, dial)
    {
      deviceAbsent := absent;
      if usbWaitForDevice && !deviceAbsent && !running && !autoRetrySuppressed { AutoConnectNow(dial); }
    }

    method DrainNow(absences: seq<bool>, dials: seq<Dial>)
      modifies this
      ensures View() == Drain(old(View()), absences, dials)
    {
      hide Reconcile;
      var lists := Delivered(listing, absences);
      if listing.Late? && lists != [] { listing := Off; }
      ghost var opened_ := View();
      var k := 0;
      while k < |lists|
        invariant 0 <= k <= |lists|
        invariant View() == ReconcileAll(opened_, lists[..k], dials)
      {
        assert lists[..k + 1][..k] == lists[..k];
        ReconcileNow(lists[k], DialAt(dials, k + 2));
        k := k + 1;
      }
      assert lists[..k] == lists;
    }

    method LogicNow(i: Input)
      modifies this
      ensures View() == Logic(old(View()), i)
    {
      hide Observe, CompleteSwitch, LaunchOrRetry, Drain;
      ObserveNow();
      NotePairing(i.paired);
      CompleteSwitchNow(DialAt(i.dials, 0));
      LaunchOrRetryNow(i.due, DialAt(i.dials, 1));
      Poll(i.polled, i.alive);
      DrainNow(i.absences, i.dials);
    }

    method NotePairing(isPaired: bool)
      modifies this`paired
      ensures View() == old(View()).(app := old(Fields()).(paired := isPaired))
    {
      paired := isPaired;
    }

    method Poll(polled: Session, alive: bool)
      modifies this`state, this`running
      ensures View() == old(View()).(app := old(Fields()).(session := polled, running := alive))
    {
      state, running := polled, alive;
    }

    method DisconnectNow()
      modifies this
      ensures View() == Disconnect(old(View()))
      ensures !autoRetry && !usbWaitForDevice && !autoAttemptPending && !recoverFromDrop && autoRetrySuppressed
    {
      autoRetry, autoRetrySuppressed, recoverFromDrop := false, true, false;
      usbWaitForDevice, usbAbsentSeen, autoAttemptPending := false, false, false;
      state := Stopping;
    }

    method ConnectNow(dial: Dial)
      modifies this
      ensures View() == Connect(old(View()), dial)
      ensures !usbWaitForDevice && autoRetries == 0 && !autoRetrySuppressed && book.dials == 0 && book.absences == 0
    {
      hide Connect;
      ConnectIs(View(), dial);
      ClearForConnect();
      SessionConnect(dial);
    }

    /** A deliberate press clears the earlier stop, the count and the wait. */
    method ClearForConnect()
      modifies this
      ensures View() == Cleared(old(View()))
    {
      autoRetrySuppressed, autoRetries, autoAttemptPending := false, 0, true;
      usbWaitForDevice, usbAbsentSeen, recoverFromDrop := false, false, false;
      book := Book(0, 0, book.ever);
    }

    /** Disconnect leaves nothing armed; Connect takes off the wait, the count and the
        suppression; picking a transport and asking for Wi-Fi leave armed what was. */
    method PressNow(press: Press)
      modifies this
      ensures View() == Ui(old(View()), press)
      ensures press.Button? && old(running) ==>
        !autoRetry && !usbWaitForDevice && !autoAttemptPending && !recoverFromDrop && autoRetrySuppressed
      ensures press.Button? && !old(running) && Allowed(old(Fields())) ==>
        !usbWaitForDevice && autoRetries == 0 && !autoRetrySuppressed && book.dials == 0 && book.absences == 0
      ensures press.Pick? || press.SwitchToLan? ==>
        && autoRetry == old(autoRetry) && usbWaitForDevice == old(usbWaitForDevice)
        && autoRetries == old(autoRetries) && autoRetrySuppressed == old(autoRetrySuppressed)
    {
      hide Ui, Connect, Disconnect, Allowed;
      UiIs(View(), press);
      match press {
        case NoPress =>
        case Button(dial) =>
          if !Allowed(Fields()) { return; }
          if running { DisconnectNow(); } else { ConnectNow(dial); }
        case SwitchToLan =>
          if running { state := Stopping; }
          pendingSwitchToLan := true;
        case Pick(overUsb) =>
          if !running { usb, state := overUsb, Idle; }
        case ChoosePhone =>
          if !running && usb { deviceAbsent := false; }
      }
    }

    /** One frame: logic, one press at most, and word to the listing thread. The accounts
        stay in order unless the frame changes the transport, and they are in order after
        any frame that shows video or takes a Connect press; in order, the window has made
        no more automatic dials than the bound allows. */
    method FrameNow(i: Input)
      requires Between(View())
      modifies this
      ensures View() == Frame(old(View()), i) && Between(View())
      ensures old(InOrder()) && !Changes(old(View()), i) ==> InOrder()
      ensures old(state).Live? && !Changes(old(View()), i) ==> InOrder()
      ensures PressesConnect(old(View()), i) ==> InOrder()
      ensures InOrder() ==> Bounded(book)
    {
      FrameKeeps(View(), i);
      hide Logic, Ui, TellListing, Between, Fits, Changes, PressesConnect, Bounded;
      LogicNow(i);
      PressNow(i.press);
      TellListingNow();
      if InOrder() { FitsBounds(View()); }
    }

    method TellListingNow()
      modifies this`listing
      ensures View() == TellListing(old(View()))
    {
      if usb { listing := On; } else if listing.On? { listing := Late; }
    }
  }
}

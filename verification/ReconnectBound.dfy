/** How many automatic dials a window can make (host-rs/src/gui.rs:181-298, 910-942,
    981-1185, 1245-1270). */
module ReconnectBound {
  import opened Reconnect

  // ----- Dials that are owed -----

  /** When a leftover timer or wait no longer counts because the next frame's first
      look clears or re-arms it: never while a frame is deciding; after a dial that
      failed at once otherwise; and after a Connect press too. */
  datatype Moment = Deciding | Decided | Pressed

  function Flag(b: bool): nat { if b then 1 else 0 }

  /** The dials that what is armed can still cause by itself: over USB a wait that has
      seen the phone leave or, without a wait, a timer once a retry has been made; over
      Wi-Fi a timer, and a wait while a device list is still on its way. */
  function Armed(a: App): nat {
    if !a.attempted then 1
    else if a.usb then (if a.waiting then Flag(a.absentSeen) else Flag(a.timer && a.retries > 0))
    else Flag(a.timer) + Flag(a.waiting && a.listing.Late?)
  }

  function Owed(a: App, moment: Moment): nat {
    if a.session.Failed? && a.pending && (moment.Pressed? || (moment.Decided? && !a.running)) then
      Flag(a.usb && a.absentSeen)
    else if a.session.Connecting? && moment.Pressed? then Armed(a.(timer := false))
    else Armed(a)
  }

  /** The counted retries so far; giving up leaves the counter one past the limit. */
  function Spent(a: App): nat { if a.retries <= LIMIT then a.retries else LIMIT }

  /** What is owed fits what is left: one dial for the launch or the switch, one for
      each retry counted so far, one for each absence observed. */
  predicate Fits(d: Desk, moment: Moment) {
    d.book.dials + Owed(d.app, moment) <= 1 + Spent(d.app) + d.book.absences
  }

  predicate Bounded(b: Book) { b.dials <= 1 + LIMIT + b.absences }

  // ----- Every reachable desk -----

  ghost predicate Orderly(d: Desk) {
    var a := d.app;
    && a.retries <= LIMIT + 1
    && (a.absentSeen ==> a.waiting)
    && (a.suppressed ==> !a.timer && !a.waiting)
    && (!a.attempted ==>
          && !a.timer && !a.waiting && !a.switching && !a.pending && !a.recover
          && a.retries == 0 && d.book.dials == 0)
  }

  ghost predicate Between(d: Desk) {
    && Orderly(d)
    && (d.app.usb <==> d.app.listing.On?)
    && (!d.app.attempted ==> d.app.session.Idle?)
  }

  // ----- One frame -----

  lemma SeeingFits(d: Desk, absent: bool)
    ensures var seen := SeeAbsence(d, absent);
            && seen.app == d.app.(absentSeen := d.app.absentSeen || absent)
            && seen.book == d.book.(absences := seen.book.absences)
            && seen.book.absences + Flag(d.app.absentSeen) == d.book.absences + Flag(seen.app.absentSeen)
  {
  }

  /** Deciding on a failure never makes more dials owed than it allows for. */
  ghost predicate ArmedFairly(d: Desk, armed: Desk) {
    && Orderly(armed) && armed.app.attempted && armed.book.dials == d.book.dials
    && Armed(armed.app) + Spent(d.app) + d.book.absences
       <= Flag(d.app.usb && d.app.absentSeen) + Spent(armed.app) + armed.book.absences
  }

  lemma GivingUpIsFair(d: Desk, retries: nat)
    requires Orderly(d) && d.app.attempted && retries <= LIMIT + 1 && d.app.retries <= retries
    ensures ArmedFairly(d, d.(app := d.app.(timer := false, waiting := false, absentSeen := false, retries := retries)))
  {
  }

  lemma RetryingIsFair(d: Desk)
    requires Orderly(d) && d.app.attempted && !d.app.suppressed && d.app.retries < LIMIT
    ensures ArmedFairly(d, d.(app := d.app.(waiting := false, absentSeen := false, retries := d.app.retries + 1,
                                            timer := true)))
  {
  }

  lemma WaitingIsFair(d: Desk)
    requires Orderly(d) && d.app.attempted && !d.app.suppressed && d.app.usb
    ensures var seen := SeeAbsence(d, d.app.absent);
            ArmedFairly(d, seen.(app := seen.app.(waiting := true, timer := true)))
  {
    SeeingFits(d, d.app.absent);
    hide SeeAbsence;
  }

  lemma ArmKeeps(d: Desk, useful: bool, replug: bool)
    requires Orderly(d) && d.app.attempted
    ensures ArmedFairly(d, ArmRetry(d, useful, replug))
  {
    match PlanRetry(d.app, useful, replug) {
      case Stop => GivingUpIsFair(d, d.app.retries);
      case Exhausted => GivingUpIsFair(d, LIMIT + 1);
      case WaitForDevice => WaitingIsFair(d);
      case DialAgain(_) => RetryingIsFair(d);
    }
    hide ArmedFairly, SeeAbsence;
  }

  lemma ArmSame(d: Desk, useful: bool, replug: bool)
    ensures var armed := ArmRetry(d, useful, replug).app;
            && armed.pending == d.app.pending && armed.switching == d.app.switching && armed.running == d.app.running
            && armed.usb == d.app.usb && armed.listing == d.app.listing
  {
    match PlanRetry(d.app, useful, replug) {
      case Stop =>
      case Exhausted =>
      case WaitForDevice =>
      case DialAgain(_) =>
    }
  }

  /** What the first look of a frame leaves alone, and what it settles. */
  ghost predicate Observed(d: Desk, after: Desk) {
    && Orderly(after) && after.app.attempted == d.app.attempted
    && after.app.switching == d.app.switching && after.app.running == d.app.running
    && after.app.usb == d.app.usb && after.app.listing == d.app.listing
    && (Fits(d, Pressed) || d.app.session.Live? ==> Fits(after, Deciding))
  }

  lemma FailureObserved(d: Desk)
    requires Orderly(d) && d.app.attempted && d.app.session.Failed? && (d.app.pending || d.app.recover)
    ensures Observed(d, Observe(d))
  {
    var calm := d.(app := d.app.(pending := false, recover := false));
    ArmKeeps(calm, d.app.session.useful, d.app.session.replug);
    ArmSame(calm, d.app.session.useful, d.app.session.replug);
    assert Observe(d) == ArmRetry(calm, d.app.session.useful, d.app.session.replug) by { hide ArmRetry; }
    assert Flag(d.app.usb && d.app.absentSeen) <= Owed(d.app, Pressed);
    hide Observe, ArmRetry, Armed;
  }

  lemma VideoObserved(d: Desk)
    requires Orderly(d) && d.app.attempted && d.app.session.Live?
    ensures Observed(d, Observe(d))
  {
  }

  lemma ConnectingObserved(d: Desk)
    requires Orderly(d) && d.app.attempted && d.app.session.Connecting?
    ensures Observed(d, Observe(d))
  {
  }

  lemma ObserveKeeps(d: Desk)
    requires Between(d)
    ensures Observed(d, Observe(d))
  {
    if d.app.session.Failed? && (d.app.pending || d.app.recover) {
      FailureObserved(d);
      hide *;
    } else if d.app.session.Live? {
      VideoObserved(d);
      hide *;
    } else if d.app.session.Connecting? {
      ConnectingObserved(d);
      hide *;
    } else {
      assert Observe(d) == d by { hide ArmRetry; }
      hide Observe;
    }
  }

  lemma DialKeeps(d: Desk, dial: Dial)
    requires Orderly(d) && d.app.attempted && !d.app.suppressed && !d.app.running
    ensures var after := DialNow(d, dial);
            && Orderly(after) && after.app.attempted && after.book.absences == d.book.absences
            && after.book.dials == d.book.dials + 1 && Spent(after.app) == Spent(d.app)
            && after.app.usb == d.app.usb && after.app.listing == d.app.listing
            && after.app.waiting == (!d.app.usb && d.app.waiting)
            && (after.app.timer ==> d.app.timer && after.app.session.Failed? && !after.app.running)
            && after.app.pending
  {
  }

  /** An attempt whose timer has just been taken off: the timer, or the launch, paid. */
  lemma AttemptKeeps(d: Desk, dial: Dial)
    requires Orderly(d) && d.app.attempted && !d.app.suppressed && !d.app.timer
    ensures var after := AutoConnect(d, dial);
            && Orderly(after) && after.app.attempted
            && after.app.usb == d.app.usb && after.app.listing == d.app.listing
            && Spent(after.app) == Spent(d.app)
            && after.book.dials + Armed(after.app) + d.book.absences
               <= d.book.dials + Armed(d.app.(timer := true)) + after.book.absences
  {
    if !d.app.running {
      if d.app.usb {
        SeeingFits(d, d.app.absent);
        var seen := SeeAbsence(d, d.app.absent);
        if UsbMayDial(seen.app.waiting, seen.app.absent, seen.app.absentSeen) { DialKeeps(seen, dial); }
        hide SeeAbsence, DialNow;
      } else {
        DialKeeps(d, dial);
        hide DialNow;
      }
    }
  }

  /** An attempt made because a list shows the phone: the wait pays. */
  lemma ReturnKeeps(d: Desk, dial: Dial)
    requires Orderly(d) && d.app.attempted && !d.app.suppressed && !d.app.absent && d.app.waiting && !d.app.running
    ensures var after := AutoConnect(d, dial);
            && Orderly(after) && after.app.attempted
            && after.app.usb == d.app.usb && after.app.listing == d.app.listing
            && Spent(after.app) == Spent(d.app) && after.book.absences == d.book.absences
            && (d.app.usb ==>
                  after.book.dials + Owed(after.app, Decided) <= d.book.dials + Flag(d.app.absentSeen))
            && (!d.app.usb && !d.app.listing.Late? ==>
                  after.book.dials + Owed(after.app, Decided) <= d.book.dials + 1 + Flag(d.app.timer))
  {
    DialKeeps(d, dial);
    hide DialNow;
  }

  /** What an attempt from the launch or from the timer leaves. */
  ghost predicate Tried(d: Desk, after: Desk) {
    && Orderly(after) && after.app.attempted
    && after.app.usb == d.app.usb && after.app.listing == d.app.listing
    && (Fits(d, Deciding) ==> Fits(after, Deciding))
  }

  lemma LaunchTried(d: Desk, dial: Dial)
    requires Orderly(d) && !d.app.attempted
    ensures Tried(d, AutoConnect(d.(app := d.app.(attempted := true)), dial))
  {
    FirstAttempt(d.(app := d.app.(attempted := true)), dial);
    hide AutoConnect;
  }

  lemma TimerTried(d: Desk, dial: Dial)
    requires Orderly(d) && d.app.attempted && d.app.timer
    ensures Tried(d, AutoConnect(d.(app := d.app.(timer := false)), dial))
  {
    AttemptKeeps(d.(app := d.app.(timer := false)), dial);
    assert d.app.(timer := false).(timer := true) == d.app;
    hide AutoConnect, Armed;
  }

  lemma LaunchKeeps(d: Desk, due: bool, dial: Dial)
    requires Orderly(d)
    ensures var after := LaunchOrRetry(d, due, dial);
            && Orderly(after) && after.app.attempted
            && after.app.usb == d.app.usb && after.app.listing == d.app.listing
            && (Fits(d, Deciding) ==> Fits(after, Deciding))
  {
    if !d.app.attempted { LaunchTried(d, dial); } else if d.app.timer { TimerTried(d, dial); }
    hide AutoConnect, Orderly, Fits;
  }

  lemma FirstAttempt(d: Desk, dial: Dial)
    requires Orderly(d) && d.app.attempted && !d.app.timer && !d.app.waiting && d.app.retries == 0
    ensures var after := AutoConnect(d, dial);
            && Orderly(after) && after.app.attempted
            && after.app.usb == d.app.usb && after.app.listing == d.app.listing
            && after.app.retries == 0 && after.book.absences == d.book.absences
            && after.book.dials <= d.book.dials + 1 && Armed(after.app) == 0
  {
  }

  lemma SwitchKeeps(d: Desk, dial: Dial)
    requires Orderly(d)
    ensures var after := CompleteSwitch(d, dial);
            && Orderly(after) && after.app.attempted == d.app.attempted && after.app.listing == d.app.listing
            && (!d.app.switching || d.app.running ==> after == d)
            && (d.app.switching && !d.app.running ==> !after.app.usb)
  {
    if d.app.switching && !d.app.running {
      var a := d.app.(switching := false, usb := false, retries := 0, suppressed := false);
      var reset := Desk(a, NewBook(a, d.book.ever));
      if a.paired { DialKeeps(reset, dial); }
      hide DialNow;
    }
  }

  // ----- The lists of one frame -----

  lemma ReconcileKeeps(d: Desk, absent: bool, dial: Dial)
    requires Orderly(d) && d.app.attempted
    ensures var after := Reconcile(d, absent, dial);
            && Orderly(after) && after.app.attempted
            && after.app.usb == d.app.usb && after.app.listing == d.app.listing
            && (d.app.usb && Fits(d, Decided) ==> Fits(after, Decided))
            && (!d.app.usb && !d.app.listing.Late? ==>
                  (d.book.dials + Flag(d.app.waiting) + Armed(d.app) <= 1 + Spent(d.app) + d.book.absences ==>
                    Fits(after, Decided)))
  {
    var seen := d.(app := d.app.(absent := absent));
    if seen.app.waiting && !absent && !seen.app.running && !seen.app.suppressed {
      ReturnKeeps(seen, dial);
      assert d.app.usb ==> Owed(seen.app, Decided) == Flag(d.app.absentSeen);
      hide AutoConnect;
    }
  }

  lemma {:induction false} ReconcileAllKeeps(d: Desk, absences: seq<bool>, dials: seq<Dial>)
    requires Orderly(d) && d.app.attempted
    ensures var after := ReconcileAll(d, absences, dials);
            && Orderly(after) && after.app.attempted
            && after.app.usb == d.app.usb && after.app.listing == d.app.listing
            && (d.app.usb && Fits(d, Decided) ==> Fits(after, Decided))
  {
    hide Reconcile, Orderly, Fits;
    if absences != [] {
      ReconcileAllKeeps(d, absences[..|absences| - 1], dials);
      ReconcileKeeps(ReconcileAll(d, absences[..|absences| - 1], dials), absences[|absences| - 1],
                     DialAt(dials, |absences| + 1));
    }
  }

  lemma ArmedCovers(d: Desk, moment: Moment)
    requires Orderly(d) && d.app.attempted
    ensures Owed(d.app, moment) <= Armed(d.app)
  {
  }

  /** What the lists of one frame keep. */
  ghost predicate Drained(d: Desk, after: Desk) {
    && Orderly(after) && after.app.attempted && after.app.usb == d.app.usb
    && (d.app.listing.On? <==> after.app.listing.On?)
    && ((d.app.usb <==> d.app.listing.On?) && Fits(d, Deciding) ==> Fits(after, Decided))
  }

  lemma LateListDrained(d: Desk, absent: bool, dial: Dial)
    requires Orderly(d) && d.app.attempted && d.app.listing.Late?
    ensures Drained(d, Reconcile(d.(app := d.app.(listing := Off)), absent, dial))
  {
    ReconcileKeeps(d.(app := d.app.(listing := Off)), absent, dial);
    hide Reconcile;
  }

  lemma ListsDrained(d: Desk, lists: seq<bool>, dials: seq<Dial>)
    requires Orderly(d) && d.app.attempted && (!d.app.listing.On? ==> lists == [])
    ensures Drained(d, ReconcileAll(d, lists, dials))
  {
    ArmedCovers(d, Decided);
    assert Owed(d.app, Deciding) == Armed(d.app);
    ReconcileAllKeeps(d, lists, dials);
    hide ReconcileAll, Armed, Owed, Orderly;
    if lists == [] { assert ReconcileAll(d, lists, dials) == d by { NoLists(d, dials); } }
  }

  lemma NoLists(d: Desk, dials: seq<Dial>)
    ensures ReconcileAll(d, [], dials) == d
  {
  }

  lemma DrainKeeps(d: Desk, absences: seq<bool>, dials: seq<Dial>)
    requires Orderly(d) && d.app.attempted
    ensures Drained(d, Drain(d, absences, dials))
  {
    hide Orderly, Drained, ReconcileAll, Reconcile;
    var lists := Delivered(d.app.listing, absences);
    if d.app.listing.Late? && lists != [] {
      var off := d.(app := d.app.(listing := Off));
      OneList(off, lists[0], dials);
      assert lists == [lists[0]];
      LateListDrained(d, lists[0], DialAt(dials, 2));
    } else {
      ListsDrained(d, lists, dials);
    }
  }

  lemma OneList(d: Desk, absent: bool, dials: seq<Dial>)
    ensures ReconcileAll(d, [absent], dials) == Reconcile(d, absent, DialAt(dials, 2))
  {
    assert [absent][..0] == [];
    NoLists(d, dials);
    hide Reconcile;
  }

  // ----- The press -----

  lemma ButtonKeeps(d: Desk, dial: Dial)
    requires Orderly(d) && d.app.attempted
    ensures Orderly(Disconnect(d)) && (Fits(d, Decided) ==> Fits(Disconnect(d), Pressed))
    ensures Orderly(Connect(d, dial)) && Fits(Connect(d, dial), Pressed)
  {
  }

  lemma SwitchPressKeeps(d: Desk)
    requires Orderly(d) && d.app.attempted
    ensures Orderly(Ui(d, SwitchToLan)) && (Fits(d, Decided) ==> Fits(Ui(d, SwitchToLan), Pressed))
  {
    StopsOwingArmed(d.app);
    LaterOwesLess(d);
    hide Armed;
  }

  lemma StopsOwingArmed(a: App)
    ensures Armed(a.(switching := true, session := Stopping)) == Armed(a)
    ensures Armed(a.(switching := true)) == Armed(a)
    ensures Armed(a.(switching := true, timer := false)) == Armed(a.(timer := false))
  {
  }

  /** What any press but a pick keeps. */
  ghost predicate Kept(d: Desk, after: Desk) {
    && Orderly(after) && after.app.attempted && after.app.listing == d.app.listing && after.app.usb == d.app.usb
    && (Fits(d, Decided) ==> Fits(after, Pressed))
  }

  lemma StandsKept(d: Desk)
    requires Orderly(d) && d.app.attempted
    ensures Kept(d, d) && Kept(d, d.(app := d.app.(absent := false)))
  {
    if Fits(d, Decided) { StandsPressed(d); }
    hide Fits;
  }

  lemma ButtonKept(d: Desk, dial: Dial)
    requires Orderly(d) && d.app.attempted
    ensures Kept(d, Disconnect(d)) && Kept(d, Connect(d, dial))
  {
    ButtonKeeps(d, dial);
    hide Fits, Orderly;
  }

  lemma PressKeeps(d: Desk, press: Press)
    requires Orderly(d) && d.app.attempted && !press.Pick?
    ensures Kept(d, Ui(d, press))
  {
    StandsKept(d);
    match press {
      case NoPress =>
      case Button(dial) => ButtonKept(d, dial);
      case SwitchToLan => SwitchPressKeeps(d);
      case ChoosePhone =>
    }
    hide Disconnect, Connect, Fits, Orderly;
  }

  lemma PickKeeps(d: Desk, usb: bool)
    requires Orderly(d) && d.app.attempted
    ensures var after := Ui(d, Pick(usb));
            && Orderly(after) && after.app.attempted && after.app.listing == d.app.listing
            && after.book == d.book && Spent(after.app) == Spent(d.app)
  {
  }

  lemma StandsPressed(d: Desk)
    requires Orderly(d) && d.app.attempted && Fits(d, Decided)
    ensures Fits(d, Pressed) && Fits(d.(app := d.app.(absent := false)), Pressed)
  {
    LaterOwesLess(d);
    assert Owed(d.app.(absent := false), Pressed) == Owed(d.app, Pressed);
    hide Owed;
  }

  lemma LaterOwesLess(d: Desk)
    requires Orderly(d) && d.app.attempted
    ensures Owed(d.app, Pressed) <= Owed(d.app, Decided)
  {
  }

  // ----- A whole frame -----

  predicate Completes(d: Desk) { d.app.switching && !d.app.running }

  /** The transport changes: a switch completes, or one is picked by hand. */
  predicate Changes(d: Desk, i: Input) { Completes(d) || i.press.Pick? }

  predicate PressesConnect(d: Desk, i: Input) {
    i.press.Button? && Allowed(Logic(d, i).app) && !Logic(d, i).app.running
  }

  lemma LogicKeeps(d: Desk, i: Input)
    requires Between(d)
    ensures var l := Logic(d, i);
            && Orderly(l) && l.app.attempted && (l.app.listing.On? <==> d.app.listing.On?)
            && (!Completes(d) ==> l.app.usb == d.app.usb)
            && (!Completes(d) && (Fits(d, Pressed) || d.app.session.Live?) ==> Fits(l, Decided))
  {
    hide Observe, CompleteSwitch, LaunchOrRetry, Drain, Orderly, Fits;
    ObserveKeeps(d);
    assert Orderly(d) && (d.app.usb <==> d.app.listing.On?);
    hide Between;
    var observed := Observe(d);
    OutsideKeeps(observed, i);
    var paired := observed.(app := observed.app.(paired := i.paired));
    SwitchKeeps(paired, DialAt(i.dials, 0));
    var switched := CompleteSwitch(paired, DialAt(i.dials, 0));
    LaunchKeeps(switched, i.due, DialAt(i.dials, 1));
    var tried := LaunchOrRetry(switched, i.due, DialAt(i.dials, 1));
    OutsideKeeps(tried, i);
    var polled := tried.(app := tried.app.(session := i.polled, running := i.alive));
    DrainKeeps(polled, i.absences, i.dials);
  }

  /** What the outside reports owes nothing while a frame is deciding. */
  lemma OutsideKeeps(d: Desk, i: Input)
    requires Orderly(d)
    ensures var paired := d.(app := d.app.(paired := i.paired));
            Orderly(paired) && (Fits(d, Deciding) ==> Fits(paired, Deciding))
    ensures var polled := d.(app := d.app.(session := i.polled, running := i.alive));
            Orderly(polled) && (Fits(d, Deciding) ==> Fits(polled, Deciding))
  {
  }

  lemma FrameKeeps(d: Desk, i: Input)
    requires Between(d)
    ensures Between(Frame(d, i))
    ensures !Changes(d, i) && (Fits(d, Pressed) || d.app.session.Live?) ==> Fits(Frame(d, i), Pressed)
    ensures PressesConnect(d, i) ==> Fits(Frame(d, i), Pressed)
  {
    LogicKeeps(d, i);
    var l := Logic(d, i);
    hide Logic;
    if i.press.Pick? {
      PickKeeps(l, i.press.usb);
    } else {
      PressKeeps(l, i.press);
      if PressesConnect(d, i) { ConnectFits(l, i.press.dial); }
    }
    hide Ui;
  }

  /** A Connect press leaves nothing owed, whatever was armed and whichever transport. */
  lemma ConnectFits(d: Desk, dial: Dial)
    requires Orderly(d) && d.app.attempted && Allowed(d.app) && !d.app.running
    ensures Fits(TellListing(Ui(d, Button(dial))), Pressed)
  {
  }

  // ----- Whole runs -----

  /** Whenever the transport changes, what is then owed still fits. */
  ghost predicate Careful(d: Desk, inputs: seq<Input>) {
    inputs != [] ==>
      && Careful(d, inputs[..|inputs| - 1])
      && (Changes(Run(d, inputs[..|inputs| - 1]), inputs[|inputs| - 1]) ==> Fits(Run(d, inputs), Pressed))
  }

  lemma OpeningFits(usb: bool, paired: bool, absent: bool)
    ensures Between(Opening(usb, paired, absent)) && Fits(Opening(usb, paired, absent), Pressed)
  {
  }

  lemma {:induction false} RunKeeps(d: Desk, inputs: seq<Input>)
    requires Between(d)
    ensures Between(Run(d, inputs))
    ensures Fits(d, Pressed) && Careful(d, inputs) ==> Fits(Run(d, inputs), Pressed)
  {
    hide Frame, Between, Fits, Changes;
    if inputs != [] {
      RunKeeps(d, inputs[..|inputs| - 1]);
      FrameKeeps(Run(d, inputs[..|inputs| - 1]), inputs[|inputs| - 1]);
    }
  }

  lemma FitsBounds(d: Desk)
    requires Fits(d, Pressed)
    ensures Bounded(d.book)
  {
  }

  /** MAIN RESULT: between two resets - video arriving, a Connect press, a Wi-Fi switch
      - automatic dials never exceed one for the launch or the switch, eight counted
      retries, and one per observed absence of the phone. It holds from every reachable
      desk at which what is owed fits, and the window opens at one, as long as no change
      of transport leaves more owed than fits. */
  lemma DialsAreBounded(usb: bool, paired: bool, absent: bool, before: seq<Input>, inputs: seq<Input>)
    requires Fits(Run(Opening(usb, paired, absent), before), Pressed)
    requires Careful(Run(Opening(usb, paired, absent), before), inputs)
    ensures Fits(Opening(usb, paired, absent), Pressed)
    ensures var d := Run(Run(Opening(usb, paired, absent), before), inputs);
            Fits(d, Pressed) && Bounded(d.book)
  {
    OpeningFits(usb, paired, absent);
    RunKeeps(Opening(usb, paired, absent), before);
    RunKeeps(Run(Opening(usb, paired, absent), before), inputs);
    hide Run, Owed;
  }

  /** Whatever went before, the accounts are in order again once video has been seen or
      Connect has been pressed, and a Wi-Fi switch that finds nothing armed keeps them so. */
  lemma OrderReturns(usb: bool, paired: bool, absent: bool, before: seq<Input>, i: Input)
    ensures var d := Run(Opening(usb, paired, absent), before);
            && (d.app.session.Live? && !Changes(d, i) ==> Fits(Frame(d, i), Pressed))
            && (PressesConnect(d, i) ==> Fits(Frame(d, i), Pressed))
            && (Completes(d) && !i.press.Pick? && !Observe(d).app.timer && !Observe(d).app.waiting ==>
                  Fits(Frame(d, i), Pressed))
  {
    OpeningFits(usb, paired, absent);
    RunKeeps(Opening(usb, paired, absent), before);
    var d := Run(Opening(usb, paired, absent), before);
    FrameKeeps(d, i);
    if Completes(d) && !i.press.Pick? && !Observe(d).app.timer && !Observe(d).app.waiting { BareSwitchFits(d, i); }
    hide *;
  }

  /** On Wi-Fi with nothing armed and nothing dialled but the switch. */
  ghost predicate Bare(d: Desk) {
    && Orderly(d) && d.app.attempted && !d.app.usb && !d.app.timer && !d.app.waiting
    && d.app.retries == 0 && d.book.dials <= 1
  }

  lemma BareSwitchFits(d: Desk, i: Input)
    requires Between(d) && Completes(d) && !i.press.Pick? && !Observe(d).app.timer && !Observe(d).app.waiting
    ensures Fits(Frame(d, i), Pressed)
  {
    ObserveKeeps(d);
    var observed := Observe(d);
    assert d.app.attempted;
    hide Observe;
    OutsideKeeps(observed, i);
    var paired := observed.(app := observed.app.(paired := i.paired));
    SwitchAlone(paired, DialAt(i.dials, 0));
    var switched := CompleteSwitch(paired, DialAt(i.dials, 0));
    hide CompleteSwitch;
    assert LaunchOrRetry(switched, i.due, DialAt(i.dials, 1)) == switched;
    OutsideKeeps(switched, i);
    var polled := switched.(app := switched.app.(session := i.polled, running := i.alive));
    DrainIdle(polled, i.absences, i.dials);
    hide LaunchOrRetry, Drain;
    var l := Logic(d, i);
    hide Logic;
    SilentPress(l, i.press);
    hide Ui;
  }

  lemma SwitchAlone(d: Desk, dial: Dial)
    requires Orderly(d) && d.app.attempted && Completes(d) && !d.app.timer && !d.app.waiting
    ensures Bare(CompleteSwitch(d, dial))
  {
  }

  lemma {:induction false} ReconcileIdle(d: Desk, absences: seq<bool>, dials: seq<Dial>)
    requires Bare(d)
    ensures Bare(ReconcileAll(d, absences, dials))
  {
    if absences != [] { ReconcileIdle(d, absences[..|absences| - 1], dials); }
    hide AutoConnect;
  }

  lemma DrainIdle(d: Desk, absences: seq<bool>, dials: seq<Dial>)
    requires Bare(d)
    ensures Bare(Drain(d, absences, dials))
  {
    var lists := Delivered(d.app.listing, absences);
    ReconcileIdle(d, lists, dials);
    ReconcileIdle(d.(app := d.app.(listing := Off)), lists, dials);
    hide ReconcileAll, Delivered, Bare;
  }

  lemma SilentPress(d: Desk, press: Press)
    requires Bare(d) && !press.Pick?
    ensures Fits(TellListing(Ui(d, press)), Pressed)
  {
    PressKeeps(d, press);
    BareFits(d);
    var after := Ui(d, press);
    assert !after.app.waiting && !after.app.usb by { hide Fits, Orderly; }
    SilentListing(after);
    hide Ui, Fits;
  }

  lemma BareFits(d: Desk)
    requires Bare(d)
    ensures Fits(d, Decided)
  {
  }

  /** A list still on its way owes nothing when no one waits for it. */
  lemma SilentListing(d: Desk)
    requires !d.app.waiting && !d.app.usb && Fits(d, Pressed)
    ensures Fits(TellListing(d), Pressed)
  {
    var after := TellListing(d);
    assert Armed(after.app) == Armed(d.app) && Armed(after.app.(timer := false)) == Armed(d.app.(timer := false));
    hide Armed;
  }
}

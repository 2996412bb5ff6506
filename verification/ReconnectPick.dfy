/** Picking a transport by hand while a reconnection is under way
    (host-rs/src/gui.rs:181-298, 1117-1185, 1245-1270): exactly when the bound on
    automatic dials survives it. */
module ReconnectPick {
  import opened Reconnect
  import opened ReconnectBound

  // ----- Runs that use up everything -----

  function Refusals(): seq<Dial> { [Refused(true, false), Refused(true, false), Refused(true, false)] }

  /** The timer is due; the dial fails in a way that can be retried. */
  function TimerFails(): Input { Input(true, true, Refusals(), Failed(true, false), false, [], NoPress) }

  /** The timer is due; the dial starts a worker. */
  function TimerStarts(): Input { Input(true, true, [], Connecting, true, [], NoPress) }

  /** No worker runs, or the last one ends without an error, and a device list arrives
      that shows the phone; a dial would fail in a way that can be retried. */
  function PhoneListed(): Input { Input(true, false, Refusals(), Idle, false, [false], NoPress) }

  function Repeat(n: nat): seq<Input> { if n == 0 then [] else Repeat(n - 1) + [TimerFails()] }

  /** A dial has just failed, and another can follow. */
  predicate Failing(d: Desk) {
    && d.app.attempted && d.app.pending && d.app.session == Failed(true, false)
    && !d.app.running && !d.app.suppressed && !d.app.switching
    && (d.app.usb ==> !d.app.absent)
  }

  /** `after` has made `more` dials, and nothing else was counted. */
  predicate Dialled(d: Desk, after: Desk, more: nat) {
    && Failing(after) && after.app.retries == d.app.retries
    && after.book.dials == d.book.dials + more && after.book.absences == d.book.absences
  }

  lemma RetryArms(d: Desk)
    requires Failing(d) && d.app.retries < LIMIT
    ensures Observe(d) == d.(app := d.app.(pending := false, recover := false, waiting := false, absentSeen := false,
                                           retries := d.app.retries + 1, timer := true))
  {
  }

  lemma TimerDials(d: Desk)
    requires d.app.attempted && d.app.timer && !d.app.running && !d.app.suppressed && d.app.paired
    requires d.app.usb ==> !d.app.waiting && d.app.retries > 0 && !d.app.absent
    ensures var after := LaunchOrRetry(d, true, Refused(true, false));
            && after.book.dials == d.book.dials + 1 && after.book.absences == d.book.absences
            && after.app == d.app.(timer := false, pending := true, session := Failed(true, false),
                                   waiting := after.app.waiting, absentSeen := after.app.absentSeen)
  {
  }

  lemma QuietDrain(d: Desk, dials: seq<Dial>)
    ensures Drain(d, [], dials) == d
  {
    NoLists(d, dials);
  }

  lemma NoSwitch(d: Desk, dial: Dial)
    requires !d.app.switching
    ensures CompleteSwitch(d, dial) == d
  {
  }

  /** One frame in which the timer is due and the dial fails at once. */
  lemma TimerFrame(d: Desk)
    requires var o := Observe(d);
             && o.app.attempted && o.app.timer && !o.app.running && !o.app.suppressed && !o.app.switching
             && (o.app.usb ==> !o.app.waiting && o.app.retries > 0 && !o.app.absent)
    ensures Dialled(Observe(d), Frame(d, TimerFails()), 1)
  {
    var o, i := Observe(d), TimerFails();
    var paired := o.(app := o.app.(paired := true));
    hide Observe;
    NoSwitch(paired, DialAt(i.dials, 0));
    hide CompleteSwitch;
    TimerDials(paired);
    var tried := LaunchOrRetry(paired, true, Refused(true, false));
    hide LaunchOrRetry;
    QuietDrain(tried.(app := tried.app.(session := Failed(true, false), running := false)), i.dials);
    hide Drain;
  }

  lemma RetryFrame(d: Desk)
    requires Failing(d) && d.app.retries < LIMIT
    ensures var after := Frame(d, TimerFails());
            && Failing(after) && after.app.retries == d.app.retries + 1
            && after.book.dials == d.book.dials + 1 && after.book.absences == d.book.absences
  {
    RetryArms(d);
    TimerFrame(d);
    hide Observe, Frame;
  }

  /** Every retry that is left can be made to dial. */
  lemma {:induction false} RetriesDial(d: Desk, n: nat)
    requires Failing(d) && (n > 0 ==> d.app.retries + n <= LIMIT)
    ensures var after := Run(d, Repeat(n));
            && Failing(after) && after.app.retries == d.app.retries + n
            && after.book.dials == d.book.dials + n && after.book.absences == d.book.absences
    ensures Careful(d, Repeat(n))
  {
    hide Failing, Frame;
    if n > 0 {
      RetriesDial(d, n - 1);
      RunOne(d, Repeat(n - 1), TimerFails());
      RetryFrame(Run(d, Repeat(n - 1)));
      FailingIsStill(Run(d, Repeat(n - 1)));
      StillCareful(d, Repeat(n - 1), TimerFails());
    }
  }

  lemma FailingIsStill(d: Desk)
    requires Failing(d)
    ensures !d.app.switching
  {
  }

  lemma StillCareful(d: Desk, inputs: seq<Input>, last: Input)
    requires Careful(d, inputs) && !Run(d, inputs).app.switching && last.press.NoPress?
    ensures Careful(d, inputs + [last])
  {
    hide Run, Fits;
    CarefulPush(d, inputs, last);
  }

  lemma CarefulPush(d: Desk, inputs: seq<Input>, last: Input)
    requires Careful(d, inputs)
    requires Changes(Run(d, inputs), last) ==> Fits(Frame(Run(d, inputs), last), Pressed)
    ensures Careful(d, inputs + [last])
  {
    RunOne(d, inputs, last);
    hide Run, Fits, Frame, Changes;
    assert (inputs + [last])[..|inputs|] == inputs;
  }

  // ----- Making every owed dial -----

  /** The window at rest on a transport, whatever is still armed. */
  ghost predicate AtRest(d: Desk) {
    && d.app.attempted && !d.app.running && !d.app.suppressed && !d.app.switching && d.app.session.Idle?
    && (d.app.usb <==> d.app.listing.On?) && d.app.retries <= LIMIT + 1
  }

  lemma ListedDials(d: Desk)
    requires d.app.attempted && !d.app.running && !d.app.suppressed && d.app.waiting && d.app.paired
    requires if d.app.usb then d.app.listing.On? && d.app.absentSeen else d.app.listing.Late?
    ensures var after := Drain(d, [false], Refusals());
            && after.book.dials == d.book.dials + 1 && after.book.absences == d.book.absences
            && after.app.session == Failed(true, false) && after.app.pending && !after.app.running
            && !after.app.suppressed && !after.app.absent && after.app.attempted
            && after.app.usb == d.app.usb && after.app.retries == d.app.retries
              && after.app.switching == d.app.switching
  {
    var open_ := if d.app.listing.Late? then d.(app := d.app.(listing := Off)) else d;
    assert Delivered(d.app.listing, [false]) == [false];
    OneList(open_, false, Refusals());
    ReturnDials(open_);
    hide ReconcileAll, Reconcile;
  }

  lemma ReturnDials(d: Desk)
    requires d.app.attempted && !d.app.running && !d.app.suppressed && d.app.waiting && d.app.paired
    requires d.app.usb ==> d.app.absentSeen
    ensures var after := Reconcile(d, false, Refused(true, false));
            && after.book.dials == d.book.dials + 1 && after.book.absences == d.book.absences
            && after.app == d.app.(absent := false, pending := true, session := Failed(true, false),
                                   waiting := after.app.waiting, absentSeen := after.app.absentSeen)
  {
  }

  /** One frame in which a device list reaches a window that waits for one. */
  lemma ListFrame(d: Desk)
    requires var o := Observe(d);
             && o.app.attempted && !o.app.suppressed && !o.app.switching && o.app.waiting
             && (if o.app.usb then o.app.listing.On? && o.app.absentSeen else o.app.listing.Late?)
    ensures Dialled(Observe(d), Frame(d, PhoneListed()), 1)
  {
    var o, i := Observe(d), PhoneListed();
    var paired := o.(app := o.app.(paired := true));
    hide Observe;
    NoSwitch(paired, DialAt(i.dials, 0));
    assert LaunchOrRetry(paired, false, DialAt(i.dials, 1)) == paired;
    hide CompleteSwitch, LaunchOrRetry;
    ListedDials(paired.(app := paired.app.(session := Idle, running := false)));
    hide Drain;
  }

  /** Over Wi-Fi: the timer starts a worker, which may end without an error. */
  lemma StartFrame(d: Desk)
    requires AtRest(d) && !d.app.usb && d.app.timer
    ensures Frame(d, TimerStarts())
            == Desk(d.app.(paired := true, pending := true, timer := false, running := true, session := Connecting),
                    d.book.(dials := d.book.dials + 1, ever := d.book.ever + 1))
  {
    var i := TimerStarts();
    var paired := d.(app := d.app.(paired := true));
    assert Observe(d) == d;
    hide Observe;
    NoSwitch(paired, DialAt(i.dials, 0));
    hide CompleteSwitch;
    var tried := LaunchOrRetry(paired, true, DialAt(i.dials, 1));
    QuietDrain(tried, i.dials);
    hide Drain;
  }

  /** Over USB: the list shows the phone, and nothing waits for it. */
  lemma PhoneSeen(d: Desk)
    requires AtRest(d) && d.app.usb && !d.app.waiting
    ensures Frame(d, PhoneListed()) == d.(app := d.app.(paired := true, absent := false))
  {
    var i := PhoneListed();
    var paired := d.(app := d.app.(paired := true));
    assert Observe(d) == d;
    hide Observe;
    NoSwitch(paired, DialAt(i.dials, 0));
    assert LaunchOrRetry(paired, false, DialAt(i.dials, 1)) == paired;
    hide CompleteSwitch, LaunchOrRetry;
    OneList(paired, false, i.dials);
    assert Delivered(On, [false]) == [false];
    hide ReconcileAll, AutoConnect;
  }

  lemma RunSingle(d: Desk, i: Input)
    requires !d.app.switching && i.press.NoPress?
    ensures Run(d, [i]) == Frame(d, i) && Careful(d, [i])
  {
    assert [i][..0] == [];
    RunOne(d, [], i);
    assert Run(d, []) == d;
    hide Frame, Fits;
  }

  lemma RunPair(d: Desk, i: Input, j: Input)
    requires !d.app.switching && i.press.NoPress? && j.press.NoPress? && !Frame(d, i).app.switching
    ensures Run(d, [i, j]) == Frame(Frame(d, i), j) && Careful(d, [i, j])
  {
    hide Frame, Fits;
    RunSingle(d, i);
    assert [i, j] == [i] + [j];
    RunOne(d, [i], j);
    StillCareful(d, [i], j);
    hide Run, Careful;
  }

  lemma OwedTwice(d: Desk) returns (inputs: seq<Input>)
    requires AtRest(d) && !d.app.usb && d.app.timer && d.app.waiting && d.app.listing.Late?
    ensures Careful(d, inputs) && Dialled(d, Run(d, inputs), 2)
  {
    StartFrame(d);
    var started := Frame(d, TimerStarts());
    hide Frame, Fits, Careful, Run;
    assert Observe(started) == started.(app := started.app.(pending := false, recover := true, timer := false));
    ListFrame(started);
    RunPair(d, TimerStarts(), PhoneListed());
    inputs := [TimerStarts(), PhoneListed()];
  }

  lemma OwedByTimer(d: Desk) returns (inputs: seq<Input>)
    requires AtRest(d) && d.app.timer && (d.app.usb ==> !d.app.waiting && d.app.retries > 0)
    ensures Careful(d, inputs) && Dialled(d, Run(d, inputs), 1)
  {
    hide Fits, Careful, Run;
    if d.app.usb {
      PhoneSeen(d);
      var seen := Frame(d, PhoneListed());
      hide Frame;
      assert Observe(seen) == seen;
      TimerFrame(seen);
      RunPair(d, PhoneListed(), TimerFails());
      inputs := [PhoneListed(), TimerFails()];
    } else {
      hide Frame;
      assert Observe(d) == d;
      TimerFrame(d);
      RunSingle(d, TimerFails());
      inputs := [TimerFails()];
    }
  }

  lemma OwedByWait(d: Desk) returns (inputs: seq<Input>)
    requires AtRest(d) && d.app.waiting && (if d.app.usb then d.app.absentSeen else d.app.listing.Late?)
    ensures Careful(d, inputs) && Dialled(d, Run(d, inputs), 1)
  {
    hide Fits, Careful, Run, Frame;
    assert Observe(d) == d;
    ListFrame(d);
    RunSingle(d, PhoneListed());
    inputs := [PhoneListed()];
  }

  lemma OwedIsDialled(d: Desk) returns (inputs: seq<Input>)
    requires AtRest(d) && Armed(d.app) >= 1
    ensures Careful(d, inputs) && Dialled(d, Run(d, inputs), Armed(d.app))
  {
    hide Careful, Run, Dialled;
    if !d.app.usb && d.app.timer && d.app.waiting && d.app.listing.Late? {
      inputs := OwedTwice(d);
    } else if d.app.waiting && (d.app.usb || d.app.listing.Late?) {
      inputs := OwedByWait(d);
    } else {
      inputs := OwedByTimer(d);
    }
  }

  lemma {:induction false} CarefulConcat(d: Desk, a: seq<Input>, b: seq<Input>)
    requires Careful(d, a) && Careful(Run(d, a), b)
    ensures Careful(d, a + b)
    decreases |b|
  {
    hide Run, Fits, Frame, Changes;
    if b == [] {
      assert a + b == a;
    } else {
      var front, last := b[..|b| - 1], b[|b| - 1];
      assert b == front + [last];
      RunOne(Run(d, a), front, last);
      CarefulConcat(d, a, front);
      RunConcat(d, a, front);
      hide Careful;
      CarefulPush(d, a + front, last);
      assert a + b == (a + front) + [last];
    }
  }

  /** Too much owed, and the bound breaks: every owed dial is made, and then every
      retry that is left. */
  lemma TooMuchOwedExceeds(d: Desk) returns (inputs: seq<Input>)
    requires AtRest(d) && Armed(d.app) >= 1 && !Fits(d, Pressed)
    ensures Careful(d, inputs) && !Bounded(Run(d, inputs).book)
  {
    var first := OwedIsDialled(d);
    var mid, n := Run(d, first), LIMIT - Spent(d.app);
    RetriesDial(mid, n);
    inputs := first + Repeat(n);
    hide Run, Careful, Armed, Repeat;
    RunConcat(d, first, Repeat(n));
    CarefulConcat(d, first, Repeat(n));
  }

  // ----- Main results -----

  /** What a frame with a pick leaves, when no worker runs. */
  lemma PickRests(d: Desk, i: Input)
    requires Between(d) && i.press.Pick? && !Logic(d, i).app.running
    ensures var l, after := Logic(d, i), Frame(d, i);
            && Between(after) && after.app.session.Idle? && !after.app.running && after.app.attempted
            && after.app.switching == l.app.switching && after.app.suppressed == l.app.suppressed
            && after.book == l.book && Spent(after.app) == Spent(l.app)
            && Owed(after.app, Pressed) == Armed(after.app)
  {
    LogicKeeps(d, i);
    var l := Logic(d, i);
    hide Logic;
    PickKeeps(l, i.press.usb);
    hide Armed;
  }

  /** MAIN RESULT, both ways: a transport is picked by hand where what was owed fits.
      Every careful continuation keeps the bound if and only if what is owed after the
      pick - by a timer left running, or over Wi-Fi by a wait with a device list still
      on its way - fits too, or a Wi-Fi switch is about to close the accounts. */
  lemma PickKeepsBound(usb: bool, paired: bool, absent: bool, before: seq<Input>, i: Input)
    requires var d := Run(Opening(usb, paired, absent), before);
             i.press.Pick? && !Logic(d, i).app.running && Fits(Logic(d, i), Decided)
    ensures var after := Frame(Run(Opening(usb, paired, absent), before), i);
            (Fits(after, Pressed) || after.app.switching) <==>
              (forall more :: Careful(after, more) ==> Bounded(Run(after, more).book))
  {
    OpeningFits(usb, paired, absent);
    RunKeeps(Opening(usb, paired, absent), before);
    var d := Run(Opening(usb, paired, absent), before);
    PickRests(d, i);
    var after := Frame(d, i);
    hide Opening, Frame, Logic, Run;
    if Fits(after, Pressed) {
      forall more | Careful(after, more) ensures Bounded(Run(after, more).book) {
        RunKeeps(after, more);
        FitsBounds(Run(after, more));
      }
    } else if after.app.switching {
      forall more | Careful(after, more) ensures Bounded(Run(after, more).book) { SwitchCloses(after, more); }
    } else {
      assert Armed(after.app) >= 1;
      var more := TooMuchOwedExceeds(after);
      assert Careful(after, more) && !Bounded(Run(after, more).book);
    }
  }

  /** The next frame completes the switch, and a careful one leaves what fits. */
  lemma {:induction false} SwitchCloses(d: Desk, inputs: seq<Input>)
    requires Between(d) && Bounded(d.book) && Completes(d) && Careful(d, inputs)
    ensures Bounded(Run(d, inputs).book)
    ensures inputs != [] ==> Fits(Run(d, inputs), Pressed)
  {
    if inputs != [] {
      var front, last := inputs[..|inputs| - 1], inputs[|inputs| - 1];
      RunKeeps(d, front);
      hide Frame, Between;
      SwitchCloses(d, front);
      if front == [] {
        assert Run(d, front) == d;
      } else {
        FrameKeeps(Run(d, front), last);
      }
      FitsBounds(Run(d, inputs));
      hide Fits;
    }
  }

  // ----- The same for a Wi-Fi switch -----

  /** What no attempt touches. */
  ghost predicate SameCount(d: Desk, after: Desk) {
    && after.app.retries == d.app.retries && after.app.switching == d.app.switching
    && after.app.suppressed == d.app.suppressed && after.app.usb == d.app.usb
  }

  lemma DialSameCount(d: Desk, dial: Dial)
    ensures SameCount(d, DialNow(d, dial))
  {
    if dial.Started? {
    } else {
    }
  }

  lemma AttemptSameCount(d: Desk, dial: Dial)
    ensures SameCount(d, AutoConnect(d, dial))
  {
    var seen := SeeAbsence(d, d.app.absent);
    assert SameCount(d, seen);
    DialSameCount(seen, dial);
    DialSameCount(d, dial);
    hide SeeAbsence, DialNow, UsbMayDial;
  }

  lemma {:induction false} ListsSameCount(d: Desk, lists: seq<bool>, dials: seq<Dial>)
    ensures SameCount(d, ReconcileAll(d, lists, dials))
  {
    if lists != [] {
      var before := ReconcileAll(d, lists[..|lists| - 1], dials);
      ListsSameCount(d, lists[..|lists| - 1], dials);
      AttemptSameCount(before.(app := before.app.(absent := lists[|lists| - 1])), DialAt(dials, |lists| + 1));
      hide AutoConnect;
    }
  }

  lemma DrainSameCount(d: Desk, absences: seq<bool>, dials: seq<Dial>)
    ensures SameCount(d, Drain(d, absences, dials))
  {
    var lists := Delivered(d.app.listing, absences);
    ListsSameCount(d, lists, dials);
    ListsSameCount(d.(app := d.app.(listing := Off)), lists, dials);
    hide ReconcileAll, Delivered;
  }

  lemma SwitchCounts(d: Desk, dial: Dial)
    requires Completes(d)
    ensures var after := CompleteSwitch(d, dial).app;
            after.retries == 0 && !after.switching && !after.suppressed && !after.usb
  {
    var a := d.app.(switching := false, usb := false, retries := 0, suppressed := false);
    AttemptSameCount(Desk(a, NewBook(a, d.book.ever)), dial);
    hide AutoConnect;
  }

  lemma TrySameCount(d: Desk, due: bool, dial: Dial)
    ensures SameCount(d, LaunchOrRetry(d, due, dial))
  {
    AttemptSameCount(d.(app := d.app.(attempted := true)), dial);
    AttemptSameCount(d.(app := d.app.(timer := false)), dial);
    hide AutoConnect;
  }

  /** What a frame that completes a switch leaves. */
  lemma SwitchRests(d: Desk, i: Input)
    requires Between(d) && Completes(d) && i.press.NoPress?
    ensures var after := Frame(d, i);
            && Between(after) && after.app.attempted && !after.app.usb && after.app.retries == 0
            && !after.app.switching && !after.app.suppressed
  {
    FrameKeeps(d, i);
    LogicKeeps(d, i);
    ObserveKeeps(d);
    var observed := Observe(d);
    hide Observe;
    var paired := observed.(app := observed.app.(paired := i.paired));
    SwitchCounts(paired, DialAt(i.dials, 0));
    var switched := CompleteSwitch(paired, DialAt(i.dials, 0));
    hide CompleteSwitch;
    TrySameCount(switched, i.due, DialAt(i.dials, 1));
    var tried := LaunchOrRetry(switched, i.due, DialAt(i.dials, 1));
    hide LaunchOrRetry;
    DrainSameCount(tried.(app := tried.app.(session := i.polled, running := i.alive)), i.absences, i.dials);
    hide Drain, Between, Orderly, Fits;
  }

  /** A running worker fails in a way that can be retried. */
  function WorkerFails(): Input { Input(true, false, [], Failed(true, false), false, [], NoPress) }

  lemma FailFrame(d: Desk)
    requires d.app.attempted && d.app.session.Connecting? && !d.app.switching
    ensures Frame(d, WorkerFails())
            == TellListing(d.(app := d.app.(paired := true, pending := false, recover := true, timer := false,
                                            session := Failed(true, false), running := false)))
  {
    var i := WorkerFails();
    var paired := d.(app := d.app.(paired := true, pending := false, recover := true, timer := false));
    assert Observe(d).(app := Observe(d).app.(paired := true)) == paired;
    hide Observe;
    NoSwitch(paired, DialAt(i.dials, 0));
    assert LaunchOrRetry(paired, false, DialAt(i.dials, 1)) == paired;
    hide CompleteSwitch, LaunchOrRetry;
    QuietDrain(paired.(app := paired.app.(session := Failed(true, false), running := false)), i.dials);
    hide Drain;
  }

  /** A dial in progress, or one that has just failed in a way that can be retried. */
  predicate Underway(a: App) {
    a.session.Connecting? || (a.session.Failed? && a.session.useful && a.pending && !a.running)
  }

  ghost predicate Switched(d: Desk) {
    && Between(d) && d.app.attempted && !d.app.usb && d.app.retries == 0
    && !d.app.switching && !d.app.suppressed && Underway(d.app)
  }

  /** The first retry after a failure that is about to be looked at, over Wi-Fi. */
  lemma FirstRetry(d: Desk)
    requires d.app.attempted && !d.app.usb && d.app.retries == 0 && !d.app.switching && !d.app.suppressed
    requires d.app.session.Failed? && d.app.session.useful && (d.app.pending || d.app.recover) && !d.app.running
    ensures var after := Frame(d, TimerFails());
            && Failing(after) && after.app.retries == 1
            && after.book.dials == d.book.dials + 1 && after.book.absences == d.book.absences
  {
    assert Observe(d) == d.(app := d.app.(pending := false, recover := false, waiting := false, absentSeen := false,
                                          retries := 1, timer := true));
    TimerFrame(d);
    hide Observe, Frame;
  }

  lemma SwitchExceeds(d: Desk) returns (inputs: seq<Input>)
    requires Switched(d) && !Fits(d, Pressed)
    ensures Careful(d, inputs) && !Bounded(Run(d, inputs).book)
  {
    if d.app.session.Failed? {
      inputs := FailedExceeds(d);
    } else if d.app.waiting && d.app.listing.Late? {
      inputs := ListedExceeds(d);
    } else {
      inputs := DroppedExceeds(d);
    }
  }

  lemma FailedExceeds(d: Desk) returns (inputs: seq<Input>)
    requires Switched(d) && !Fits(d, Pressed) && d.app.session.Failed?
    ensures Careful(d, inputs) && !Bounded(Run(d, inputs).book)
  {
    FirstRetry(d);
    RunSingle(d, TimerFails());
    assert d.book.dials > 1 + d.book.absences;
    hide Frame, Fits, Run, Careful;
    inputs := UseUp(d, [TimerFails()], LIMIT - 1);
  }

  lemma ListedExceeds(d: Desk) returns (inputs: seq<Input>)
    requires Switched(d) && !Fits(d, Pressed) && d.app.session.Connecting? && d.app.waiting && d.app.listing.Late?
    ensures Careful(d, inputs) && !Bounded(Run(d, inputs).book)
  {
    assert Observe(d) == d.(app := d.app.(pending := false, recover := true, timer := false));
    ListFrame(d);
    RunSingle(d, PhoneListed());
    assert d.book.dials + 1 > 1 + d.book.absences;
    hide Frame, Fits, Run, Careful, Observe;
    inputs := UseUp(d, [PhoneListed()], LIMIT);
  }

  lemma DroppedExceeds(d: Desk) returns (inputs: seq<Input>)
    requires Switched(d) && !Fits(d, Pressed) && d.app.session.Connecting? && !(d.app.waiting && d.app.listing.Late?)
    ensures Careful(d, inputs) && !Bounded(Run(d, inputs).book)
  {
    FailFrame(d);
    var failed := Frame(d, WorkerFails());
    FirstRetry(failed);
    RunPair(d, WorkerFails(), TimerFails());
    assert d.book.dials > 1 + d.book.absences;
    hide Frame, Fits, Run, Careful;
    inputs := UseUp(d, [WorkerFails(), TimerFails()], LIMIT - 1);
  }

  /** After some frames, every retry that is left. */
  lemma UseUp(d: Desk, first: seq<Input>, n: nat) returns (inputs: seq<Input>)
    requires Careful(d, first)
    requires var mid := Run(d, first);
             && Failing(mid) && mid.app.retries + n == LIMIT && mid.book.dials + n > 1 + LIMIT + mid.book.absences
    ensures Careful(d, inputs) && !Bounded(Run(d, inputs).book)
  {
    RetriesDial(Run(d, first), n);
    inputs := first + Repeat(n);
    hide Run, Careful, Repeat;
    RunConcat(d, first, Repeat(n));
    CarefulConcat(d, first, Repeat(n));
  }

  /** MAIN RESULT, both ways, for a Wi-Fi switch: it completes, and its dial is under way
      or has failed in a way that can be retried. Every careful continuation keeps the
      bound if and only if what is owed after that frame fits. */
  lemma SwitchKeepsBound(usb: bool, paired: bool, absent: bool, before: seq<Input>, i: Input)
    requires var d := Run(Opening(usb, paired, absent), before);
             Completes(d) && i.press.NoPress? && Underway(Frame(d, i).app)
    ensures var after := Frame(Run(Opening(usb, paired, absent), before), i);
            Fits(after, Pressed) <==> (forall more :: Careful(after, more) ==> Bounded(Run(after, more).book))
  {
    OpeningFits(usb, paired, absent);
    RunKeeps(Opening(usb, paired, absent), before);
    var d := Run(Opening(usb, paired, absent), before);
    SwitchRests(d, i);
    var after := Frame(d, i);
    hide Opening, Frame, Run, Underway;
    if Fits(after, Pressed) {
      forall more | Careful(after, more) ensures Bounded(Run(after, more).book) {
        RunKeeps(after, more);
        FitsBounds(Run(after, more));
      }
    } else {
      var more := SwitchExceeds(after);
      assert Careful(after, more) && !Bounded(Run(after, more).book);
    }
  }
}

/** After the button has been pressed while a session runs
    (host-rs/src/gui.rs:1117-1135, 1174-1181, 1229-1237, 1392-1399). */
module ReconnectQuiet {
  import opened Reconnect

  /** Nothing is armed, and nothing but a press will arm anything. */
  ghost predicate Quiet(d: Desk) { d.app.suppressed && d.app.attempted && !d.app.switching && !d.app.timer }

  /** No press that asks for a connection: not the Connect button, not the switch. */
  predicate Idles(d: Desk, i: Input) {
    && !i.press.SwitchToLan?
    && (i.press.Button? && Allowed(Logic(d, i).app) ==> Logic(d, i).app.running)
  }

  ghost predicate AllIdle(d: Desk, inputs: seq<Input>) {
    inputs != [] ==>
      && AllIdle(d, inputs[..|inputs| - 1])
      && Idles(Run(d, inputs[..|inputs| - 1]), inputs[|inputs| - 1])
  }

  lemma {:induction false} QuietLists(d: Desk, lists: seq<bool>, dials: seq<Dial>)
    requires Quiet(d)
    ensures Quiet(ReconcileAll(d, lists, dials)) && ReconcileAll(d, lists, dials).book == d.book
  {
    if lists != [] { QuietLists(d, lists[..|lists| - 1], dials); }
    hide AutoConnect;
  }

  lemma QuietDrains(d: Desk, absences: seq<bool>, dials: seq<Dial>)
    requires Quiet(d)
    ensures Quiet(Drain(d, absences, dials)) && Drain(d, absences, dials).book == d.book
  {
    var lists := Delivered(d.app.listing, absences);
    QuietLists(d, lists, dials);
    QuietLists(d.(app := d.app.(listing := Off)), lists, dials);
    hide ReconcileAll, Delivered;
  }

  lemma QuietObserve(d: Desk)
    requires Quiet(d)
    ensures Quiet(Observe(d)) && Observe(d).book.ever == d.book.ever
  {
  }

  lemma QuietFrame(d: Desk, i: Input)
    requires Quiet(d) && Idles(d, i)
    ensures Quiet(Frame(d, i)) && Frame(d, i).book.ever == d.book.ever
  {
    QuietObserve(d);
    var observed := Observe(d);
    hide Observe;
    var paired := observed.(app := observed.app.(paired := i.paired));
    assert CompleteSwitch(paired, DialAt(i.dials, 0)) == paired;
    hide CompleteSwitch;
    assert LaunchOrRetry(paired, i.due, DialAt(i.dials, 1)) == paired;
    hide LaunchOrRetry;
    QuietDrains(paired.(app := paired.app.(session := i.polled, running := i.alive)), i.absences, i.dials);
    hide Drain;
    QuietPress(Logic(d, i), i.press);
    hide Ui;
  }

  lemma QuietPress(d: Desk, press: Press)
    requires Quiet(d) && !press.SwitchToLan? && (press.Button? && Allowed(d.app) ==> d.app.running)
    ensures Quiet(TellListing(Ui(d, press))) && TellListing(Ui(d, press)).book == d.book
  {
  }

  lemma {:induction false} QuietRuns(d: Desk, inputs: seq<Input>)
    requires Quiet(d) && AllIdle(d, inputs)
    ensures Quiet(Run(d, inputs)) && Run(d, inputs).book.ever == d.book.ever
  {
    hide Frame, Idles, Quiet;
    if inputs != [] {
      QuietRuns(d, inputs[..|inputs| - 1]);
      QuietFrame(Run(d, inputs[..|inputs| - 1]), inputs[|inputs| - 1]);
    }
  }

  // ----- A frame in which the running session is disconnected -----

  lemma DialAttempted(d: Desk, dial: Dial)
    ensures DialNow(d, dial).app.attempted == d.app.attempted
  {
    if dial.Started? {
    } else {
    }
  }

  lemma AutoAttempted(d: Desk, dial: Dial)
    ensures AutoConnect(d, dial).app.attempted == d.app.attempted
  {
    var seen := SeeAbsence(d, d.app.absent);
    assert seen.app.attempted == d.app.attempted;
    DialAttempted(seen, dial);
    DialAttempted(d, dial);
    hide SeeAbsence, DialNow, UsbMayDial;
  }

  lemma ListAttempted(d: Desk, absent: bool, dial: Dial)
    ensures Reconcile(d, absent, dial).app.attempted == d.app.attempted
  {
    AutoAttempted(d.(app := d.app.(absent := absent)), dial);
    hide AutoConnect;
  }

  lemma {:induction false} ListsAttempted(d: Desk, lists: seq<bool>, dials: seq<Dial>)
    requires d.app.attempted
    ensures ReconcileAll(d, lists, dials).app.attempted
  {
    hide Reconcile;
    if lists != [] {
      ListsAttempted(d, lists[..|lists| - 1], dials);
      ListAttempted(ReconcileAll(d, lists[..|lists| - 1], dials), lists[|lists| - 1], DialAt(dials, |lists| + 1));
    }
  }

  lemma DrainAttempted(d: Desk, absences: seq<bool>, dials: seq<Dial>)
    requires d.app.attempted
    ensures Drain(d, absences, dials).app.attempted
  {
    var lists := Delivered(d.app.listing, absences);
    ListsAttempted(d, lists, dials);
    ListsAttempted(d.(app := d.app.(listing := Off)), lists, dials);
    hide ReconcileAll, Delivered;
  }

  lemma LogicAttempts(d: Desk, i: Input)
    ensures Logic(d, i).app.attempted
  {
    hide Observe, CompleteSwitch, Drain;
    var observed := Observe(d);
    var switched := CompleteSwitch(observed.(app := observed.app.(paired := i.paired)), DialAt(i.dials, 0));
    TryAttempts(switched, i.due, DialAt(i.dials, 1));
    var tried := LaunchOrRetry(switched, i.due, DialAt(i.dials, 1));
    hide LaunchOrRetry;
    DrainAttempted(tried.(app := tried.app.(session := i.polled, running := i.alive)), i.absences, i.dials);
  }

  lemma TryAttempts(d: Desk, due: bool, dial: Dial)
    ensures LaunchOrRetry(d, due, dial).app.attempted
  {
    AutoAttempted(d.(app := d.app.(attempted := true)), dial);
    AutoAttempted(d.(app := d.app.(timer := false)), dial);
    hide AutoConnect;
  }

  /** The worker stops, and nobody touches the window. */
  function WorkerEnds(): Input { Input(true, false, [], Idle, false, [], NoPress) }

  /** A switch that was pending when Disconnect was pressed completes, takes the
      suppression back and dials, two frames after the worker has stopped. */
  lemma SwitchOutlivesDisconnect(d: Desk)
    requires d.app.attempted && d.app.switching && !d.app.timer && d.app.session.Stopping? && d.app.running
    ensures var more := [WorkerEnds(), WorkerEnds()];
            AllIdle(d, more) && Run(d, more).book.ever == d.book.ever + 1 && !Run(d, more).app.suppressed
  {
    var i := WorkerEnds();
    StopFrame(d);
    var stopped := Frame(d, i);
    SwitchFrame(stopped);
    hide Frame, Logic;
    assert [i][..0] == [] && Run(d, []) == d && [i, i][..1] == [i];
    RunOne(d, [], i);
    assert [] + [i] == [i] && [i] + [i] == [i, i];
    RunOne(d, [i], i);
    assert Run(d, [i]) == stopped;
    hide Run;
    assert AllIdle(d, [i]);
  }

  lemma StopFrame(d: Desk)
    requires d.app.attempted && d.app.switching && !d.app.timer && d.app.session.Stopping? && d.app.running
    ensures var after := Frame(d, WorkerEnds());
            after == d.(app := d.app.(paired := true, session := Idle, running := false, listing := after.app.listing))
  {
    var i := WorkerEnds();
    assert Observe(d) == d;
    hide Observe;
    var paired := d.(app := d.app.(paired := true));
    assert CompleteSwitch(paired, DialAt(i.dials, 0)) == paired;
    hide CompleteSwitch;
    assert LaunchOrRetry(paired, false, DialAt(i.dials, 1)) == paired;
    hide LaunchOrRetry;
    NothingListed(paired.(app := paired.app.(session := Idle, running := false)), i.dials);
    hide Drain;
  }

  lemma NothingListed(d: Desk, dials: seq<Dial>)
    ensures Drain(d, [], dials) == d
  {
  }

  lemma SwitchFrame(d: Desk)
    requires d.app.attempted && d.app.switching && !d.app.timer && d.app.session.Idle? && !d.app.running
    ensures var after := Frame(d, WorkerEnds());
            after.book.ever == d.book.ever + 1 && !after.app.suppressed
  {
    var i := WorkerEnds();
    assert Observe(d) == d;
    hide Observe;
    var paired := d.(app := d.app.(paired := true));
    var switched := CompleteSwitch(paired, DialAt(i.dials, 0));
    assert switched.book.ever == d.book.ever + 1 && !switched.app.timer && switched.app.attempted
        && !switched.app.suppressed;
    hide CompleteSwitch;
    assert LaunchOrRetry(switched, false, DialAt(i.dials, 1)) == switched;
    hide LaunchOrRetry;
    NothingListed(switched.(app := switched.app.(session := Idle, running := false)), i.dials);
    hide Drain;
  }

  /** MAIN RESULT, both ways: the button is pressed while a session runs. However the
      session, the devices and the clock behave from then on, no automatic dial is made
      until Connect or the Wi-Fi switch is pressed, if and only if no Wi-Fi switch was
      pending at the press. */
  lemma DisconnectIsFinal(d: Desk, i: Input)
    requires i.press.Button? && Logic(d, i).app.running
    ensures var after := Frame(d, i);
            !Logic(d, i).app.switching <==>
              (forall more :: AllIdle(after, more) ==> Run(after, more).book.ever == after.book.ever)
  {
    LogicAttempts(d, i);
    hide Logic;
    var after := Frame(d, i);
    assert after == TellListing(Disconnect(Logic(d, i)));
    hide Run, AllIdle, Frame;
    if Logic(d, i).app.switching {
      SwitchOutlivesDisconnect(after);
      var more := [WorkerEnds(), WorkerEnds()];
      assert AllIdle(after, more) && Run(after, more).book.ever != after.book.ever;
    } else {
      forall more | AllIdle(after, more) ensures Run(after, more).book.ever == after.book.ever {
        QuietRuns(after, more);
      }
    }
  }
}

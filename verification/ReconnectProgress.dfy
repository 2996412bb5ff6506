/** What the window does about a lost connection, frame by frame, when it can do something
    (host-rs/src/gui.rs:181-298, 993-1016, 1117-1185, 1229-1270).

    The accounts of ReconnectBound say how many automatic dials there can be at most. These
    say that they are made, and when. */
module ReconnectProgress {
  import opened Reconnect
  import ReconnectBound
  import ReconnectWindow

  /** Nothing but the session, the timer and the clock acts in this frame. */
  predicate Undisturbed(d: Desk, i: Input) { !d.app.switching && i.absences == [] && i.press.NoPress? }

  lemma NoLists(d: Desk, dials: seq<Dial>)
    ensures Drain(d, [], dials) == d
  {
    ReconnectBound.NoLists(d, dials);
    hide ReconcileAll;
  }

  /** A frame in which nothing disturbs is its look at the session and one attempt. */
  lemma UndisturbedFrame(d: Desk, i: Input)
    requires Undisturbed(d, i)
    ensures var seen := Observe(d);
            var tried := LaunchOrRetry(seen.(app := seen.app.(paired := i.paired)), i.due, DialAt(i.dials, 1));
            Frame(d, i) == TellListing(tried.(app := tried.app.(session := i.polled, running := i.alive)))
  {
    var seen := Observe(d);
    assert !seen.app.switching by { hide ArmRetry; StillNotSwitching(d); }
    var tried := LaunchOrRetry(seen.(app := seen.app.(paired := i.paired)), i.due, DialAt(i.dials, 1));
    NoLists(tried.(app := tried.app.(session := i.polled, running := i.alive)), i.dials);
    hide Observe, LaunchOrRetry, Drain;
  }

  lemma StillNotSwitching(d: Desk)
    ensures Observe(d).app.switching == d.app.switching
  {
    ReconnectWindow.ObserveIs(d);
    hide Observe;
    if d.app.session.Failed? {
      ArmingIs(d.(app := d.app.(pending := false, recover := false)), d.app.session.useful, d.app.session.replug);
      hide ArmRetry;
    }
  }

  /** What is armed after a failure, and what never moves. */
  lemma ArmingIs(d: Desk, useful: bool, replug: bool)
    ensures var armed := ArmRetry(d, useful, replug);
            && armed.app.switching == d.app.switching && armed.app.usb == d.app.usb
            && armed.app.attempted == d.app.attempted && armed.app.running == d.app.running
            && armed.app.session == d.app.session && armed.app.pending == d.app.pending
            && armed.app.recover == d.app.recover && armed.book.ever == d.book.ever
            && (!useful || d.app.suppressed || (!d.app.usb && d.app.retries >= 8) ==>
                  !armed.app.timer && !armed.app.waiting)
  {
    match PlanRetry(d.app, useful, replug) {
      case Stop =>
      case Exhausted =>
      case WaitForDevice =>
      case DialAgain(attempt) =>
    }
  }

  /** MAIN RESULT: the first frame dials by itself exactly when Wi-Fi is selected and
      paired. */
  lemma LaunchDialsOverWifi(usb: bool, paired: bool, absent: bool, i: Input)
    requires i.absences == [] && i.press.NoPress?
    ensures var after := Frame(Opening(usb, paired, absent), i);
            after.app.attempted && after.book.ever == (if !usb && i.paired then 1 else 0)
  {
    UndisturbedFrame(Opening(usb, paired, absent), i);
    hide Frame;
  }

  /** A connection of its own, or one that had worked, has failed. */
  predicate JustFailed(d: Desk) {
    d.app.session.Failed? && (d.app.pending || d.app.recover) && !d.app.running && d.app.attempted
  }

  /** MAIN RESULT: over paired Wi-Fi such a failure that retrying can help is retried while
      fewer than eight retries were made: the retry is armed, and dialled when due. */
  lemma FailuresAreRetried(d: Desk, i: Input)
    requires JustFailed(d) && Undisturbed(d, i) && d.app.session.useful && !d.app.suppressed
    requires !d.app.usb && i.paired && d.app.retries < 8
    ensures var after := Frame(d, i);
            && after.app.retries == d.app.retries + 1
            && after.book.ever == d.book.ever + (if i.due then 1 else 0)
            && (!i.due ==> after.app.timer)
  {
    UndisturbedFrame(d, i);
    hide Frame;
  }

  /** The ninth is not made; nor is any when retrying cannot help, or after Disconnect. */
  lemma RetriesEnd(d: Desk, i: Input)
    requires JustFailed(d) && Undisturbed(d, i)
    requires !d.app.session.useful || d.app.suppressed || (!d.app.usb && d.app.retries >= 8)
    ensures var after := Frame(d, i);
            !after.app.timer && !after.app.waiting && !after.app.pending && !after.app.recover
            && after.book.ever == d.book.ever
  {
    UndisturbedFrame(d, i);
    ArmingIs(d.(app := d.app.(pending := false, recover := false)), d.app.session.useful, d.app.session.replug);
    hide Frame, ArmRetry, AutoConnect;
  }

  /** An armed retry is dialled once it is due, and not before. */
  lemma TimersDial(d: Desk, i: Input)
    requires d.app.timer && d.app.attempted && !d.app.running && Undisturbed(d, i)
    requires d.app.session.Idle? || d.app.session.Stopping?
    requires !d.app.usb && i.paired
    ensures Frame(d, i).book.ever == d.book.ever + (if i.due then 1 else 0)
    ensures !i.due ==> Frame(d, i).app.timer
  {
    UndisturbedFrame(d, i);
    ReconnectWindow.ObserveIs(d);
    hide Frame, Observe;
  }

  /** MAIN RESULT: video restores the whole budget and disarms the timer, and a later drop
      will be recovered from. */
  lemma VideoRestoresTheBudget(d: Desk, i: Input)
    requires d.app.session.Live? && d.app.attempted && Undisturbed(d, i)
    ensures var after := Frame(d, i);
            after.app.retries == 0 && !after.app.timer && !after.app.waiting && !after.app.pending
            && after.app.recover && after.book.dials == 0 && after.book.ever == d.book.ever
  {
    UndisturbedFrame(d, i);
    hide Frame;
  }

  /** MAIN RESULT: a phone pulled from the cable is waited for without using up retries... */
  lemma PulledPhonesAreAwaited(d: Desk, i: Input)
    requires JustFailed(d) && Undisturbed(d, i) && d.app.session.useful && !d.app.suppressed
    requires d.app.usb && (d.app.absent || d.app.session.replug) && !i.due
    ensures var after := Frame(d, i);
            after.app.waiting && after.app.timer && after.app.retries == d.app.retries
            && (d.app.absent ==> after.app.absentSeen) && after.book.ever == d.book.ever
  {
    UndisturbedFrame(d, i);
    hide Frame;
  }

  /** ... and dialled by the first list that shows it again after one that did not. */
  lemma ReturnedPhonesAreDialled(d: Desk, i: Input)
    requires d.app.usb && d.app.waiting && d.app.absentSeen && !d.app.suppressed && !d.app.running && d.app.attempted
    requires d.app.session.Idle? || (d.app.session.Failed? && !d.app.pending && !d.app.recover)
    requires d.app.listing.On? && !d.app.switching && !d.app.timer
    requires i.absences == [false] && !i.alive && i.press.NoPress?
    ensures Frame(d, i).book.ever == d.book.ever + 1
    ensures !Frame(d, i).app.waiting
  {
    var polled := d.(app := d.app.(paired := i.paired, session := i.polled, running := i.alive));
    QuietLogic(d, i);
    OneList(polled, i.dials);
    BackIsDialled(polled, DialAt(i.dials, 2));
    hide Logic, Drain, Reconcile;
  }

  lemma BackIsDialled(d: Desk, dial: Dial)
    requires d.app.usb && d.app.waiting && d.app.absentSeen && !d.app.suppressed && !d.app.running
    ensures Reconcile(d, false, dial).book.ever == d.book.ever + 1 && !Reconcile(d, false, dial).app.waiting
  {
  }

  /** The session calls for nothing and no attempt is due: the frame is its lists. */
  lemma QuietLogic(d: Desk, i: Input)
    requires d.app.session.Idle? || (d.app.session.Failed? && !d.app.pending && !d.app.recover)
    requires !d.app.switching && d.app.attempted && !d.app.timer
    ensures Logic(d, i)
         == Drain(d.(app := d.app.(paired := i.paired, session := i.polled, running := i.alive)), i.absences, i.dials)
  {
    ReconnectWindow.ObserveIs(d);
    hide Observe, Drain, AutoConnect;
  }

  lemma OneList(d: Desk, dials: seq<Dial>)
    requires d.app.listing.On?
    ensures Drain(d, [false], dials) == Reconcile(d, false, DialAt(dials, 2))
  {
    ReconnectBound.OneList(d, false, dials);
    hide ReconcileAll, Reconcile;
  }

  /** The button: it connects what can be connected, starting every count anew, and
      disconnects what runs, after which nothing dials by itself. */
  lemma ButtonConnectsAndDisconnects(d: Desk, dial: Dial)
    ensures var able := (!d.app.usb && d.app.paired) || (d.app.usb && !d.app.absent);
            var after := Ui(d, Button(dial));
            && (!d.app.running && !able ==> after == d)
            && (!d.app.running && able ==>
                  !after.app.suppressed && after.app.retries == 0 && after.app.pending && !after.app.waiting
                  && after.app.session == (if dial.Started? then Connecting else Failed(dial.useful, dial.replug))
                  && after.app.running == dial.Started? && after.book.dials == 0)
            && (d.app.running ==>
                  after.app.suppressed && !after.app.timer && !after.app.waiting && !after.app.recover
                  && after.app.session == Stopping && after.book == d.book)
  {
  }
}

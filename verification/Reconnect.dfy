/** Automatic reconnection (host-rs/src/gui.rs:181-298, 434-450, 910-942, 993-1016,
    1117-1135, 1154, 1162-1185, 1229-1237, 1245-1270, 1304-1320, 1390-1428, 1863-1866).

    A frame runs the window's logic once and then at most one press. The session, the
    device lists and the clock are inputs: a session may report anything, an armed
    timer may or may not be due, a dial may fail at once. Device lists are made only
    while USB is selected; one may still be on its way when Wi-Fi is chosen. */
module Reconnect {
  const LIMIT: nat := 8

  /** `Live` is waiting for video or streaming; `Connecting` includes approval. A
      failure says whether retrying can help and whether it asks for a replug. */
  datatype Session = Idle | Connecting | Live | Stopping | Failed(useful: bool, replug: bool)

  /** The thread that lists devices: at work, parked with one list still to be
      delivered, or parked. */
  datatype Listing = On | Late | Off

  datatype App = App(
    usb: bool, paired: bool, attempted: bool,
    timer: bool, retries: nat, suppressed: bool, pending: bool, recover: bool,
    waiting: bool, absentSeen: bool, absent: bool, switching: bool,
    running: bool, session: Session, listing: Listing)

  /** Automatic dials and observed absences since the last reset - video arriving, a
      Connect press or a Wi-Fi switch - and all automatic dials ever made. */
  datatype Book = Book(dials: nat, absences: nat, ever: nat)

  datatype Desk = Desk(app: App, book: Book)

  /** What one dial attempt returns: started, or failed at once. */
  datatype Dial = Started | Refused(useful: bool, replug: bool)

  function NewBook(a: App, ever: nat): Book { Book(0, if a.absentSeen then 1 else 0, ever) }

  // ----- Decisions -----

  datatype Plan = Stop | Exhausted | WaitForDevice | DialAgain(attempt: nat)

  function PlanRetry(a: App, useful: bool, replug: bool): Plan {
    if a.suppressed || !useful then Stop
    else if a.usb && (a.absent || replug) then WaitForDevice
    else if a.retries + 1 > LIMIT then Exhausted
    else DialAgain(a.retries + 1)
  }

  predicate UsbMayDial(waiting: bool, absent: bool, absentSeen: bool) { !absent && (waiting ==> absentSeen) }

  function SeeAbsence(d: Desk, absent: bool): Desk {
    if absent && !d.app.absentSeen then
      Desk(d.app.(absentSeen := true), d.book.(absences := d.book.absences + 1))
    else d
  }

  function ArmRetry(d: Desk, useful: bool, replug: bool): Desk {
    match PlanRetry(d.app, useful, replug)
    case Stop => d.(app := d.app.(timer := false, waiting := false, absentSeen := false))
    case Exhausted =>
      d.(app := d.app.(timer := false, waiting := false, absentSeen := false, retries := LIMIT + 1))
    case WaitForDevice =>
      var seen := SeeAbsence(d, d.app.absent);
      seen.(app := seen.app.(waiting := true, timer := true))
    case DialAgain(attempt) =>
      d.(app := d.app.(waiting := false, absentSeen := false, retries := attempt, timer := true))
  }

  // ----- An automatic attempt -----

  function DialNow(d: Desk, dial: Dial): Desk {
    var book := d.book.(dials := d.book.dials + 1, ever := d.book.ever + 1);
    var left := if d.app.usb then d.app.(waiting := false, absentSeen := false) else d.app;
    if dial.Started? then
      Desk(left.(pending := true, timer := false, running := true, session := Connecting), book)
    else
      Desk(left.(pending := true, session := Failed(dial.useful, dial.replug)), book)
  }

  function AutoConnect(d: Desk, dial: Dial): Desk {
    if d.app.running then d
    else if d.app.usb then
      if !d.app.waiting && d.app.retries == 0 then d
      else
        var seen := SeeAbsence(d, d.app.absent);
        if UsbMayDial(seen.app.waiting, seen.app.absent, seen.app.absentSeen) then DialNow(seen, dial)
        else
          var held := seen.app.(waiting := seen.app.waiting || seen.app.absent);
          seen.(app := if held.suppressed then held else held.(timer := true))
    else if !d.app.paired then d
    else DialNow(d, dial)
  }

  // ----- A frame -----

  /** Everything the outside supplies to one frame. */
  datatype Input = Input(
    paired: bool, due: bool, dials: seq<Dial>, polled: Session, alive: bool, absences: seq<bool>, press: Press)

  datatype Press = NoPress | Button(dial: Dial) | SwitchToLan | Pick(usb: bool) | ChoosePhone

  /** The n-th dial of a frame; a frame that has no more to say starts the rest. */
  function DialAt(dials: seq<Dial>, n: nat): Dial { if n < |dials| then dials[n] else Started }

  function Observe(d: Desk): Desk {
    match d.app.session
    case Live =>
      var a := d.app.(pending := false, retries := 0, timer := false, recover := true,
                      waiting := false, absentSeen := false);
      Desk(a, NewBook(a, d.book.ever))
    case Connecting => d.(app := d.app.(pending := false, recover := true, timer := false))
    case Failed(useful, replug) =>
      if d.app.pending || d.app.recover then
        ArmRetry(d.(app := d.app.(pending := false, recover := false)), useful, replug)
      else d
    case _ => d
  }

  function CompleteSwitch(d: Desk, dial: Dial): Desk {
    if !d.app.switching || d.app.running then d
    else
      var a := d.app.(switching := false, usb := false, retries := 0, suppressed := false);
      AutoConnect(Desk(a, NewBook(a, d.book.ever)), dial)
  }

  function LaunchOrRetry(d: Desk, due: bool, dial: Dial): Desk {
    if !d.app.attempted then AutoConnect(d.(app := d.app.(attempted := true)), dial)
    else if d.app.timer && due then AutoConnect(d.(app := d.app.(timer := false)), dial)
    else d
  }

  function Reconcile(d: Desk, absent: bool, dial: Dial): Desk {
    var seen := d.(app := d.app.(absent := absent));
    if seen.app.waiting && !absent && !seen.app.running && !seen.app.suppressed then AutoConnect(seen, dial) else seen
  }

  function ReconcileAll(d: Desk, absences: seq<bool>, dials: seq<Dial>): Desk {
    if absences == [] then d
    else
      Reconcile(ReconcileAll(d, absences[..|absences| - 1], dials), absences[|absences| - 1],
                DialAt(dials, |absences| + 1))
  }

  /** Of the lists the outside offers, those that can arrive. */
  function Delivered(listing: Listing, absences: seq<bool>): seq<bool> {
    if listing.On? then absences else if listing.Late? && absences != [] then absences[..1] else []
  }

  function Drain(d: Desk, absences: seq<bool>, dials: seq<Dial>): Desk {
    var lists := Delivered(d.app.listing, absences);
    ReconcileAll(if d.app.listing.Late? && lists != [] then d.(app := d.app.(listing := Off)) else d, lists, dials)
  }

  function Logic(d: Desk, i: Input): Desk {
    var observed := Observe(d);
    var paired := observed.(app := observed.app.(paired := i.paired));
    var switched := CompleteSwitch(paired, DialAt(i.dials, 0));
    var tried := LaunchOrRetry(switched, i.due, DialAt(i.dials, 1));
    var polled := tried.(app := tried.app.(session := i.polled, running := i.alive));
    Drain(polled, i.absences, i.dials)
  }

  /** Whether the Connect button can be pressed. */
  predicate Allowed(a: App) { a.running || (!a.usb && a.paired) || (a.usb && !a.absent) }

  function Ui(d: Desk, press: Press): Desk {
    match press
    case NoPress => d
    case Button(dial) =>
      if !Allowed(d.app) then d else if d.app.running then Disconnect(d) else Connect(d, dial)
    case SwitchToLan =>
      d.(app := d.app.(switching := true, session := if d.app.running then Stopping else d.app.session))
    case Pick(usb) => if d.app.running then d else d.(app := d.app.(usb := usb, session := Idle))
    case ChoosePhone => if d.app.running || !d.app.usb then d else d.(app := d.app.(absent := false))
  }

  function Disconnect(d: Desk): Desk {
    d.(app := d.app.(timer := false, suppressed := true, recover := false, waiting := false, absentSeen := false,
                     pending := false, session := Stopping))
  }

  function Connect(d: Desk, dial: Dial): Desk {
    var a := d.app.(suppressed := false, retries := 0, pending := true, waiting := false, absentSeen := false,
                    recover := false);
    var book := NewBook(a, d.book.ever);
    match dial
    case Started => Desk(a.(running := true, session := Connecting), book)
    case Refused(useful, replug) => Desk(a.(session := Failed(useful, replug)), book)
  }

  /** The end of a frame tells the listing thread which transport is selected. */
  function TellListing(d: Desk): Desk {
    d.(app := d.app.(listing := if d.app.usb then On else if d.app.listing.On? then Late else d.app.listing))
  }

  function Frame(d: Desk, i: Input): Desk { TellListing(Ui(Logic(d, i), i.press)) }

  function Run(d: Desk, inputs: seq<Input>): Desk {
    if inputs == [] then d else Frame(Run(d, inputs[..|inputs| - 1]), inputs[|inputs| - 1])
  }

  /** The window as it opens. */
  function Opening(usb: bool, paired: bool, absent: bool): Desk {
    var a := App(usb, paired, false, false, 0, false, false, false, false, false, absent, false, false, Idle,
                 if usb then On else Off);
    Desk(a, NewBook(a, 0))
  }

  lemma RunOne(d: Desk, inputs: seq<Input>, last: Input)
    ensures Run(d, inputs + [last]) == Frame(Run(d, inputs), last)
  {
    assert (inputs + [last])[..|inputs|] == inputs;
  }

  lemma {:induction false} RunConcat(d: Desk, a: seq<Input>, b: seq<Input>)
    ensures Run(d, a + b) == Run(Run(d, a), b)
    decreases |b|
  {
    if b == [] {
      assert a + b == a;
    } else {
      RunConcat(d, a, b[..|b| - 1]);
      assert (a + b)[..|a + b| - 1] == a + b[..|b| - 1];
    }
  }
}

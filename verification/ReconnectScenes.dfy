/** Runs of the window, frame by frame: two in which reconnection does more than it
    should, and one in which what looks like the same fault is harmless
    (host-rs/src/gui.rs:181-298, 1117-1185, 1229-1270, 1392-1399). */
module ReconnectScenes {
  import opened Reconnect
  import opened ReconnectBound
  import opened ReconnectPick
  import opened ReconnectQuiet

  // ----- More dials than the bound allows -----

  /** The launch over Wi-Fi fails; the user picks USB before the retry, whose dial asks
      for a replug; the user picks Wi-Fi again instead. */
  function Setup(): seq<Input> {
    [Input(true, false, Refusals(), Failed(true, false), false, [], NoPress),
     Input(true, false, [], Failed(true, false), false, [], Pick(true)),
     Input(true, true, [Started, Refused(true, true)], Failed(true, true), false, [], NoPress),
     Input(true, false, [], Failed(true, true), false, [], Pick(false))]
  }

  function AfterLaunch(): Desk {
    Desk(App(false, true, true, false, 0, false, true, false, false, false, false, false, false, Failed(true, false),
      Off),
         Book(1, 0, 1))
  }

  function AfterUsb(): Desk {
    Desk(App(true, true, true, true, 1, false, false, false, false, false, false, false, false, Idle, On),
      Book(1, 0, 1))
  }

  function AfterRetry(): Desk {
    Desk(App(true, true, true, false, 1, false, true, false, false, false, false, false, false, Failed(true, true), On),
         Book(2, 0, 2))
  }

  function AfterWifi(): Desk {
    Desk(App(false, true, true, true, 1, false, false, false, true, false, false, false, false, Idle, Late),
      Book(2, 0, 2))
  }

  lemma LaunchFrame()
    ensures Frame(Opening(false, true, false), Setup()[0]) == AfterLaunch()
  {
  }

  lemma UsbFrame()
    ensures Frame(AfterLaunch(), Setup()[1]) == AfterUsb()
  {
    var i := Setup()[1];
    var armed := AfterLaunch().(app := AfterLaunch().app.(pending := false, timer := true, retries := 1));
    assert Observe(AfterLaunch()) == armed;
    assert LaunchOrRetry(armed, i.due, DialAt(i.dials, 1)) == armed;
    NoSwitch(armed, DialAt(i.dials, 0));
    QuietDrain(armed, i.dials);
    hide Observe, LaunchOrRetry, CompleteSwitch, Drain;
  }

  lemma ReplugFrame()
    ensures Frame(AfterUsb(), Setup()[2]) == AfterRetry()
  {
  }

  lemma WifiFrame()
    ensures Frame(AfterRetry(), Setup()[3]) == AfterWifi()
  {
    var i := Setup()[3];
    var armed := AfterRetry().(app := AfterRetry().app.(pending := false, timer := true, waiting := true));
    assert Observe(AfterRetry()) == armed;
    assert LaunchOrRetry(armed, i.due, DialAt(i.dials, 1)) == armed;
    NoSwitch(armed, DialAt(i.dials, 0));
    QuietDrain(armed, i.dials);
    hide Observe, LaunchOrRetry, CompleteSwitch, Drain;
  }

  /** The second pick leaves a timer and a wait on Wi-Fi: two dials beyond what is left. */
  lemma SetupLeavesTooMuch()
    ensures Run(Opening(false, true, false), Setup()) == AfterWifi()
  {
    var d0, inputs := Opening(false, true, false), Setup();
    LaunchFrame();
    UsbFrame();
    ReplugFrame();
    WifiFrame();
    hide Frame, Opening, AfterLaunch, AfterUsb, AfterRetry, AfterWifi;
    assert Run(d0, []) == d0;
    assert inputs[..1] == [] + [inputs[0]] && inputs[..2] == inputs[..1] + [inputs[1]];
    assert inputs[..3] == inputs[..2] + [inputs[2]] && inputs == inputs[..3] + [inputs[3]];
    RunOne(d0, [], inputs[0]);
    RunOne(d0, inputs[..1], inputs[1]);
    RunOne(d0, inputs[..2], inputs[2]);
    RunOne(d0, inputs[..3], inputs[3]);
    hide Run;
  }

  /** The bound does fail: without one Connect press, reset or observed absence, that
      window goes on to dial more than nine times, and no further press is needed. */
  lemma PickingMeanwhileExceeds() returns (more: seq<Input>)
    ensures Careful(AfterWifi(), more)
    ensures var d := Run(Opening(false, true, false), Setup() + more);
            d.book.absences == 0 && d.book.dials > 1 + LIMIT
  {
    SetupLeavesTooMuch();
    more := ExceedingRun();
    RunConcat(Opening(false, true, false), Setup(), more);
    hide Run, Setup, Careful;
  }

  lemma ExceedingRun() returns (more: seq<Input>)
    ensures Careful(AfterWifi(), more)
    ensures var b := Run(AfterWifi(), more).book; b.absences == 0 && b.dials > 1 + LIMIT
  {
    var d := AfterWifi();
    var first := OwedIsDialled(d);
    RetriesDial(Run(d, first), LIMIT - 1);
    more := first + Repeat(LIMIT - 1);
    hide Run, Careful, Repeat;
    RunConcat(d, first, Repeat(LIMIT - 1));
    CarefulConcat(d, first, Repeat(LIMIT - 1));
  }

  // ----- A leftover timer that is still allowed for -----

  /** Connect asks for a replug; the phone leaves and comes back; its dial fails at once,
      and Wi-Fi is picked before the window has looked at that failure. */
  function Replug(): seq<Input> {
    [Input(true, false, [], Failed(true, true), false, [], Button(Refused(true, true))),
     Input(true, false, [], Failed(true, true), false, [true], NoPress),
     Input(true, true, [], Failed(true, true), false, [], NoPress),
     Input(true, false, Refusals(), Idle, false, [false], Pick(false))]
  }

  function AfterConnect(): Desk {
    Desk(App(true, true, true, false, 0, false, true, false, false, false, false, false, false, Failed(true, true), On),
         Book(0, 0, 0))
  }

  function AfterLeaving(): Desk {
    Desk(App(true, true, true, true, 0, false, false, false, true, false, true, false, false, Failed(true, true), On),
         Book(0, 0, 0))
  }

  function AfterLook(): Desk {
    Desk(App(true, true, true, true, 0, false, false, false, true, true, true, false, false, Failed(true, true), On),
         Book(0, 1, 0))
  }

  function AfterReturn(): Desk {
    Desk(App(false, true, true, true, 0, false, true, false, false, false, false, false, false, Idle, Late),
         Book(1, 1, 1))
  }

  lemma RefusedFrame()
    ensures Frame(Opening(true, true, false), Replug()[0]) == AfterConnect()
  {
  }

  lemma LeavingFrame()
    ensures Frame(AfterConnect(), Replug()[1]) == AfterLeaving()
  {
    var i := Replug()[1];
    var armed := AfterConnect().(app := AfterConnect().app.(pending := false, timer := true, waiting := true));
    assert Observe(AfterConnect()) == armed;
    assert LaunchOrRetry(armed, i.due, DialAt(i.dials, 1)) == armed;
    NoSwitch(armed, DialAt(i.dials, 0));
    OneList(armed, true, i.dials);
    hide Observe, LaunchOrRetry, CompleteSwitch, ReconcileAll;
  }

  lemma LookFrame()
    ensures Frame(AfterLeaving(), Replug()[2]) == AfterLook()
  {
    var d, i := AfterLeaving(), Replug()[2];
    assert Observe(d) == d;
    NoSwitch(d, DialAt(i.dials, 0));
    assert LaunchOrRetry(d, i.due, DialAt(i.dials, 1)) == AfterLook();
    QuietDrain(AfterLook(), i.dials);
    hide Observe, LaunchOrRetry, CompleteSwitch, Drain;
  }

  lemma ReturnFrame()
    ensures Frame(AfterLook(), Replug()[3]) == AfterReturn()
  {
    var d, i := AfterLook(), Replug()[3];
    assert Observe(d) == d;
    assert LaunchOrRetry(d, i.due, DialAt(i.dials, 1)) == d;
    NoSwitch(d, DialAt(i.dials, 0));
    OneList(d.(app := d.app.(session := Idle)), false, i.dials);
    hide Observe, LaunchOrRetry, CompleteSwitch, ReconcileAll;
  }

  lemma ReplugLeavesTimer()
    ensures Run(Opening(true, true, false), Replug()) == AfterReturn()
  {
    var d0, inputs := Opening(true, true, false), Replug();
    RefusedFrame();
    LeavingFrame();
    LookFrame();
    ReturnFrame();
    hide Frame, Opening, AfterConnect, AfterLeaving, AfterLook, AfterReturn;
    assert Run(d0, []) == d0;
    assert inputs[..1] == [] + [inputs[0]] && inputs[..2] == inputs[..1] + [inputs[1]];
    assert inputs[..3] == inputs[..2] + [inputs[2]] && inputs == inputs[..3] + [inputs[3]];
    RunOne(d0, [], inputs[0]);
    RunOne(d0, inputs[..1], inputs[1]);
    RunOne(d0, inputs[..2], inputs[2]);
    RunOne(d0, inputs[..3], inputs[3]);
    hide Run;
  }

  lemma ReturnFits()
    ensures Between(AfterReturn()) && Fits(AfterReturn(), Pressed)
  {
  }

  /** A pick may leave a timer running and still do no harm: the one dial it causes fits
      the absence observed and the launch dial never made. */
  lemma LeftoverTimerMayFit(more: seq<Input>)
    requires Careful(Run(Opening(true, true, false), Replug()), more)
    ensures var d := Run(Opening(true, true, false), Replug());
            d.app.timer && !d.app.usb && d.app.session.Idle? && Bounded(Run(d, more).book)
  {
    ReplugLeavesTimer();
    ReturnFits();
    hide Run, Careful, Between, Fits, Replug;
    RunKeeps(AfterReturn(), more);
    FitsBounds(Run(AfterReturn(), more));
  }

  // ----- A dial after Disconnect -----

  /** Connect over USB, see video, press the Wi-Fi switch, and press Disconnect while
      the worker is still stopping. */
  function Script(): seq<Input> {
    [Input(true, false, [], Idle, false, [], Button(Started)),
     Input(true, false, [], Live, true, [], NoPress),
     Input(true, false, [], Live, true, [], SwitchToLan),
     Input(true, false, [], Stopping, true, [], Button(Started))]
  }

  function Connected(): Desk {
    Desk(App(true, true, true, false, 0, false, true, false, false, false, false, false, true, Connecting, On),
      Book(0, 0, 0))
  }

  function Watching(): Desk {
    Desk(App(true, true, true, false, 0, false, false, true, false, false, false, false, true, Live, On), Book(0, 0, 0))
  }

  function Switching(): Desk {
    Desk(App(true, true, true, false, 0, false, false, true, false, false, false, true, true, Stopping, On),
      Book(0, 0, 0))
  }

  function Disconnected(): Desk {
    Desk(App(true, true, true, false, 0, true, false, false, false, false, false, true, true, Stopping, On),
      Book(0, 0, 0))
  }

  lemma ConnectFrame()
    ensures Frame(Opening(true, true, false), Script()[0]) == Connected()
  {
  }

  lemma VideoFrame()
    ensures Frame(Connected(), Script()[1]) == Watching()
  {
  }

  lemma SwitchPressFrame()
    ensures Frame(Watching(), Script()[2]) == Switching()
  {
  }

  lemma DisconnectFrame()
    ensures Frame(Switching(), Script()[3]) == Disconnected()
  {
  }

  /** Disconnect is not always final: here it is pressed, nothing else is, and the
      window dials on its own once the worker has stopped. */
  lemma DisconnectMeetsSwitch()
    ensures var d := Run(Opening(true, true, false), Script());
            && d.app.suppressed && d.book.ever == 0
            && AllIdle(d, [WorkerEnds(), WorkerEnds()])
            && Run(d, [WorkerEnds(), WorkerEnds()]).book.ever == 1
  {
    var d0, s := Opening(true, true, false), Script();
    ConnectFrame();
    VideoFrame();
    SwitchPressFrame();
    DisconnectFrame();
    hide Frame, Opening, Connected, Watching, Switching;
    assert Run(d0, []) == d0;
    assert s[..1] == [] + [s[0]] && s[..2] == s[..1] + [s[1]] && s[..3] == s[..2] + [s[2]] && s == s[..3] + [s[3]];
    RunOne(d0, [], s[0]);
    RunOne(d0, s[..1], s[1]);
    RunOne(d0, s[..2], s[2]);
    RunOne(d0, s[..3], s[3]);
    hide Run, AllIdle;
    SwitchOutlivesDisconnect(Disconnected());
  }
}

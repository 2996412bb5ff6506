/** Following the selected phone across unplugging and re-enumeration
    (host-rs/src/usb.rs:445-490). */
module UsbSelection {
  import opened Basics

  /** A device's bus and port path, and the rest of its identity, which changes when
      the phone enters accessory mode or is plugged in again. */
  datatype Device = Device(bus: nat, ports: seq<nat>, other: nat)

  datatype Candidate = Candidate(id: Device, suggested: bool)

  datatype Choice = Choice(selected: Option<Device>, lost: bool)

  predicate SamePort(a: Device, b: Device) { a.bus == b.bus && a.ports == b.ports }

  function Suggested(devices: seq<Candidate>): seq<Device> {
    if devices == [] then []
    else (if devices[0].suggested then [devices[0].id] else []) + Suggested(devices[1..])
  }

  function OnPort(devices: seq<Candidate>, id: Device): (found: Option<Device>)
    ensures found.Some? ==> SamePort(found.value, id) && exists i :: 0 <= i < |devices| && devices[i].id == found.value
    ensures found.None? ==> forall i :: 0 <= i < |devices| ==> !SamePort(devices[i].id, id)
  {
    if devices == [] then None
    else if SamePort(devices[0].id, id) then Some(devices[0].id)
    else OnPort(devices[1..], id)
  }

  predicate Present(devices: seq<Candidate>, id: Device) { exists i :: 0 <= i < |devices| && devices[i].id == id }

  function Reconcile(c: Choice, devices: seq<Candidate>): Choice {
    var suggested := Suggested(devices);
    match c.selected
    case Some(current) =>
      if Present(devices, current) then Choice(Some(current), false)
      else if OnPort(devices, current).Some? then Choice(Some(OnPort(devices, current).value), false)
      else if c.lost && |suggested| == 1 then Choice(Some(suggested[0]), false)
      else Choice(Some(current), true)
    case None =>
      if !c.lost && |suggested| == 1 then Choice(Some(suggested[0]), false) else c
  }

  /** MAIN RESULT: a selection once made is never dropped; it moves to another port only
      after the phone was already seen to be gone and a single suggested device is
      there; a device on the phone's own port always wins; and the phone counts as lost
      exactly when neither is found. */
  lemma SelectionFollowsThePhone(c: Choice, devices: seq<Candidate>)
    requires c.selected.Some?
    ensures var next := Reconcile(c, devices);
            && next.selected.Some?
            && (!SamePort(next.selected.value, c.selected.value) ==>
                  c.lost && Suggested(devices) == [next.selected.value])
            && ((exists i :: 0 <= i < |devices| && SamePort(devices[i].id, c.selected.value)) ==>
                  SamePort(next.selected.value, c.selected.value) && Present(devices, next.selected.value))
            && (next.lost <==> !Present(devices, next.selected.value))
  {
    var next := Reconcile(c, devices);
    var current := c.selected.value;
    if !Present(devices, current) && OnPort(devices, current).None? {
      forall i | 0 <= i < |devices| ensures devices[i].id != current { assert !SamePort(devices[i].id, current); }
      if c.lost && |Suggested(devices)| == 1 {
        SuggestedPresent(devices);
      }
    }
  }

  lemma {:induction false} SuggestedPresent(devices: seq<Candidate>)
    ensures forall id :: id in Suggested(devices) ==> Present(devices, id)
  {
    if devices != [] {
      SuggestedPresent(devices[1..]);
      forall id | id in Suggested(devices) ensures Present(devices, id) {
        if devices[0].suggested && devices[0].id == id {
          assert devices[0].id == id;
        } else {
          assert id in Suggested(devices[1..]) && Present(devices[1..], id);
          var i :| 0 <= i < |devices[1..]| && devices[1..][i].id == id;
          assert devices[i + 1].id == id;
        }
      }
    }
  }

  /** The same list twice more changes nothing: the first look may mark the phone lost,
      the second may adopt its replacement, and then the choice is settled. */
  lemma ChoiceSettles(c: Choice, devices: seq<Candidate>)
    ensures var twice := Reconcile(Reconcile(c, devices), devices);
            Reconcile(twice, devices) == twice
  {
    SuggestedPresent(devices);
  }

  /** Candidate `i` is the only suggested one. */
  predicate OnlySuggested(devices: seq<Candidate>, i: nat) {
    && i < |devices| && devices[i].suggested
    && forall j :: 0 <= j < |devices| && devices[j].suggested ==> j == i
  }

  predicate NoneSuggested(devices: seq<Candidate>) { forall i :: 0 <= i < |devices| ==> !devices[i].suggested }

  lemma {:induction false} OneSuggestion(devices: seq<Candidate>)
    ensures Suggested(devices) == [] <==> NoneSuggested(devices)
    ensures |Suggested(devices)| == 1 ==>
              exists i: nat :: OnlySuggested(devices, i) && Suggested(devices) == [devices[i].id]
    ensures forall i: nat :: OnlySuggested(devices, i) ==> Suggested(devices) == [devices[i].id]
  {
    if devices != [] {
      var rest := devices[1..];
      OneSuggestion(rest);
      assert forall j :: 0 <= j < |rest| ==> rest[j] == devices[j + 1];
      if devices[0].suggested {
        assert Suggested(devices) == [devices[0].id] + Suggested(rest);
        if |Suggested(devices)| == 1 { assert OnlySuggested(devices, 0); }
        forall i: nat | OnlySuggested(devices, i) ensures Suggested(devices) == [devices[i].id] {
          assert i == 0;
          assert NoneSuggested(rest);
        }
      } else {
        if |Suggested(devices)| == 1 {
          var i: nat :| OnlySuggested(rest, i) && Suggested(rest) == [rest[i].id];
          assert OnlySuggested(devices, i + 1);
        }
        forall i: nat | OnlySuggested(devices, i) ensures Suggested(devices) == [devices[i].id] {
          assert i > 0 && OnlySuggested(rest, i - 1);
        }
      }
    }
  }

  /** MAIN RESULT: with nothing selected a phone is adopted if and only if it is the only
      one suggested and none was lost before; otherwise nothing changes. */
  lemma FirstPhoneIsAdopted(c: Choice, devices: seq<Candidate>, i: nat)
    requires c.selected.None?
    ensures !c.lost && OnlySuggested(devices, i) ==> Reconcile(c, devices) == Choice(Some(devices[i].id), false)
    ensures c.lost || (forall j: nat :: !OnlySuggested(devices, j)) ==> Reconcile(c, devices) == c
  {
    OneSuggestion(devices);
  }

  /** MAIN RESULT: a selected phone that is there stays selected; one that is not is replaced
      by what is on its port, or, once it was seen to be gone, by the only one suggested;
      and otherwise it is remembered as lost. */
  lemma SelectionMoves(c: Choice, devices: seq<Candidate>, i: nat)
    requires c.selected.Some?
    ensures var current, next := c.selected.value, Reconcile(c, devices);
            var here := exists j :: 0 <= j < |devices| && devices[j].id == current;
            var port := exists j :: 0 <= j < |devices| && devices[j].id.bus == current.bus
                                     && devices[j].id.ports == current.ports;
            && (here ==> next == Choice(Some(current), false))
            && (!here && port ==>
                  next.selected.Some? && !next.lost
                  && next.selected.value.bus == current.bus && next.selected.value.ports == current.ports)
            && (!port && c.lost && OnlySuggested(devices, i) ==> next == Choice(Some(devices[i].id), false))
            && (!port && (!c.lost || forall j: nat :: !OnlySuggested(devices, j)) ==>
                  next == Choice(Some(current), true))
  {
    OneSuggestion(devices);
    var current := c.selected.value;
    if OnPort(devices, current).None? {
      forall j | 0 <= j < |devices|
        ensures !(devices[j].id.bus == current.bus && devices[j].id.ports == current.ports)
      {
        assert !SamePort(devices[j].id, current);
      }
    }
    hide Suggested, OnlySuggested, NoneSuggested;
  }
}

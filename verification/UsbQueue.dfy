/** The byte queue between whole USB transfers and a frame reader that asks for less
    (host-rs/src/usb.rs:343-363, 396-424). */
module UsbQueue {
  import opened Basics
  import opened Bytes
  import opened Wire

  datatype Transfer = Received(data: bytes) | TimedOut | Interrupted | Broken

  datatype Fault = Retry | Expired | Failed

  class Queue {
    var pending: bytes

    /** Every byte taken from the device since the stream was aligned, and every byte
        handed on. */
    ghost var taken: bytes
    ghost var given: bytes

    ghost predicate Valid()
      reads this
    {
      given + pending == taken
    }

    constructor ()
      ensures Valid() && pending == [] && taken == [] && given == []
    {
      pending, taken, given := [], [], [];
    }

    /** One call of the reader's source: at most `room` bytes, queued ones first. The
        device is asked only when nothing is queued. */
    method Take(room: nat, transfer: Transfer) returns (r: Result<bytes, Fault>)
      requires Valid()
      modifies this
      ensures Valid()
      ensures old(pending) != [] ==> taken == old(taken)
      ensures old(pending) == [] ==> taken == old(taken) + if transfer.Received? then transfer.data else []
      ensures r.Ok? ==> given == old(given) + r.value && |r.value| <= room
      ensures r.Ok? && room > 0 ==> r.value != []
      ensures r.Err? ==> given == old(given) && pending == old(pending) == []
      ensures r.Err? <==> old(pending) == [] && (!transfer.Received? || transfer.data == [])
      ensures r.Err? ==> r.error == if transfer.TimedOut? then Expired else if transfer.Broken? then Failed else Retry
      ensures r.Ok? ==>
        var there := if old(pending) != [] then |old(pending)| else |transfer.data|;
        |r.value| == if there < room then there else room
    {
      if pending == [] {
        match transfer {
          case Interrupted => return Err(Retry);
          case TimedOut => return Err(Expired);
          case Broken => return Err(Failed);
          case Received(data) =>
            taken := taken + data;
            if data == [] { return Err(Retry); }
            pending := data;
        }
      }
      var front := Give(room);
      r := Ok(front);
    }

    /** The front of the queue, `room` bytes at most. */
    method Give(room: nat) returns (front: bytes)
      requires Valid()
      modifies this`pending, this`given
      ensures Valid() && given == old(given) + front && old(pending) == front + pending
      ensures |front| == if |old(pending)| < room then |old(pending)| else room
    {
      var count := if |pending| < room then |pending| else room;
      front := pending[..count];
      assert given + pending == (given + front) + pending[count..];
      given := given + front;
      pending := pending[count..];
    }

    /** MAIN RESULT: whatever the reader asks for and however transfers arrive, the
        bytes it has been given are a prefix of the bytes taken, and the queue holds
        exactly the rest - none lost, repeated or reordered. A transfer is taken only
        when the queue is empty. */
    method Drain(rooms: seq<nat>, transfers: seq<Transfer>) returns (got: bytes, used: nat)
      requires Valid()
      modifies this
      ensures Valid() && given == old(given) + got && given <= taken && pending == taken[|given|..]
      ensures used <= |transfers| && taken == old(taken) + Concat(transfers[..used])
      ensures (forall i :: 0 <= i < |rooms| ==> rooms[i] > 0)
              && (forall i :: 0 <= i < |transfers| ==> transfers[i].Received? && transfers[i].data != []) ==>
        |got| >= |rooms| || (used == |transfers| && pending == [])
    {
      got, used := [], 0;
      var i := 0;
      assert old(taken) + Concat(transfers[..0]) == old(taken);
      ghost var busy := (forall i :: 0 <= i < |rooms| ==> rooms[i] > 0)
                        && forall i :: 0 <= i < |transfers| ==> transfers[i].Received? && transfers[i].data != [];
      while i < |rooms|
        invariant 0 <= i <= |rooms| && Valid() && given == old(given) + got
        invariant used <= |transfers| && taken == old(taken) + Concat(transfers[..used])
        invariant busy ==> |got| >= i || (used == |transfers| && pending == [])
      {
        var transfer := TimedOut;
        if pending == [] && used < |transfers| {
          transfer := transfers[used];
          assert transfers[..used + 1][..used] == transfers[..used];
          used := used + 1;
        }
        ghost var before := taken;
        var r := Take(rooms[i], transfer);
        if r.Ok? { got := got + r.value; }
        i := i + 1;
      }
      assert taken[..|given|] == given;
    }

    /** Start at a frame boundary: transfers that do not begin with a header are
        dropped, the first one that does is kept whole, and an empty line is one too. */
    method Align(transfers: seq<Transfer>) returns (aligned: bool)
      requires Valid() && pending == [] && taken == []
      modifies this
      ensures Valid() && given == []
      ensures aligned ==> pending == [] || MAGIC <= pending
      ensures pending != [] ==> aligned && exists i ::
        && 0 <= i < |transfers| && i < 64 && transfers[i] == Received(pending)
        && forall k :: 0 <= k < i ==> Dropped(transfers[k])
      ensures forall i :: 0 <= i < |transfers| && i < 64 && (forall k :: 0 <= k < i ==> Dropped(transfers[k])) ==>
        && (transfers[i].Received? && MAGIC <= transfers[i].data ==> aligned && pending == transfers[i].data)
        && (transfers[i].TimedOut? || transfers[i] == Received([]) ==> aligned && pending == [])
        && (transfers[i].Interrupted? || transfers[i].Broken? ==> !aligned && pending == [])
    {
      var i := 0;
      while i < 64 && i < |transfers|
        invariant 0 <= i <= 64 && i <= |transfers| && Valid() && pending == taken == given == []
        invariant forall k :: 0 <= k < i ==> Dropped(transfers[k])
      {
        match transfers[i] {
          case TimedOut => return true;
          case Interrupted => return false;
          case Broken => return false;
          case Received(data) =>
            if data == [] { return true; }
            if |data| >= 4 && data[..4] == MAGIC {
              taken, pending := data, data;
              return true;
            }
        }
        i := i + 1;
      }
      return i < 64;
    }
  }

  /** A transfer that alignment throws away: the tail of somebody else's frame. */
  predicate Dropped(transfer: Transfer) { transfer.Received? && transfer.data != [] && !(MAGIC <= transfer.data) }

  function Concat(transfers: seq<Transfer>): bytes {
    if transfers == [] then []
    else
      var last := transfers[|transfers| - 1];
      Concat(transfers[..|transfers| - 1]) + if last.Received? then last.data else []
  }
}

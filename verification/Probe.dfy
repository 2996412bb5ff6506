/** The USB gate's accounting (host-rs/src/usb_probe.rs:106-150, 181-200, 418-519). */
module Probe {
  import opened Arithmetic
  import opened Basics
  import opened Bytes
  import opened Framing
  import opened Wire

  datatype Verdict = Echoed | SequenceMismatch | PayloadMismatch | TimedOut

  datatype Report = Report(
    sent: int, echoed: nat, sequenceMismatch: nat, payloadMismatch: nat, timedOut: nat, skipped: nat,
    rechallenged: bool, rtts: seq<u64>)

  const EMPTY: Report := Report(0, 0, 0, 0, 0, 0, false, [])

  predicate Pass(r: Report, expected: nat) {
    r.echoed == expected && r.sequenceMismatch == 0 && r.payloadMismatch == 0 && r.timedOut == 0
  }

  /** The sequence number and its complement. */
  function Challenge(sequence: u32): bytes { LE(sequence, 4) + LE(U32_MAX - sequence, 4) }

  lemma ChallengesDiffer(a: u32, b: u32)
    requires Challenge(a) == Challenge(b)
    ensures a == b
  {
    Widths();
    FromLEofLE(a, 4);
    FromLEofLE(b, 4);
    hide LE, FromLE;
    assert Challenge(a)[..4] == LE(a, 4) && Challenge(b)[..4] == LE(b, 4);
  }

  function Classify(sequence: u32, challenge: bytes, reply: Option<Frame>): Verdict {
    match reply
    case None => TimedOut
    case Some(frame) =>
      if frame.header.kind != PONG || frame.header.sequence != sequence then SequenceMismatch
      else if frame.payload != challenge then PayloadMismatch
      else Echoed
  }

  /** MAIN RESULT: the bytes of a challenge - the sequence number low byte first, then every
      one of its bytes inverted - and how a reply to it is judged. */
  lemma RepliesAreJudged(sequence: u32, frame: Frame)
    ensures var c := Challenge(sequence);
            && |c| == 8 && Holds4(c, 0, sequence)
            && c[4] == 255 - c[0] && c[5] == 255 - c[1] && c[6] == 255 - c[2] && c[7] == 255 - c[3]
    ensures var verdict := Classify(sequence, Challenge(sequence), Some(frame));
            && (verdict == Echoed <==>
                  && frame.header.kind == 0x04 && frame.header.sequence == sequence
                  && frame.payload == Challenge(sequence))
            && (verdict == SequenceMismatch <==> frame.header.kind != 0x04 || frame.header.sequence != sequence)
            && (verdict == TimedOut <==> false)
    ensures Classify(sequence, Challenge(sequence), None) == TimedOut
  {
    var c := Challenge(sequence);
    Widths();
    FromLEofLE(sequence, 4);
    FromLEofLE(U32_MAX - sequence, 4);
    assert c[0..4] == LE(sequence, 4) && c[4..8] == LE(U32_MAX - sequence, 4);
    LowByteFirst4(c, 0, sequence);
    LowByteFirst4(c, 4, U32_MAX - sequence);
    hide LE, FromLE, Pow256;
    Inverted(c[0], c[1], c[2], c[3], c[4], c[5], c[6], c[7]);
  }

  lemma Inverted(a: u8, b: u8, c: u8, d: u8, e: u8, f: u8, g: u8, h: u8)
    requires a + 0x100 * b + 0x1_0000 * c + 0x100_0000 * d + e + 0x100 * f + 0x1_0000 * g + 0x100_0000 * h == U32_MAX
    ensures e == 255 - a && f == 255 - b && g == 255 - c && h == 255 - d
  {
  }

  /** One poll while a reply is awaited: a frame, nothing yet, the budget spent, or a
      broken transport. `rtt` is what the clock shows when the frame comes. */
  datatype Arrival = Came(frame: Frame, rtt: u64) | Nothing | Spent | Broken

  // ----- One exchange -----

  datatype Reply =
    | Answer(frame: Option<Frame>, rtt: u64, skipped: nat, rest: seq<Arrival>)
    | Rechallenge(skipped: nat, rest: seq<Arrival>)
    | Lost

  /** The first frame that is a reply; other frames are counted and passed over, and a
      fresh challenge ends the wait. */
  function AwaitReply(script: seq<Arrival>): (r: Reply)
    ensures !r.Lost? ==> |r.rest| <= |script|
  {
    if script == [] then Answer(None, 0, 0, [])
    else
      match script[0]
      case Spent => Answer(None, 0, 0, script[1..])
      case Broken => Lost
      case Nothing => AwaitReply(script[1..])
      case Came(frame, rtt) =>
        if frame.header.kind == CLIENT_CHALLENGE then Rechallenge(0, script[1..])
        else if frame.header.kind != PONG then
          match AwaitReply(script[1..])
          case Answer(f, t, skipped, rest) => Answer(f, t, skipped + 1, rest)
          case Rechallenge(skipped, rest) => Rechallenge(skipped + 1, rest)
          case Lost => Lost
        else Answer(Some(frame), rtt, 0, script[1..])
  }

  function More(r: Reply, skipped: nat): Reply {
    match r
    case Answer(f, t, s, rest) => Answer(f, t, s + skipped, rest)
    case Rechallenge(s, rest) => Rechallenge(s + skipped, rest)
    case Lost => Lost
  }

  method Await(script: seq<Arrival>) returns (r: Reply)
    ensures r == AwaitReply(script)
  {
    var i, skipped := 0, 0;
    assert script[0..] == script;
    while i < |script|
      invariant 0 <= i <= |script| && AwaitReply(script) == More(AwaitReply(script[i..]), skipped)
    {
      assert script[i..][1..] == script[i + 1..];
      match script[i] {
        case Spent => return Answer(None, 0, skipped, script[i + 1..]);
        case Broken => return Lost;
        case Nothing =>
        case Came(frame, rtt) =>
          if frame.header.kind == CLIENT_CHALLENGE { return Rechallenge(skipped, script[i + 1..]); }
          if frame.header.kind == PONG { return Answer(Some(frame), rtt, skipped, script[i + 1..]); }
          skipped := skipped + 1;
      }
      i := i + 1;
    }
    return Answer(None, 0, skipped, []);
  }

  // ----- One run -----

  /** The report after one more classified reply. */
  function Counted(r: Report, verdict: Verdict, rtt: u64): Report {
    match verdict
    case Echoed => r.(echoed := r.echoed + 1, rtts := r.rtts + [rtt])
    case SequenceMismatch => r.(sequenceMismatch := r.sequenceMismatch + 1)
    case PayloadMismatch => r.(payloadMismatch := r.payloadMismatch + 1)
    case TimedOut => r.(timedOut := r.timedOut + 1)
  }

  /** Every request that counts as sent came to exactly one of four ends. */
  predicate Balanced(r: Report) {
    r.sent == r.echoed + r.sequenceMismatch + r.payloadMismatch + r.timedOut && |r.rtts| == r.echoed
  }

  function SequenceOf(index: nat): u32 { (index % U32_LIMIT + 1) % U32_LIMIT }

  /** The exchanges from `index` on, on top of a report; and what is left unheard. */
  function Exchanges(index: nat, frames: nat, script: seq<Arrival>, r: Report): (Option<Report>, seq<Arrival>)
    requires index <= frames
    decreases frames - index
  {
    if index == frames then (Some(r), script)
    else
      match AwaitReply(script)
      case Lost => (None, script)
      case Rechallenge(skipped, left) => (Some(r.(skipped := r.skipped + skipped, rechallenged := true)), left)
      case Answer(frame, rtt, skipped, left) =>
        Exchanges(index + 1, frames, left,
                  Counted(r.(skipped := r.skipped + skipped, sent := r.sent + 1),
                          Classify(SequenceOf(index), Challenge(SequenceOf(index)), frame), rtt))
  }

  lemma NextExchange(index: nat, frames: nat, script: seq<Arrival>, r: Report)
    requires index <= frames
    ensures index == frames ==> Exchanges(index, frames, script, r) == (Some(r), script)
    ensures index < frames ==>
              match AwaitReply(script)
              case Lost => Exchanges(index, frames, script, r) == (None, script)
              case Rechallenge(skipped, left) =>
                Exchanges(index, frames, script, r)
                == (Some(r.(skipped := r.skipped + skipped, rechallenged := true)), left)
              case Answer(frame, rtt, skipped, left) =>
                Exchanges(index, frames, script, r)
                == Exchanges(index + 1, frames, left,
                             Counted(r.(skipped := r.skipped + skipped, sent := r.sent + 1),
                                     Classify(SequenceOf(index), Challenge(SequenceOf(index)), frame), rtt))
  {
    hide AwaitReply, Challenge, SequenceOf, Classify, Counted;
  }

  lemma CountingBalances(r: Report, skipped: nat, verdict: Verdict, rtt: u64)
    requires Balanced(r)
    ensures var next := Counted(r.(skipped := r.skipped + skipped, sent := r.sent + 1), verdict, rtt);
            Balanced(next) && next.sent == r.sent + 1 && next.rechallenged == r.rechallenged
  {
  }

  lemma NothingCounted()
    ensures Balanced(EMPTY) && !EMPTY.rechallenged && EMPTY.sent == 0
  {
  }

  /** MAIN RESULT: within a run the requests sent are exactly the replies echoed, the
      mismatches of both kinds and the timeouts; a run that is not cut short by a new
      challenge sends every request asked for, and one that is takes back the request
      it left unanswered. */
  method RunExchanges(frames: nat, script: seq<Arrival>) returns (r: Option<Report>, rest: seq<Arrival>)
    ensures (r, rest) == Exchanges(0, frames, script, EMPTY)
    ensures r.Some? ==>
              && Balanced(r.value) && 0 <= r.value.sent <= frames
              && (r.value.sent == frames && frames > 0 ==> !r.value.rechallenged)
              && (!r.value.rechallenged ==> r.value.sent == frames)
              && |rest| <= |script|
  {
    hide AwaitReply, Challenge, SequenceOf, Classify, Exchanges, Counted, Balanced, EMPTY;
    var report := EMPTY;
    rest := script;
    NothingCounted();
    var index := 0;
    while index < frames
      invariant 0 <= index <= frames && report.sent == index && Balanced(report) && !report.rechallenged
      invariant |rest| <= |script| && Exchanges(0, frames, script, EMPTY) == Exchanges(index, frames, rest, report)
    {
      var sequence := SequenceOf(index);
      NextExchange(index, frames, rest, report);
      var reply := Await(rest);
      match reply {
        case Lost => return None, rest;
        case Rechallenge(skipped, left) =>
          BalanceStays(report, skipped);
          return Some(report.(skipped := report.skipped + skipped, rechallenged := true)), left;
        case Answer(frame, rtt, skipped, left) =>
          var verdict := Classify(sequence, Challenge(sequence), frame);
          CountingBalances(report, skipped, verdict, rtt);
          report := Counted(report.(skipped := report.skipped + skipped, sent := report.sent + 1), verdict, rtt);
          rest := left;
      }
      index := index + 1;
    }
    NextExchange(index, frames, rest, report);
    return Some(report), rest;
  }

  /** A request that a new challenge cuts short is not counted as sent after all. */
  lemma BalanceStays(r: Report, skipped: nat)
    requires Balanced(r)
    ensures Balanced(r.(skipped := r.skipped + skipped, rechallenged := true))
  {
  }

  // ----- Across seams -----

  const MAX_SEAMS: nat := 8

  function Plus(a: Report, b: Report): Report {
    Report(a.sent + b.sent, a.echoed + b.echoed, a.sequenceMismatch + b.sequenceMismatch,
           a.payloadMismatch + b.payloadMismatch, a.timedOut + b.timedOut, a.skipped + b.skipped,
           a.rechallenged, a.rtts + b.rtts)
  }

  /** Totals so far: balanced, and `remaining` exchanges short. */
  predicate Partway(r: Report, frames: nat, remaining: nat) { Balanced(r) && r.echoed + remaining == frames }

  lemma JoinParts(a: Report, b: Report, frames: nat, remaining: nat)
    requires Partway(a, frames, remaining) && Balanced(b) && b.sent <= remaining
    ensures b.echoed <= remaining && Partway(Plus(a, b), frames, remaining - b.echoed)
    ensures b.sent == remaining ==> Plus(a, b).sent >= frames
    ensures Plus(a, b).rechallenged == a.rechallenged
  {
  }

  lemma PassMeans(r: Report, frames: nat, remaining: nat)
    requires Partway(r, frames, remaining)
    ensures Pass(r, frames) <==> r.echoed == frames == r.sent
    ensures r.echoed <= frames
  {
  }

  lemma Fresh(frames: nat)
    ensures Partway(EMPTY, frames, frames)
  {
  }

  /** Marking a report as cut short changes no count. */
  lemma Marked(r: Report, frames: nat, remaining: nat)
    requires Partway(r, frames, remaining)
    ensures forall cut ::
              Balanced(r.(rechallenged := cut)) && (Pass(r.(rechallenged := cut), frames) <==> Pass(r, frames))
  {
  }

  /** The gate from some point on: what is still to be echoed, and the totals so far. */
  function Gate(remaining: nat, script: seq<Arrival>, authorizes: seq<bool>, authorized: nat,
                r: Report): (Option<Report>, nat)
    requires authorized <= MAX_SEAMS
    decreases MAX_SEAMS - authorized
  {
    var (part, left) := Exchanges(0, remaining, script, EMPTY);
    if part.None? then (None, authorized)
    else
      var total, cut := Plus(r, part.value), part.value.rechallenged;
      if remaining <= part.value.echoed || !cut then (Some(total.(rechallenged := cut)), authorized)
      else if authorized + 1 > MAX_SEAMS then (Some(total.(rechallenged := true)), authorized)
      else if authorized >= |authorizes| || !authorizes[authorized] then (None, authorized)
      else Gate(remaining - part.value.echoed, left, authorizes, authorized + 1, total)
  }

  /** MAIN RESULT: totals balance across every seam; no more than eight new
      authorizations are asked for; the echoes never exceed the request; and the gate
      passes exactly when every requested exchange echoed and nothing else was counted -
      so a passing gate sent exactly the requests it was asked for. */
  method EndToEnd(frames: nat, script: seq<Arrival>, authorizes: seq<bool>) returns (r: Option<Report>, authorized: nat)
    ensures authorized <= MAX_SEAMS && (r, authorized) == Gate(frames, script, authorizes, 0, EMPTY)
    ensures r.Some? ==>
              && Balanced(r.value) && r.value.echoed <= frames
              && (Pass(r.value, frames) <==> r.value.echoed == frames == r.value.sent)
              && (!r.value.rechallenged ==> r.value.sent >= frames)
  {
    hide Plus, Partway, Pass, Balanced, Exchanges;
    var report := EMPTY;
    var remaining: nat, rest := frames, script;
    authorized := 0;
    Fresh(frames);
    while true
      invariant Partway(report, frames, remaining) && !report.rechallenged
      invariant authorized <= MAX_SEAMS
      invariant Gate(frames, script, authorizes, 0, EMPTY) == Gate(remaining, rest, authorizes, authorized, report)
      decreases MAX_SEAMS - authorized
    {
      var part, left := RunExchanges(remaining, rest);
      if part.None? { return None, authorized; }
      JoinParts(report, part.value, frames, remaining);
      report := Plus(report, part.value);
      rest := left;
      remaining := remaining - part.value.echoed;
      PassMeans(report, frames, remaining);
      Marked(report, frames, remaining);
      if remaining == 0 || !part.value.rechallenged {
        report := report.(rechallenged := part.value.rechallenged);
        return Some(report), authorized;
      }
      if authorized + 1 > MAX_SEAMS {
        report := report.(rechallenged := true);
        return Some(report), authorized;
      }
      if authorized >= |authorizes| || !authorizes[authorized] { return None, authorized; }
      authorized := authorized + 1;
    }
  }

  // ----- A phone that answers -----

  /** The reply a sound phone gives to exchange `index`, whenever it comes. */
  predicate Echo(a: Arrival, index: nat) {
    && a.Came? && a.frame.header.kind == 0x04 && a.frame.header.sequence == SequenceOf(index)
    && a.frame.payload == Challenge(SequenceOf(index))
  }

  predicate EchoesFrom(script: seq<Arrival>, index: nat, count: nat) {
    count <= |script| && forall k :: 0 <= k < count ==> Echo(script[k], index + k)
  }

  function Took(script: seq<Arrival>): seq<u64> {
    if script == [] then [] else [if script[0].Came? then script[0].rtt else 0] + Took(script[1..])
  }

  /** Answered exchanges are echoes, and their times are kept in order. */
  lemma {:induction false} EchoesCount(index: nat, frames: nat, script: seq<Arrival>, r: Report, count: nat)
    requires index + count <= frames && EchoesFrom(script, index, count)
    ensures Exchanges(index, frames, script, r)
         == Exchanges(index + count, frames, script[count..],
                      r.(sent := r.sent + count, echoed := r.echoed + count, rtts := r.rtts + Took(script[..count])))
    decreases count
  {
    hide Challenge, SequenceOf;
    if count == 0 {
      assert script[0..] == script && script[..0] == [] && r.rtts + [] == r.rtts;
    } else {
      assert Echo(script[0], index + 0);
      var next := r.(sent := r.sent + 1, echoed := r.echoed + 1, rtts := r.rtts + [script[0].rtt]);
      assert Exchanges(index, frames, script, r) == Exchanges(index + 1, frames, script[1..], next);
      forall k | 0 <= k < count - 1 ensures Echo(script[1..][k], index + 1 + k) {
        assert Echo(script[k + 1], index + (k + 1));
      }
      EchoesCount(index + 1, frames, script[1..], next, count - 1);
      assert script[1..][count - 1..] == script[count..];
      assert script[..count][1..] == script[1..][..count - 1];
      assert next.rtts + Took(script[1..][..count - 1]) == r.rtts + Took(script[..count]);
    }
  }

  /** MAIN RESULT: a phone that echoes every challenge passes the gate, with no new
      authorization and every time on record. */
  lemma SoundPhonesPass(frames: nat, script: seq<Arrival>, authorizes: seq<bool>)
    requires EchoesFrom(script, 0, frames)
    ensures var (r, authorized) := Gate(frames, script, authorizes, 0, EMPTY);
            && authorized == 0 && r.Some? && Pass(r.value, frames) && !r.value.rechallenged && r.value.skipped == 0
            && r.value.rtts == Took(script[..frames])
  {
    EchoesCount(0, frames, script, EMPTY, frames);
    hide Challenge, SequenceOf, Echo;
    assert [] + ([] + Took(script[..frames])) == Took(script[..frames]);
  }

  /** MAIN RESULT: and so does one that starts a new exchange in between and accepts the
      new proof; the count goes on across the seam. */
  lemma SeamsAreBridged(frames: nat, script: seq<Arrival>, authorizes: seq<bool>, k: nat)
    requires k < frames && EchoesFrom(script, 0, k) && k < |script|
    requires script[k].Came? && script[k].frame.header.kind == 0x0a
    requires EchoesFrom(script[k + 1..], 0, frames - k) && |authorizes| > 0 && authorizes[0]
    ensures var (r, authorized) := Gate(frames, script, authorizes, 0, EMPTY);
            && authorized == 1 && r.Some? && Pass(r.value, frames) && r.value.sent == frames && !r.value.rechallenged
  {
    var first := EMPTY.(sent := k, echoed := k, rtts := [] + Took(script[..k]), rechallenged := true);
    EchoesCount(0, frames, script, EMPTY, k);
    assert script[k..][0] == script[k] && script[k..][1..] == script[k + 1..];
    assert Exchanges(0, frames, script, EMPTY) == (Some(first), script[k + 1..]);
    EchoesCount(0, frames - k, script[k + 1..], EMPTY, frames - k);
    hide Challenge, SequenceOf, Echo, Took;
  }

  // ----- Round-trip times -----

  function Insert(x: u64, s: seq<u64>): (r: seq<u64>)
    ensures |r| == |s| + 1
  {
    if s == [] || x <= s[0] then [x] + s else [s[0]] + Insert(x, s[1..])
  }

  /** The sorted copy. */
  function Sort(s: seq<u64>): (r: seq<u64>)
    ensures |r| == |s|
  {
    if s == [] then [] else Insert(s[0], Sort(s[1..]))
  }

  predicate Ascending(s: seq<u64>) { forall i, j :: 0 <= i < j < |s| ==> s[i] <= s[j] }

  lemma {:induction false} InsertKeeps(x: u64, s: seq<u64>)
    ensures multiset(Insert(x, s)) == multiset(s) + multiset{x}
  {
    if s != [] && x > s[0] {
      InsertKeeps(x, s[1..]);
      assert s == [s[0]] + s[1..];
    }
  }

  /** Everything inserted into stays above a lower bound. */
  lemma {:induction false} InsertAbove(x: u64, s: seq<u64>, low: u64)
    requires low <= x && forall i :: 0 <= i < |s| ==> low <= s[i]
    ensures forall i :: 0 <= i < |Insert(x, s)| ==> low <= Insert(x, s)[i]
  {
    if s != [] && x > s[0] { InsertAbove(x, s[1..], low); }
  }

  lemma {:induction false} InsertAscends(x: u64, s: seq<u64>)
    requires Ascending(s)
    ensures Ascending(Insert(x, s))
  {
    if s != [] && x > s[0] {
      InsertAscends(x, s[1..]);
      InsertAbove(x, s[1..], s[0]);
    }
  }

  lemma {:induction false} SortSorts(s: seq<u64>)
    ensures Ascending(Sort(s)) && multiset(Sort(s)) == multiset(s)
  {
    if s != [] {
      SortSorts(s[1..]);
      InsertAscends(s[0], Sort(s[1..]));
      InsertKeeps(s[0], Sort(s[1..]));
      assert s == [s[0]] + s[1..];
    }
  }

  function Sum(s: seq<u64>): nat { if s == [] then 0 else s[|s| - 1] as nat + Sum(s[..|s| - 1]) }

  datatype Times = Times(least: u64, average: u64, p50: u64, p95: u64, greatest: u64)

  /** The element a percentage of the way up. */
  function At(sorted: seq<u64>, percent: nat): u64
    requires sorted != [] && percent <= 100
  {
    QuotientAtMost((|sorted| - 1) * percent, 100, |sorted| - 1);
    sorted[(|sorted| - 1) * percent / 100]
  }

  function Average(s: seq<u64>): u64
    requires s != []
  {
    Sum(s) % U64_LIMIT / |s|
  }

  /** The average divides a 64-bit sum, which wraps. */
  function Percentiles(rtts: seq<u64>): Option<Times> {
    if rtts == [] then None
    else
      var sorted := Sort(rtts);
      var n := |sorted|;
      Some(Times(sorted[0], Average(sorted), At(sorted, 50), At(sorted, 95), sorted[n - 1]))
  }

  lemma {:induction false} SumBounds(s: seq<u64>, low: u64, high: u64)
    requires forall i :: 0 <= i < |s| ==> low <= s[i] <= high
    ensures |s| * low <= Sum(s) <= |s| * high
  {
    if s != [] {
      SumBounds(s[..|s| - 1], low, high);
      assert |s| * low == (|s| - 1) * low + low && |s| * high == (|s| - 1) * high + high;
    }
  }

  /** MAIN RESULT: the figures are the true extremes and stand in order; and the average
      lies between the extremes if and only if the 64-bit sum is no less than the least
      time taken that often, as it always is when the sum does not wrap. */
  lemma PercentilesInOrder(rtts: seq<u64>)
    requires rtts != []
    ensures var t := Percentiles(rtts).value;
            && t.least in rtts && t.greatest in rtts && (forall v :: v in rtts ==> t.least <= v <= t.greatest)
            && t.least <= t.p50 <= t.p95 <= t.greatest
            && (t.least <= t.average <= t.greatest <==> |rtts| * t.least <= Sum(Sort(rtts)) % U64_LIMIT)
            && (Sum(Sort(rtts)) < U64_LIMIT ==> t.least <= t.average <= t.greatest)
  {
    hide Sort, Sum, Ascending, At, Average;
    SortMembers(rtts);
    InOrder(Sort(rtts));
    AverageBetween(Sort(rtts));
  }

  /** The two percentiles by their place among the sorted times. */
  lemma PercentilesAt(rtts: seq<u64>)
    requires rtts != []
    ensures var t, n := Percentiles(rtts).value, |rtts|;
            && (n - 1) * 50 / 100 < |Sort(rtts)| && t.p50 == Sort(rtts)[(n - 1) * 50 / 100]
            && (n - 1) * 95 / 100 < |Sort(rtts)| && t.p95 == Sort(rtts)[(n - 1) * 95 / 100]
  {
    hide Sort, Average;
  }

  /** The average is the mean of the times if and only if their sum fits 64 bits. */
  lemma AverageIsMean(rtts: seq<u64>)
    requires 0 < |rtts| < U64_LIMIT
    ensures Percentiles(rtts).value.average as nat == Sum(Sort(rtts)) / |rtts| <==> Sum(Sort(rtts)) < U64_LIMIT
  {
    hide Sort, Sum, At;
    WrapsBelow(Sum(Sort(rtts)), |rtts|);
  }

  lemma WrapsBelow(sum: nat, n: nat)
    requires 0 < n < U64_LIMIT
    ensures sum % U64_LIMIT / n == sum / n <==> sum < U64_LIMIT
  {
    if sum >= U64_LIMIT {
      var left := sum % U64_LIMIT;
      assert left + n <= sum;
      QuotientAtLeast(left + n, n, left / n + 1);
      QuotientsOrdered(left + n, sum, n);
      assert left / n + 1 <= sum / n;
    }
  }

  lemma SortMembers(s: seq<u64>)
    ensures Ascending(Sort(s)) && forall v :: v in s <==> v in Sort(s)
  {
    SortSorts(s);
    hide Sort, Ascending;
    SameMembers(s, Sort(s));
  }

  lemma SameMembers(a: seq<u64>, b: seq<u64>)
    requires multiset(a) == multiset(b)
    ensures forall v :: v in a <==> v in b
  {
    forall v ensures v in a <==> v in b {
      assert v in multiset(a) <==> v in multiset(b);
    }
  }

  lemma InOrder(s: seq<u64>)
    requires Ascending(s) && s != []
    ensures var n := |s|;
            && s[0] <= At(s, 50) <= At(s, 95) <= s[n - 1]
            && s[0] in s && s[n - 1] in s && forall v :: v in s ==> s[0] <= v <= s[n - 1]
  {
  }

  lemma AverageBetween(s: seq<u64>)
    requires Ascending(s) && s != []
    ensures s[0] <= Average(s) <= s[|s| - 1] <==> |s| * s[0] <= Sum(s) % U64_LIMIT
    ensures Sum(s) < U64_LIMIT ==> |s| * s[0] <= Sum(s) % U64_LIMIT
  {
    hide Sum;
    SumBounds(s, s[0], s[|s| - 1]);
    var wrapped := Sum(s) % U64_LIMIT;
    assert wrapped <= Sum(s);
    QuotientAtMost(wrapped, |s|, s[|s| - 1]);
    if |s| * s[0] <= wrapped {
      QuotientAtLeast(wrapped, |s|, s[0]);
    } else {
      QuotientBelow(wrapped, |s|, s[0]);
    }
  }

  /** That condition can fail: two huge times average to zero. */
  lemma WrappedAverage()
    ensures var t := Percentiles([0x8000_0000_0000_0000, 0x8000_0000_0000_0000]).value;
            t.average == 0 && t.least > 0
  {
    var big: u64 := 0x8000_0000_0000_0000;
    var s := [big, big];
    assert s[1..] == [big] && [big][1..] == [];
    assert Sort([big]) == [big];
    assert Sort(s) == [big, big];
    assert s[..1] == [big] && [big][..0] == [];
    assert Sum([big]) == big as nat + Sum([]);
    assert Sum(s) == big as nat + Sum([big]);
  }
}

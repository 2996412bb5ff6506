/** The preview record under interleaving (host-rs/src/preview.rs:91-162).

    One producer instance and one reader share a record. A header or sequence
    write is one step; pixel bytes are written and read one at a time, in any
    order. A publish may fail at any of its three writes, with or without that
    write having reached the record, and publishing goes on afterwards. */
module PreviewSeqlock {
  import opened Basics

  const CAPACITY: nat := 320 * 1024 * 4

  datatype Frame = Frame(width: nat, height: nat, pixels: seq<u8>)

  /** The header as a reader parses it: `Blank` covers everything it refuses. */
  datatype Head = Blank | Head(seq_: u64, width: nat, height: nat)

  datatype Writing = Quiet | Filling(frame: Frame, written: set<nat>)

  datatype Reading =
    | Asleep
    | Copying(number: u64, width: nat, height: nat, own: bool, got: map<nat, u8>)
    | Finished(result: Option<Frame>)
  {
    function Length(): nat
      requires Copying?
    {
      width * height * 4
    }
  }

  /** `own`: the header in the record was written by this producer instance.
      `done`: the completely published frames, by sequence number. */
  datatype Shared = Shared(
    head: Head, pixels: seq<u8>, own: bool,
    counter: u64, begun: nat, writing: Writing,
    done: map<u64, Frame>,
    reading: Reading)

  /** What became of one write to the record. */
  datatype Outcome = Wrote | FailedAfterWriting | FailedBeforeWriting

  datatype Step =
    | BeginPublish(frame: Frame, outcome: Outcome)
    | WritePixel(k: nat)
    | FailPixels
    | EndPublish(outcome: Outcome)
    | ReadHead
    | CopyPixel(k: nat)
    | CheckHead

  predicate Accepted(frame: Frame) {
    |frame.pixels| == frame.width * frame.height * 4 && |frame.pixels| <= CAPACITY
  }

  /** wrapping_add(1) | 1 and wrapping_add(1) & !1. */
  function OddAbove(n: u64): u64 {
    var next := (n + 1) % U64_LIMIT;
    if next % 2 == 1 then next else next + 1
  }

  function EvenAbove(n: u64): u64 {
    var next := (n + 1) % U64_LIMIT;
    if next % 2 == 0 then next else next - 1
  }

  function HeadFor(counter: u64, frame: Frame): Head {
    if frame.width == 0 || frame.height == 0 then Blank else Head(counter, frame.width, frame.height)
  }

  function Length(head: Head): nat {
    if head.Blank? then 0 else head.width * head.height * 4
  }

  predicate FullyWritten(writing: Writing)
    requires writing.Filling?
  {
    forall k: nat :: k < |writing.frame.pixels| ==> k in writing.written
  }

  predicate FullyCopied(reading: Reading)
    requires reading.Copying?
  {
    forall k: nat :: k < reading.Length() ==> k in reading.got
  }

  function Do(s: Shared, step: Step): Shared {
    match step
    case BeginPublish(frame, outcome) =>
      if !s.writing.Quiet? || !Accepted(frame) then s
      else
        var counter := OddAbove(s.counter);
        var bumped := s.(counter := counter, begun := s.begun + 1);
        var wrote := bumped.(head := HeadFor(counter, frame), own := true);
        if outcome.FailedBeforeWriting? then bumped
        else if outcome.FailedAfterWriting? then wrote
        else wrote.(writing := Filling(frame, {}))
    case WritePixel(k) =>
      if s.writing.Filling? && k < |s.writing.frame.pixels| && k < |s.pixels| then
        s.(pixels := s.pixels[k := s.writing.frame.pixels[k]],
           writing := s.writing.(written := s.writing.written + {k}))
      else s
    case FailPixels => if s.writing.Filling? then s.(writing := Quiet) else s
    case EndPublish(outcome) =>
      if !s.writing.Filling? || !FullyWritten(s.writing) then s
      else
        var counter := EvenAbove(s.counter);
        var bumped := s.(counter := counter, writing := Quiet);
        if outcome.FailedBeforeWriting? then bumped
        else
          bumped.(head := if s.head.Blank? then Blank else s.head.(seq_ := counter),
                  done := s.done[counter := s.writing.frame])
    case ReadHead =>
      if !s.reading.Asleep? then s
      else if s.head.Blank? || s.head.seq_ % 2 == 1 then s.(reading := Finished(None))
      else s.(reading := Copying(s.head.seq_, s.head.width, s.head.height, s.own, map[]))
    case CopyPixel(k) =>
      if s.reading.Copying? && k < s.reading.Length() && k < |s.pixels| && k !in s.reading.got then
        s.(reading := s.reading.(got := s.reading.got[k := s.pixels[k]]))
      else s
    case CheckHead =>
      if !s.reading.Copying? || !FullyCopied(s.reading) then s
      else if s.head.Blank? || s.head.seq_ != s.reading.number then s.(reading := Finished(None))
      else s.(reading := Finished(Some(Frame(s.reading.width, s.reading.height, Copied(s.reading)))))
  }

  /** The bytes a finished copy returns. */
  function Copied(reading: Reading): (bytes: seq<u8>)
    requires reading.Copying? && FullyCopied(reading)
    ensures |bytes| == reading.Length()
    ensures forall k :: 0 <= k < |bytes| ==> bytes[k] == reading.got[k]
  {
    seq(reading.Length(), k requires 0 <= k < reading.Length() && k in reading.got => reading.got[k])
  }

  function Run(s: Shared, steps: seq<Step>): Shared {
    if steps == [] then s else Do(Run(s, steps[..|steps| - 1]), steps[|steps| - 1])
  }

  /** A producer opens a record that already holds `head` over `pixels`. */
  function Opened(head: Head, pixels: seq<u8>): Shared {
    Shared(head, pixels, false, 0, 0, Quiet, map[], Asleep)
  }

  // ----- The producer's invariant -----

  /** The record's bytes are those of `frame`, and its header says so. */
  ghost predicate Holds(s: Shared, frame: Frame)
    requires !s.head.Blank?
  {
    && frame.width == s.head.width && frame.height == s.head.height
    && Accepted(frame) && |frame.pixels| <= |s.pixels|
    && forall k :: 0 <= k < |frame.pixels| ==> s.pixels[k] == frame.pixels[k]
  }

  ghost predicate Orderly(s: Shared, first: Head, pixels: seq<u8>) {
    && |s.pixels| == CAPACITY
    && s.counter <= 2 * s.begun
    && (!s.own ==> s.head == first && s.pixels == pixels && s.done == map[] && s.writing.Quiet?)
    && (s.own && !s.head.Blank? ==> 1 <= s.head.seq_ <= s.counter)
    && (forall n :: n in s.done ==> 2 <= n <= s.counter && n % 2 == 0 && Accepted(s.done[n]))
    && (s.own && !s.head.Blank? && s.head.seq_ % 2 == 0 ==>
         s.writing.Quiet? && s.head.seq_ in s.done && Holds(s, s.done[s.head.seq_]))
    && (s.writing.Filling? ==>
         && s.own && s.counter % 2 == 1 && s.counter <= 2 * s.begun - 1
         && s.head == HeadFor(s.counter, s.writing.frame) && Accepted(s.writing.frame)
         && (forall k: nat :: k < |s.writing.frame.pixels| && k in s.writing.written ==>
              s.pixels[k] == s.writing.frame.pixels[k]))
  }

  /** Fewer publishes than could wrap the counter. */
  const MANY: nat := 0x7FFF_FFFF_FFFF_FFFF

  lemma OddAboveIsNext(n: u64)
    requires n < U64_LIMIT - 2
    ensures n < OddAbove(n) <= n + 2 && OddAbove(n) % 2 == 1
    ensures n % 2 == 1 ==> EvenAbove(n) == n + 1 && EvenAbove(n) % 2 == 0
  {
  }

  lemma BeginOrderly(s: Shared, frame: Frame, outcome: Outcome, first: Head, pixels: seq<u8>)
    requires Orderly(s, first, pixels) && s.begun < MANY
    ensures Orderly(Do(s, BeginPublish(frame, outcome)), first, pixels)
  {
    OddAboveIsNext(s.counter);
    hide OddAbove;
  }

  lemma EndOrderly(s: Shared, outcome: Outcome, first: Head, pixels: seq<u8>)
    requires Orderly(s, first, pixels) && s.begun <= MANY
    ensures Orderly(Do(s, EndPublish(outcome)), first, pixels)
  {
    if s.writing.Filling? { OddAboveIsNext(s.counter); }
    hide EvenAbove;
  }

  lemma PixelsOrderly(s: Shared, step: Step, first: Head, pixels: seq<u8>)
    requires Orderly(s, first, pixels)
    requires step.WritePixel? || step.FailPixels?
    ensures Orderly(Do(s, step), first, pixels)
  {
  }

  lemma ReaderOrderly(s: Shared, step: Step, first: Head, pixels: seq<u8>)
    requires Orderly(s, first, pixels)
    requires step.ReadHead? || step.CopyPixel? || step.CheckHead?
    ensures Orderly(Do(s, step), first, pixels)
  {
  }

  // ----- The reader's invariant -----

  /** What a copy in progress will turn out to be, if its sequence number is still
      in the record when it is checked. */
  ghost predicate Faithful(s: Shared, first: Head, pixels: seq<u8>) {
    s.reading.Copying? ==>
      && s.reading.number % 2 == 0
      && (s.reading.own ==> FaithfulOwn(s, s.reading))
      && (!s.reading.own ==>
           && first == Head(s.reading.number, s.reading.width, s.reading.height)
           && (!s.own ==> forall k: nat :: k in s.reading.got ==> k < |pixels| && s.reading.got[k] == pixels[k]))
  }

  ghost predicate FaithfulOwn(s: Shared, r: Reading)
    requires r.Copying?
  {
    && s.own && r.number in s.done && r.number <= s.counter
    && (s.writing.Filling? ==> r.number < s.counter)
    && var frame := s.done[r.number];
       && frame.width == r.width && frame.height == r.height && |frame.pixels| == r.Length()
       && (!s.head.Blank? && s.head.seq_ == r.number ==>
            forall k: nat :: k in r.got ==> k < |frame.pixels| && r.got[k] == frame.pixels[k])
  }

  lemma BeginFaithful(s: Shared, frame: Frame, outcome: Outcome, first: Head, pixels: seq<u8>)
    requires Orderly(s, first, pixels) && Faithful(s, first, pixels) && s.begun < MANY
    ensures Faithful(Do(s, BeginPublish(frame, outcome)), first, pixels)
  {
    OddAboveIsNext(s.counter);
    hide OddAbove, Holds;
  }

  lemma EndFaithful(s: Shared, outcome: Outcome, first: Head, pixels: seq<u8>)
    requires Orderly(s, first, pixels) && Faithful(s, first, pixels) && s.begun <= MANY
    ensures Faithful(Do(s, EndPublish(outcome)), first, pixels)
  {
    if s.writing.Filling? { OddAboveIsNext(s.counter); }
    hide EvenAbove, Holds;
  }

  lemma PixelsFaithful(s: Shared, step: Step, first: Head, pixels: seq<u8>)
    requires Orderly(s, first, pixels) && Faithful(s, first, pixels)
    requires step.WritePixel? || step.FailPixels?
    ensures Faithful(Do(s, step), first, pixels)
  {
  }

  lemma ReaderFaithful(s: Shared, step: Step, first: Head, pixels: seq<u8>)
    requires Orderly(s, first, pixels) && Faithful(s, first, pixels)
    requires step.ReadHead? || step.CopyPixel? || step.CheckHead?
    ensures Faithful(Do(s, step), first, pixels)
  {
  }

  // ----- Reads that can be trusted -----

  /** A record whose header no publish of this instance will ever repeat. */
  predicate Unrepeatable(head: Head) { head.Blank? || head.seq_ % 2 == 1 || head.seq_ == 0 }

  /** The frame the record held before this instance wrote anything. */
  function Inherited(head: Head, pixels: seq<u8>): Frame
    requires !head.Blank? && Length(head) <= |pixels|
  {
    Frame(head.width, head.height, pixels[..Length(head)])
  }

  ghost predicate Trusted(s: Shared, first: Head) {
    && (s.reading.Asleep? ==> Unrepeatable(first) || s.own)
    && (s.reading.Copying? ==> s.reading.own || s.reading.number == 0)
  }

  ghost predicate Whole(s: Shared, first: Head, pixels: seq<u8>, frame: Frame) {
    || (exists n :: n in s.done && s.done[n] == frame)
    || (!first.Blank? && Length(first) <= |pixels| && frame == Inherited(first, pixels))
  }

  ghost predicate Truthful(s: Shared, first: Head, pixels: seq<u8>) {
    s.reading.Finished? && s.reading.result.Some? ==> Whole(s, first, pixels, s.reading.result.value)
  }

  ghost predicate Sound(s: Shared, first: Head, pixels: seq<u8>) {
    Orderly(s, first, pixels) && Faithful(s, first, pixels) && Trusted(s, first) && Truthful(s, first, pixels)
  }

  lemma CheckTruthful(s: Shared, first: Head, pixels: seq<u8>)
    requires Sound(s, first, pixels) && |pixels| == CAPACITY && Length(first) <= CAPACITY
    ensures Truthful(Do(s, CheckHead), first, pixels)
  {
    var after := Do(s, CheckHead);
    if s.reading.Copying? && after.reading.Finished? && after.reading.result.Some? {
      var r := s.reading;
      var bytes := Copied(r);
      if r.own {
        assert bytes == s.done[r.number].pixels;
      } else {
        assert !s.own;
        assert bytes == pixels[..Length(first)];
      }
    }
  }

  lemma EndKeepsWhole(s: Shared, outcome: Outcome, first: Head, pixels: seq<u8>, frame: Frame)
    requires Orderly(s, first, pixels) && Whole(s, first, pixels, frame) && s.begun <= MANY
    ensures Whole(Do(s, EndPublish(outcome)), first, pixels, frame)
  {
    if s.writing.Filling? { OddAboveIsNext(s.counter); }
    var after := Do(s, EndPublish(outcome));
    if n :| n in s.done && s.done[n] == frame {
      assert n <= s.counter;
      assert n in after.done && after.done[n] == frame;
    }
  }

  lemma SameDoneSameTruth(s: Shared, after: Shared, first: Head, pixels: seq<u8>)
    requires Truthful(s, first, pixels) && after.done == s.done && after.reading == s.reading
    ensures Truthful(after, first, pixels)
  {
  }

  lemma StepSound(s: Shared, step: Step, first: Head, pixels: seq<u8>)
    requires Sound(s, first, pixels) && |pixels| == CAPACITY && Length(first) <= CAPACITY
    requires Do(s, step).begun <= MANY
    ensures Sound(Do(s, step), first, pixels)
  {
    hide Orderly, Faithful, Whole;
    match step {
      case BeginPublish(frame, outcome) =>
        if s.writing.Quiet? && Accepted(frame) {
          BeginOrderly(s, frame, outcome, first, pixels);
          BeginFaithful(s, frame, outcome, first, pixels);
        }
        SameDoneSameTruth(s, Do(s, step), first, pixels);
      case EndPublish(outcome) =>
        EndOrderly(s, outcome, first, pixels);
        EndFaithful(s, outcome, first, pixels);
        if s.reading.Finished? && s.reading.result.Some? {
          EndKeepsWhole(s, outcome, first, pixels, s.reading.result.value);
        }
      case WritePixel(_) =>
        PixelsOrderly(s, step, first, pixels);
        PixelsFaithful(s, step, first, pixels);
        SameDoneSameTruth(s, Do(s, step), first, pixels);
      case FailPixels =>
        PixelsOrderly(s, step, first, pixels);
        PixelsFaithful(s, step, first, pixels);
        SameDoneSameTruth(s, Do(s, step), first, pixels);
      case CheckHead =>
        ReaderOrderly(s, step, first, pixels);
        ReaderFaithful(s, step, first, pixels);
        CheckTruthful(s, first, pixels);
      case _ =>
        ReaderOrderly(s, step, first, pixels);
        ReaderFaithful(s, step, first, pixels);
        if s.reading.Finished? { SameDoneSameTruth(s, Do(s, step), first, pixels); }
    }
  }

  lemma {:induction false} RunSound(s: Shared, steps: seq<Step>, first: Head, pixels: seq<u8>)
    requires Sound(s, first, pixels) && |pixels| == CAPACITY && Length(first) <= CAPACITY
    requires Run(s, steps).begun <= MANY
    ensures Sound(Run(s, steps), first, pixels)
  {
    hide Sound;
    if steps != [] {
      var before := Run(s, steps[..|steps| - 1]);
      BegunGrows(before, steps[|steps| - 1]);
      RunSound(s, steps[..|steps| - 1], first, pixels);
      StepSound(before, steps[|steps| - 1], first, pixels);
    }
  }

  lemma BegunGrows(s: Shared, step: Step)
    ensures s.begun <= Do(s, step).begun
  {
  }

  /** MAIN RESULT. Whatever the interleaving and whichever writes fail, a read of a
      record that this instance cannot mimic returns nothing, or one completely
      published frame, or the frame the record already held: never a mixture. */
  lemma ReadsAreNeverTorn(first: Head, pixels: seq<u8>, steps: seq<Step>)
    requires |pixels| == CAPACITY && Length(first) <= CAPACITY && Unrepeatable(first)
    requires Run(Opened(first, pixels), steps).begun <= MANY
    ensures Truthful(Run(Opened(first, pixels), steps), first, pixels)
  {
    RunSound(Opened(first, pixels), steps, first, pixels);
  }

  /** The same for any record at all, once the instance has written its header:
      a read that starts then is safe for ever after. */
  lemma LaterReadsAreNeverTorn(first: Head, pixels: seq<u8>, before: seq<Step>, steps: seq<Step>)
    requires |pixels| == CAPACITY && Length(first) <= CAPACITY
    requires Run(Opened(first, pixels), before).own && Run(Opened(first, pixels), before).reading.Asleep?
    requires Run(Run(Opened(first, pixels), before), steps).begun <= MANY
    ensures Truthful(Run(Run(Opened(first, pixels), before), steps), first, pixels)
  {
    var s := Run(Opened(first, pixels), before);
    BegunGrowsOver(s, steps);
    AsleepSound(first, pixels, before);
    RunSound(s, steps, first, pixels);
  }

  lemma {:induction false} BegunGrowsOver(s: Shared, steps: seq<Step>)
    ensures s.begun <= Run(s, steps).begun
  {
    if steps != [] {
      BegunGrowsOver(s, steps[..|steps| - 1]);
      BegunGrows(Run(s, steps[..|steps| - 1]), steps[|steps| - 1]);
    }
  }

  /** While nobody reads, the producer alone keeps the record in order. */
  lemma {:induction false} AsleepSound(first: Head, pixels: seq<u8>, steps: seq<Step>)
    requires |pixels| == CAPACITY && Length(first) <= CAPACITY
    requires Run(Opened(first, pixels), steps).reading.Asleep?
    requires Run(Opened(first, pixels), steps).begun <= MANY
    ensures var s := Run(Opened(first, pixels), steps);
            Orderly(s, first, pixels) && Faithful(s, first, pixels) && Truthful(s, first, pixels)
  {
    if steps != [] {
      var before := Run(Opened(first, pixels), steps[..|steps| - 1]);
      var step := steps[|steps| - 1];
      BegunGrows(before, step);
      AsleepBefore(before, step);
      AsleepSound(first, pixels, steps[..|steps| - 1]);
      AsleepStep(before, step, first, pixels);
    }
  }

  lemma AsleepBefore(s: Shared, step: Step)
    requires Do(s, step).reading.Asleep?
    ensures s.reading.Asleep?
  {
  }

  lemma AsleepStep(s: Shared, step: Step, first: Head, pixels: seq<u8>)
    requires Orderly(s, first, pixels) && Do(s, step).begun <= MANY && Do(s, step).reading.Asleep?
    ensures Orderly(Do(s, step), first, pixels)
  {
    hide Orderly;
    match step {
      case BeginPublish(frame, outcome) =>
        if s.writing.Quiet? && Accepted(frame) { BeginOrderly(s, frame, outcome, first, pixels); }
      case EndPublish(outcome) => EndOrderly(s, outcome, first, pixels);
      case WritePixel(_) => PixelsOrderly(s, step, first, pixels);
      case FailPixels => PixelsOrderly(s, step, first, pixels);
      case _ => ReaderOrderly(s, step, first, pixels);
    }
  }

  // ----- A restarted counter -----

  function Fill(n: nat): seq<Step> { if n == 0 then [] else Fill(n - 1) + [WritePixel(n - 1)] }

  function Publish(frame: Frame): seq<Step> {
    [BeginPublish(frame, Wrote)] + Fill(|frame.pixels|) + [EndPublish(Wrote)]
  }

  function PublishTimes(frame: Frame, n: nat): seq<Step> {
    if n == 0 then [] else PublishTimes(frame, n - 1) + Publish(frame)
  }

  function Copy(from: nat, to: nat): seq<Step>
    requires from <= to
  {
    if to == from then [] else Copy(from, to - 1) + [CopyPixel(to - 1)]
  }

  lemma RunOne(s: Shared, steps: seq<Step>, step: Step)
    ensures Run(s, steps + [step]) == Do(Run(s, steps), step)
  {
    assert (steps + [step])[..|steps|] == steps;
  }

  lemma {:induction false} RunConcat(s: Shared, a: seq<Step>, b: seq<Step>)
    ensures Run(s, a + b) == Run(Run(s, a), b)
    decreases |b|
  {
    if b == [] {
      assert a + b == a;
    } else {
      RunConcat(s, a, b[..|b| - 1]);
      assert (a + b)[..|a + b| - 1] == a + b[..|b| - 1];
    }
  }

  lemma FillOne(s: Shared, k: nat)
    requires s.writing.Filling? && k < |s.writing.frame.pixels| <= |s.pixels|
    ensures Do(s, WritePixel(k)) == s.(pixels := s.pixels[k := s.writing.frame.pixels[k]],
                                       writing := s.writing.(written := s.writing.written + {k}))
  {
  }

  lemma {:induction false} FillRuns(s: Shared, frame: Frame, n: nat)
    requires s.writing == Filling(frame, {}) && n <= |frame.pixels| <= |s.pixels|
    ensures var after := Run(s, Fill(n));
            && after == s.(pixels := frame.pixels[..n] + s.pixels[n..], writing := after.writing)
            && after.writing.Filling? && after.writing.frame == frame
            && forall k: nat :: k < n ==> k in after.writing.written
  {
    hide Do, Run;
    if n > 0 {
      FillRuns(s, frame, n - 1);
      RunOne(s, Fill(n - 1), WritePixel(n - 1));
      var before := Run(s, Fill(n - 1));
      FillOne(before, n - 1);
      assert before.pixels[n - 1 := frame.pixels[n - 1]] == frame.pixels[..n] + s.pixels[n..];
    } else {
      RunNone(s);
      assert frame.pixels[..0] + s.pixels[0..] == s.pixels;
    }
  }

  /** The record after one complete publish into a quiet, even one. */
  function Published(s: Shared, frame: Frame): Shared
    requires |frame.pixels| <= |s.pixels| && s.counter < U64_LIMIT - 2
  {
    s.(head := Head(s.counter + 2, frame.width, frame.height), pixels := frame.pixels + s.pixels[|frame.pixels|..],
       own := true, counter := s.counter + 2, begun := s.begun + 1, done := s.done[s.counter + 2 := frame])
  }

  lemma EndsPublished(s: Shared, frame: Frame, filled: Shared)
    requires s.writing.Quiet? && s.counter % 2 == 0 && s.counter < U64_LIMIT - 2
    requires Accepted(frame) && frame.width > 0 && frame.height > 0 && |s.pixels| == CAPACITY
    requires filled == Do(s, BeginPublish(frame, Wrote)).(
               pixels := frame.pixels + s.pixels[|frame.pixels|..], writing := filled.writing)
    requires filled.writing.Filling? && filled.writing.frame == frame && FullyWritten(filled.writing)
    ensures Do(filled, EndPublish(Wrote)) == Published(s, frame)
  {
  }

  lemma PublishRuns(s: Shared, frame: Frame)
    requires s.writing.Quiet? && s.counter % 2 == 0 && s.counter < U64_LIMIT - 2
    requires Accepted(frame) && frame.width > 0 && frame.height > 0 && |s.pixels| == CAPACITY
    ensures Run(s, Publish(frame)) == Published(s, frame)
  {
    var begin, len := BeginPublish(frame, Wrote), |frame.pixels|;
    var opening := Do(s, begin);
    assert opening.writing == Filling(frame, {}) && opening.pixels == s.pixels;
    RunOne(s, [], begin);
    assert [] + [begin] == [begin];
    assert Run(s, []) == s;
    RunConcat(s, [begin], Fill(len));
    FillRuns(opening, frame, len);
    var filled := Run(opening, Fill(len));
    assert frame.pixels[..len] == frame.pixels;
    hide Do, Run;
    EndsPublished(s, frame, filled);
    RunOne(s, [begin] + Fill(len), EndPublish(Wrote));
  }

  lemma {:induction false} PublishTimesRuns(s: Shared, frame: Frame, n: nat)
    requires n > 0 && s.writing.Quiet? && s.counter == 0 && 2 * n < U64_LIMIT && s.done == map[]
    requires Accepted(frame) && frame.width > 0 && frame.height > 0 && |s.pixels| == CAPACITY
    ensures var after := Run(s, PublishTimes(frame, n));
            && after == s.(head := Head(2 * n, frame.width, frame.height),
                           pixels := frame.pixels + s.pixels[|frame.pixels|..],
                           own := true, counter := 2 * n, begun := s.begun + n, done := after.done)
            && forall k :: k in after.done ==> after.done[k] == frame
  {
    hide Do, Run, Publish;
    RunConcat(s, PublishTimes(frame, n - 1), Publish(frame));
    if n == 1 {
      assert PublishTimes(frame, 0) == [];
      RunNone(s);
      PublishRuns(s, frame);
    } else {
      PublishTimesRuns(s, frame, n - 1);
      var before := Run(s, PublishTimes(frame, n - 1));
      PublishRuns(before, frame);
      assert before.pixels[|frame.pixels|..] == s.pixels[|frame.pixels|..];
    }
  }

  lemma RunNone(s: Shared)
    ensures Run(s, []) == s
  {
  }

  lemma {:induction false} CopyRuns(s: Shared, from: nat, to: nat)
    requires s.reading.Copying? && from <= to <= s.reading.Length() <= |s.pixels|
    requires forall k :: from <= k < to ==> k !in s.reading.got
    ensures var after := Run(s, Copy(from, to));
            && after.reading.Copying?
            && after == s.(reading := s.reading.(got := after.reading.got))
            && forall k: nat :: k in after.reading.got <==> k in s.reading.got || from <= k < to
    ensures var after := Run(s, Copy(from, to));
            forall k: nat :: k in after.reading.got ==>
              after.reading.got[k] == if k in s.reading.got then s.reading.got[k] else s.pixels[k]
  {
    hide Do, Run;
    if from < to {
      CopyRuns(s, from, to - 1);
      RunOne(s, Copy(from, to - 1), CopyPixel(to - 1));
      CopyOne(Run(s, Copy(from, to - 1)), to - 1);
    } else {
      RunNone(s);
    }
  }

  lemma CopyOne(s: Shared, k: nat)
    requires s.reading.Copying? && k < s.reading.Length() <= |s.pixels| && k !in s.reading.got
    ensures Do(s, CopyPixel(k)) == s.(reading := s.reading.(got := s.reading.got[k := s.pixels[k]]))
  {
  }

  function Shifted(pixels: seq<u8>, len: nat): (bytes: seq<u8>)
    requires len <= |pixels|
    ensures |bytes| == len && forall k :: 0 <= k < len ==> bytes[k] != pixels[k]
  {
    if len == 0 then []
    else Shifted(pixels, len - 1) + [if pixels[len - 1] == 0 then 1 else 0]
  }

  /** One old byte under a repeated number: the rest of the copy is new, and the
      second look at the header accepts the mixture. */
  lemma RepeatedNumberTears(s: Shared, first: Head, pixels: seq<u8>, other: Frame)
    requires |pixels| == CAPACITY && !first.Blank? && 4 <= Length(first) <= CAPACITY && |s.pixels| == CAPACITY
    requires s.head == first && s.reading == Copying(first.seq_, first.width, first.height, false, map[0 := pixels[0]])
    requires other == Frame(first.width, first.height, Shifted(pixels, Length(first)))
    requires forall k :: 0 <= k < Length(first) ==> s.pixels[k] == other.pixels[k]
    requires forall n :: n in s.done ==> s.done[n] == other
    ensures var after := Run(s, Copy(1, Length(first)) + [CheckHead]);
            !Truthful(after, first, pixels) && after.begun == s.begun
  {
    hide Do, Run, Truthful;
    var len := Length(first);
    CopyRuns(s, 1, len);
    var copied := Run(s, Copy(1, len));
    RunOne(s, Copy(1, len), CheckHead);
    CheckPasses(copied);
    TornIsNeither(copied, first, pixels, other);
  }

  lemma CheckPasses(s: Shared)
    requires s.reading.Copying? && FullyCopied(s.reading) && !s.head.Blank? && s.head.seq_ == s.reading.number
    ensures Do(s, CheckHead)
            == s.(reading := Finished(Some(Frame(s.reading.width, s.reading.height, Copied(s.reading)))))
  {
  }

  /** Old at its first byte, new at its second. */
  lemma TornIsNeither(s: Shared, first: Head, pixels: seq<u8>, other: Frame)
    requires |pixels| == CAPACITY && !first.Blank? && 4 <= Length(first) <= CAPACITY
    requires s.reading.Copying? && FullyCopied(s.reading) && s.reading.width == first.width
        && s.reading.height == first.height
    requires other == Frame(first.width, first.height, Shifted(pixels, Length(first)))
    requires s.reading.got[0] == pixels[0] && s.reading.got[1] == other.pixels[1]
    requires forall n :: n in s.done ==> s.done[n] == other
    ensures !Truthful(s.(reading := Finished(Some(Frame(first.width, first.height, Copied(s.reading))))), first, pixels)
  {
    hide Copied, Shifted;
    var torn := Frame(first.width, first.height, Copied(s.reading));
    assert torn.pixels[0] == pixels[0] && torn.pixels[1] == other.pixels[1];
    assert torn.pixels[0] != other.pixels[0] && torn.pixels[1] != pixels[1];
    assert torn != other;
    assert Inherited(first, pixels).pixels[1] == pixels[1];
  }

  /** The negative half: whenever the inherited header could be repeated - valid,
      even and positive, as any record left by an earlier instance is - some
      interleaving returns a picture that was never published and never inherited.
      The counter restarts at zero, so the second look at the header sees the old
      number over new pixels. */
  lemma RestartCanTear(first: Head, pixels: seq<u8>) returns (steps: seq<Step>)
    requires |pixels| == CAPACITY && !first.Blank? && first.width > 0 && first.height > 0 && Length(first) <= CAPACITY
    requires first.seq_ % 2 == 0 && first.seq_ > 0
    ensures Run(Opened(first, pixels), steps).begun <= MANY
    ensures !Truthful(Run(Opened(first, pixels), steps), first, pixels)
  {
    var len := Length(first);
    assert first.width * first.height >= 1;
    var other := Frame(first.width, first.height, Shifted(pixels, len));
    var s0 := Opened(first, pixels);
    var opening := [ReadHead] + [CopyPixel(0)];
    RunNone(s0);
    RunOne(s0, [], ReadHead);
    RunOne(s0, [ReadHead], CopyPixel(0));
    assert [] + [ReadHead] == [ReadHead];
    var s1 := Run(s0, opening);
    assert s1 == s0.(reading := Copying(first.seq_, first.width, first.height, false, map[0 := pixels[0]]));
    hide Do, Run, Truthful;
    PublishTimesRuns(s1, other, first.seq_ / 2);
    RunConcat(s0, opening, PublishTimes(other, first.seq_ / 2));
    var s2 := Run(s1, PublishTimes(other, first.seq_ / 2));
    RepeatedNumberTears(s2, first, pixels, other);
    steps := (opening + PublishTimes(other, first.seq_ / 2)) + (Copy(1, len) + [CheckHead]);
    RunConcat(s0, opening + PublishTimes(other, first.seq_ / 2), Copy(1, len) + [CheckHead]);
  }

  /** MAIN RESULT, both ways: for a record with a well-formed header, every run is
      free of torn reads if and only if that header cannot be repeated. */
  lemma SafeExactlyWhenUnrepeatable(first: Head, pixels: seq<u8>)
    requires |pixels| == CAPACITY && Length(first) <= CAPACITY
    requires first.Blank? || (first.width > 0 && first.height > 0)
    ensures Unrepeatable(first) <==>
      forall steps :: Run(Opened(first, pixels), steps).begun <= MANY ==>
        Truthful(Run(Opened(first, pixels), steps), first, pixels)
  {
    hide Do, Run, Truthful;
    if Unrepeatable(first) {
      forall steps | Run(Opened(first, pixels), steps).begun <= MANY
        ensures Truthful(Run(Opened(first, pixels), steps), first, pixels)
      {
        ReadsAreNeverTorn(first, pixels, steps);
      }
    } else {
      var steps := RestartCanTear(first, pixels);
      assert !Truthful(Run(Opened(first, pixels), steps), first, pixels);
    }
  }

  // ----- With the writer idle -----

  /** After a successful publish and with the writer idle, a read returns that frame. */
  lemma IdleReadsTheLastFrame(s: Shared, frame: Frame)
    requires s.writing.Quiet? && s.reading.Asleep? && s.counter % 2 == 0 && s.counter < U64_LIMIT - 2
    requires Accepted(frame) && |s.pixels| == CAPACITY && frame.width > 0 && frame.height > 0
    ensures Run(s, Publish(frame) + [ReadHead] + Copy(0, |frame.pixels|) + [CheckHead]).reading
            == Finished(Some(frame))
  {
    hide Do, Run, Publish, Copied, Copy;
    var len, s1 := |frame.pixels|, Published(s, frame);
    PublishRuns(s, frame);
    RunOne(s, Publish(frame), ReadHead);
    ReadsEven(s1);
    var s2 := Do(s1, ReadHead);
    CopyRuns(s2, 0, len);
    RunConcat(s, Publish(frame) + [ReadHead], Copy(0, len));
    var s3 := Run(s2, Copy(0, len));
    RunOne(s, Publish(frame) + [ReadHead] + Copy(0, len), CheckHead);
    CheckPasses(s3);
    assert Copied(s3.reading) == frame.pixels;
  }

  lemma ReadsEven(s: Shared)
    requires s.reading.Asleep? && !s.head.Blank? && s.head.seq_ % 2 == 0
    ensures Do(s, ReadHead) == s.(reading := Copying(s.head.seq_, s.head.width, s.head.height, s.own, map[]))
  {
  }
}

/** What a QualityApplied report means, over whole runs of the worker loop. */
module WorkerTrail {
  import opened Basics
  import opened QualitySwitch
  import opened WorkerLoop

  /** The report at `i` is backed by what happened since this request released
      the old outputs: only configurations of the requested mode, a fresh decoder
      whose first unit was a keyframe with its configuration, and a decoded
      picture of the requested size submitted to a sink opened for that mode. */
  ghost predicate Backed(log: seq<Act>, i: nat, mode: Mode, p: int, r: int, c: int, n: int, f: int, o: int)
    requires i < |log|
  {
    && 0 <= p < r < c < n < f < o < i - 1
    && log[p].PrepareSent? && log[p].mode == mode
    && (forall k :: p < k < i ==> !log[k].PrepareSent?)
    && log[r].OutputsReleased?
    && (forall k :: r < k < i ==> !log[k].OutputsReleased?)
    && log[c].ConfigTaken?
    && (forall k :: r < k < i && log[k].ConfigTaken? ==> log[k].mode == mode)
    && log[n].DecoderOpened?
    && log[f].Fed? && log[f].keyframe && log[f].configIncluded
    && (forall k :: r < k < f ==> !log[k].Fed?)
    && log[o] == SinkOpened(mode)
    && (forall k :: r < k < i && log[k].SinkOpened? ==> k == o)
    && log[i - 1] == Submitted(mode)
    && (exists d :: f < d < i - 1 && log[d] == FrameDecoded(mode.width, mode.height))
  }

  ghost predicate Earned(log: seq<Act>, i: nat, mode: Mode)
    requires i < |log|
  {
    exists p, r, c, n, f, o :: Backed(log, i, mode, p, r, c, n, f, o)
  }

  ghost predicate AllEarned(log: seq<Act>) {
    forall i: nat :: i < |log| && log[i].Told? && log[i].note.QualityApplied? ==> Earned(log, i, log[i].note.mode)
  }

  // ----- Landmarks of a log -----

  /** Positions, or -1: the latest request and release, and since that release the
      first configuration, decoder, fed unit and sink, and the latest picture. */
  datatype Trail = Trail(p: int, r: int, c: int, n: int, f: int, o: int, d: int)

  const NoTrail: Trail := Trail(-1, -1, -1, -1, -1, -1, -1)

  datatype Kind = KPrepare | KRelease | KConfig | KDecoder | KFed | KSink | KPicture | KOther

  function KindOf(act: Act): Kind {
    match act
    case PrepareSent(_, _, _) => KPrepare
    case OutputsReleased => KRelease
    case ConfigTaken(_) => KConfig
    case DecoderOpened => KDecoder
    case Fed(_, _, _) => KFed
    case SinkOpened(_) => KSink
    case FrameDecoded(_, _) => KPicture
    case _ => KOther
  }

  function Mark(t: Trail, at: nat, act: Act): Trail {
    match KindOf(act)
    case KPrepare => t.(p := at)
    case KRelease => Trail(t.p, at, -1, -1, -1, -1, -1)
    case KConfig => if t.c < 0 then t.(c := at) else t
    case KDecoder => if t.n < 0 then t.(n := at) else t
    case KFed => if t.f < 0 then t.(f := at) else t
    case KSink => if t.o < 0 then t.(o := at) else t
    case KPicture => t.(d := at)
    case KOther => t
  }

  function TrailOf(log: seq<Act>): (t: Trail)
    ensures -1 <= t.p < |log| && -1 <= t.r < |log| && -1 <= t.c < |log| && -1 <= t.n < |log|
    ensures -1 <= t.f < |log| && -1 <= t.o < |log| && -1 <= t.d < |log|
  {
    if log == [] then NoTrail
    else Mark(TrailOf(log[..|log| - 1]), |log| - 1, log[|log| - 1])
  }

  lemma TrailPush(log: seq<Act>, act: Act)
    ensures TrailOf(log + [act]) == Mark(TrailOf(log), |log|, act)
  {
    assert (log + [act])[..|log|] == log;
  }

  predicate Neutral(act: Act) { KindOf(act).KOther? }

  lemma {:induction false} TrailKeeps(log: seq<Act>, acts: seq<Act>)
    requires forall k :: 0 <= k < |acts| ==> Neutral(acts[k])
    ensures TrailOf(log + acts) == TrailOf(log)
    decreases |acts|
  {
    if acts == [] {
      assert log + acts == log;
    } else {
      var front, last := acts[..|acts| - 1], acts[|acts| - 1];
      assert Neutral(last);
      TrailKeeps(log, front);
      calc {
        TrailOf(log + acts);
        { assert log + acts == (log + front) + [last]; }
        TrailOf((log + front) + [last]);
        { TrailPush(log + front, last); }
        TrailOf(log + front);
      }
    }
  }

  ghost predicate LatestIs(log: seq<Act>, kind: Kind, at: int) {
    && -1 <= at < |log| && (at >= 0 ==> KindOf(log[at]) == kind)
    && (forall k :: at < k < |log| ==> KindOf(log[k]) != kind)
  }

  ghost predicate FirstIs(log: seq<Act>, from: int, kind: Kind, at: int)
    requires -1 <= from
  {
    if at < 0 then forall k :: from < k < |log| ==> KindOf(log[k]) != kind
    else from < at < |log| && KindOf(log[at]) == kind && forall k :: from < k < at ==> KindOf(log[k]) != kind
  }

  ghost predicate Marked(log: seq<Act>, t: Trail) {
    && LatestIs(log, KPrepare, t.p)
    && LatestIs(log, KRelease, t.r)
    && FirstIs(log, t.r, KConfig, t.c)
    && FirstIs(log, t.r, KDecoder, t.n)
    && FirstIs(log, t.r, KFed, t.f)
    && FirstIs(log, t.r, KSink, t.o)
    && (t.d >= 0 ==> t.r < t.d < |log| && log[t.d].FrameDecoded?)
  }

  lemma FirstIsPush(log: seq<Act>, act: Act, from: int, kind: Kind, at: int)
    requires -1 <= from < |log| && FirstIs(log, from, kind, at)
    ensures FirstIs(log + [act], from, kind, if at < 0 && KindOf(act) == kind then |log| else at)
  {
  }

  lemma LatestIsPush(log: seq<Act>, act: Act, kind: Kind, at: int)
    requires LatestIs(log, kind, at)
    ensures LatestIs(log + [act], kind, if KindOf(act) == kind then |log| else at)
  {
    hide KindOf;
  }

  lemma ReleaseRestarts(log: seq<Act>, act: Act, kind: Kind)
    ensures FirstIs(log + [act], |log|, kind, -1)
  {
  }

  lemma MarkedPush(log: seq<Act>, act: Act, t: Trail)
    requires Marked(log, t)
    ensures Marked(log + [act], Mark(t, |log|, act))
  {
    LatestIsPush(log, act, KPrepare, t.p);
    LatestIsPush(log, act, KRelease, t.r);
    if KindOf(act).KRelease? {
      ReleaseRestarts(log, act, KConfig);
      ReleaseRestarts(log, act, KDecoder);
      ReleaseRestarts(log, act, KFed);
      ReleaseRestarts(log, act, KSink);
    } else {
      FirstIsPush(log, act, t.r, KConfig, t.c);
      FirstIsPush(log, act, t.r, KDecoder, t.n);
      FirstIsPush(log, act, t.r, KFed, t.f);
      FirstIsPush(log, act, t.r, KSink, t.o);
      assert KindOf(act).KPicture? ==> act.FrameDecoded?;
    }
    hide LatestIs, FirstIs, KindOf;
  }

  lemma {:induction false} TrailIsMarked(log: seq<Act>)
    ensures Marked(log, TrailOf(log))
  {
    if log != [] {
      var front := log[..|log| - 1];
      TrailIsMarked(front);
      MarkedPush(front, log[|log| - 1], TrailOf(front));
      assert log == front + [log[|log| - 1]];
    }
  }

  lemma NoSinkYet(log: seq<Act>)
    requires TrailOf(log).o < 0
    ensures forall k :: TrailOf(log).r < k < |log| ==> !log[k].SinkOpened?
  {
    hide TrailOf;
    TrailIsMarked(log);
    NoneMarked(log, TrailOf(log).r, KSink);
  }

  lemma NoneMarked(log: seq<Act>, from: int, kind: Kind)
    requires -1 <= from && FirstIs(log, from, kind, -1)
    ensures kind.KSink? ==> forall k :: from < k < |log| ==> !log[k].SinkOpened?
    ensures kind.KConfig? ==> forall k :: from < k < |log| ==> !log[k].ConfigTaken?
  {
    forall k | from < k < |log|
      ensures kind.KSink? ==> !log[k].SinkOpened?
      ensures kind.KConfig? ==> !log[k].ConfigTaken?
    {
      assert KindOf(log[k]) != kind;
    }
  }

  lemma NoConfigYet(log: seq<Act>)
    requires TrailOf(log).c < 0
    ensures forall k :: TrailOf(log).r < k < |log| ==> !log[k].ConfigTaken?
  {
    hide TrailOf;
    TrailIsMarked(log);
    NoneMarked(log, TrailOf(log).r, KConfig);
  }

  // ----- The invariant of the loop -----

  /** Since the latest release: what the loop's variables say about the log. */
  ghost predicate Since(w: Worker, t: Trail) {
    && (w.switch.Active() ==>
      && w.switch.requested.Some?
      && 0 <= t.p < |w.log| && w.log[t.p].PrepareSent? && w.log[t.p].mode == w.switch.requested.value)
    && (w.switch.AwaitingVideo() ==> t.p < t.r)
    && t.f < |w.log| && t.o < |w.log|
    && (w.switch.phase.Staged? || w.switch.phase.Switching? ==>
      w.config.None? && w.sink.None? && !w.decoder && !w.started && t.c < 0 && t.n < 0 && t.f < 0 && t.o < 0)
    && (w.switch.phase.AwaitingOutput? ==>
      && w.config == w.switch.requested
      && t.c >= 0
      && (forall k :: t.r < k < |w.log| && w.log[k].ConfigTaken? ==> Some(w.log[k].mode) == w.switch.requested)
      && (!w.decoder ==> t.n < 0 && t.f < 0)
      && (w.decoder ==> t.c < t.n)
      && (t.f >= 0 ==> w.decoder && t.n < t.f && w.log[t.f].Fed? && w.log[t.f].keyframe && w.log[t.f].configIncluded)
      && (w.sink.None? ==> t.o < 0)
      && (w.sink.Some? ==>
        && 0 <= t.f < t.o
        && w.sink == w.switch.requested
        && w.log[t.o] == SinkOpened(w.sink.value)
        && (forall k :: t.r < k < |w.log| && w.log[k].SinkOpened? ==> k == t.o))
      && (w.started ==> t.f >= 0))
  }

  ghost predicate Aligned(w: Worker) {
    w.running ==> Since(w, TrailOf(w.log))
  }

  // ----- Growing logs -----

  /** `after` extends `before` without reporting a success. */
  ghost predicate Quietly(before: seq<Act>, after: seq<Act>) {
    && |before| <= |after|
    && after[..|before|] == before
    && forall k :: |before| <= k < |after| ==> !(after[k].Told? && after[k].note.QualityApplied?)
  }

  lemma EarnedLater(log: seq<Act>, after: seq<Act>, i: nat, mode: Mode)
    requires i < |log| <= |after| && after[..|log|] == log && Earned(log, i, mode)
    ensures Earned(after, i, mode)
  {
    var p, r, c, n, f, o :| Backed(log, i, mode, p, r, c, n, f, o);
    var d :| f < d < i - 1 && log[d] == FrameDecoded(mode.width, mode.height);
    assert forall k :: 0 <= k < |log| ==> after[k] == after[..|log|][k];
    assert after[d] == FrameDecoded(mode.width, mode.height);
    assert Backed(after, i, mode, p, r, c, n, f, o);
  }

  lemma AllEarnedLater(log: seq<Act>, after: seq<Act>)
    requires AllEarned(log) && Quietly(log, after)
    ensures AllEarned(after)
  {
    assert forall k :: 0 <= k < |log| ==> after[k] == after[..|log|][k];
    forall i: nat | i < |after| && after[i].Told? && after[i].note.QualityApplied?
      ensures Earned(after, i, after[i].note.mode)
    {
      EarnedLater(log, after, i, after[i].note.mode);
    }
  }

  /** Reports, commits, flushes and submissions leave every landmark in place. */
  lemma SayingKeeps(w: Worker, acts: seq<Act>)
    requires Since(w, TrailOf(w.log))
    requires forall k :: 0 <= k < |acts| ==> Neutral(acts[k])
    ensures TrailOf(Say(w, acts).log) == TrailOf(w.log)
    ensures Since(Say(w, acts), TrailOf(w.log))
  {
    TrailKeeps(w.log, acts);
    assert forall k :: 0 <= k < |acts| ==> !acts[k].ConfigTaken? && !acts[k].SinkOpened?;
  }
}

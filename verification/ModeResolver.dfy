/** Saved wishes, advertised modes and the edition cap
    (host-rs/src/quality/preference.rs, host-rs/src/quality/edition.rs). */
module ModeResolver {
  import opened Basics
  import opened QualitySwitch

  /** A capture mode as the phone advertises it. */
  datatype Offer = Offer(mode: Mode, bitrate: u32)

  /** A wish is a mode in which a zero size or a zero rate means Auto. */
  type Wish = Mode

  const AUTO: Wish := Mode(0, 0, 0)

  /** How far a size is from 16:9, in any total order. The program computes it
      in floating point; nothing below depends on how it rounds. */
  type Aspect = (u16, u16) -> int

  predicate Valid(wish: Wish) {
    && (wish.width == 0 <==> wish.height == 0)
    && wish.width <= 3840 && wish.height <= 2160
    && wish.width % 2 == 0
    && wish.fps <= 60
  }

  predicate Usable(offer: Offer) {
    && offer.mode.width != 0 && offer.mode.height != 0 && offer.mode.fps != 0
    && Valid(offer.mode)
    && offer.bitrate != 0
  }

  predicate Satisfies(offer: Offer, wish: Wish) {
    && Usable(offer)
    && (wish.width == 0 || (offer.mode.width == wish.width && offer.mode.height == wish.height))
    && (wish.fps == 0 || offer.mode.fps == wish.fps)
  }

  function AbsDiff(a: int, b: int): nat { if a < b then b - a else a - b }

  datatype Rank = Rank(slow: int, fps: int, aspect: int, area: int, width: int, height: int)

  function RankOf(offer: Offer, aspect: Aspect): Rank {
    var m := offer.mode;
    Rank(if m.fps <= 30 then 0 else 1, if m.fps <= 30 then 30 - m.fps else m.fps,
         aspect(m.width, m.height), AbsDiff(m.width * m.height, 1280 * 720), m.width, m.height)
  }

  predicate Before(a: Rank, b: Rank) {
    if a.slow != b.slow then a.slow < b.slow
    else if a.fps != b.fps then a.fps < b.fps
    else if a.aspect != b.aspect then a.aspect < b.aspect
    else if a.area != b.area then a.area < b.area
    else if a.width != b.width then a.width < b.width
    else a.height < b.height
  }

  /** The first of the best-ranked offers that satisfy the wish. */
  function Pick(wish: Wish, offers: seq<Offer>, aspect: Aspect): (best: Option<Offer>)
    ensures best.Some? ==> best.value in offers && Satisfies(best.value, wish)
    ensures best.Some? ==> forall o :: o in offers && Satisfies(o, wish) ==>
        !Before(RankOf(o, aspect), RankOf(best.value, aspect))
    ensures best.None? <==> forall o :: o in offers ==> !Satisfies(o, wish)
  {
    if offers == [] then None
    else
      var last := offers[|offers| - 1];
      var rest := Pick(wish, offers[..|offers| - 1], aspect);
      assert offers == offers[..|offers| - 1] + [last];
      if !Satisfies(last, wish) then rest
      else if rest.None? then Some(last)
      else if Before(RankOf(last, aspect), RankOf(rest.value, aspect)) then Some(last)
      else rest
  }

  function Resolve(wish: Wish, offers: seq<Offer>, aspect: Aspect): Option<Offer> {
    if Valid(wish) then Pick(wish, offers, aspect) else None
  }

  /** Two offers neither of which ranks before the other are the same mode. */
  lemma RankDecidesMode(a: Offer, b: Offer, aspect: Aspect)
    requires !Before(RankOf(a, aspect), RankOf(b, aspect)) && !Before(RankOf(b, aspect), RankOf(a, aspect))
    ensures a.mode == b.mode
  {
    assert a.mode.width == b.mode.width && a.mode.height == b.mode.height;
    assert a.mode.fps == b.mode.fps;
  }

  /** A wish resolves to a usable advertised mode that meets it and that no other
      candidate beats; it fails to resolve only when it is malformed or unmet. */
  lemma ResolveIsBest(wish: Wish, offers: seq<Offer>, aspect: Aspect)
    ensures var r := Resolve(wish, offers, aspect);
            && (r.None? <==> !Valid(wish) || forall o :: o in offers ==> !Satisfies(o, wish))
            && (r.Some? ==> r.value in offers && Satisfies(r.value, wish))
            && (r.Some? ==> forall o :: o in offers && Satisfies(o, wish) && o.mode != r.value.mode ==>
                 Before(RankOf(r.value, aspect), RankOf(o, aspect)))
  {
    var r := Resolve(wish, offers, aspect);
    if r.Some? {
      forall o | o in offers && Satisfies(o, wish) && o.mode != r.value.mode
        ensures Before(RankOf(r.value, aspect), RankOf(o, aspect))
      {
        if !Before(RankOf(r.value, aspect), RankOf(o, aspect)) { RankDecidesMode(o, r.value, aspect); }
      }
    }
  }

  /** MAIN RESULT, in plain numbers: the picked mode keeps what the wish fixes and is within
      the limits. Among the candidates a rate up to 30 beats every higher one, the highest
      up to 30 is best, then the lowest above; at one rate the nearest to 16:9 wins, then
      the nearest to 1280 by 720 in area, then the narrowest and the lowest. */
  lemma PickedModeIs(wish: Wish, offers: seq<Offer>, aspect: Aspect, o: Offer)
    requires Resolve(wish, offers, aspect).Some?
    ensures var m := Resolve(wish, offers, aspect).value.mode;
            && (wish.width != 0 ==> m.width == wish.width && m.height == wish.height)
            && (wish.fps != 0 ==> m.fps == wish.fps)
            && 2 <= m.width <= 3840 && m.width % 2 == 0 && 1 <= m.height <= 2160 && 1 <= m.fps <= 60
            && Resolve(wish, offers, aspect).value.bitrate != 0
    ensures var m, n := Resolve(wish, offers, aspect).value.mode, o.mode;
            o in offers && Satisfies(o, wish) ==>
              && (n.fps <= 30 ==> n.fps <= m.fps <= 30)
              && (m.fps > 30 ==> m.fps <= n.fps)
              && (m.fps == n.fps ==> aspect(m.width, m.height) <= aspect(n.width, n.height))
              && (m.fps == n.fps && aspect(m.width, m.height) == aspect(n.width, n.height) ==>
                    var d, e := m.width * m.height - 921_600, n.width * n.height - 921_600;
                    && (if d < 0 then -d else d) <= (if e < 0 then -e else e)
                    && ((if d < 0 then -d else d) == (if e < 0 then -e else e) ==>
                          m.width < n.width || (m.width == n.width && m.height <= n.height)))
  {
    ResolveIsBest(wish, offers, aspect);
    hide Resolve;
  }

  /** A wish is malformed if it fixes one side alone, or asks for more than 3840 by 2160 at
      60, or for an odd width; such a wish resolves to nothing, and so does one that no
      usable offer meets. */
  lemma NothingIsPickedIf(wish: Wish, offers: seq<Offer>, aspect: Aspect)
    ensures Resolve(wish, offers, aspect).None? <==>
              || ((wish.width == 0) != (wish.height == 0)) || wish.width > 3840 || wish.height > 2160
              || wish.width % 2 == 1 || wish.fps > 60
              || forall o :: o in offers ==> !Satisfies(o, wish)
  {
    hide Pick;
  }

  /** Of several offers of one mode the first is taken, with its bitrate. */
  lemma {:induction false} FirstOfferIsPicked(wish: Wish, offers: seq<Offer>, aspect: Aspect) returns (i: nat)
    requires Pick(wish, offers, aspect).Some?
    ensures i < |offers| && Pick(wish, offers, aspect) == Some(offers[i])
    ensures forall j :: 0 <= j < i && Satisfies(offers[j], wish) ==> offers[j].mode != offers[i].mode
  {
    var front, last := offers[..|offers| - 1], offers[|offers| - 1];
    var rest := Pick(wish, front, aspect);
    if Pick(wish, offers, aspect) == rest {
      i := FirstOfferIsPicked(wish, front, aspect);
    } else {
      i := |offers| - 1;
      forall j | 0 <= j < i && Satisfies(offers[j], wish) ensures offers[j].mode != offers[i].mode {
        assert offers[j] == front[j] && front[j] in front;
        if rest.Some? { NotTheSame(front[j], last, rest.value, aspect); }
      }
    }
    hide RankOf, Before, Satisfies;
  }

  /** What does not rank before the best so far is another mode than what does. */
  lemma NotTheSame(earlier: Offer, last: Offer, best: Offer, aspect: Aspect)
    requires !Before(RankOf(earlier, aspect), RankOf(best, aspect))
    requires Before(RankOf(last, aspect), RankOf(best, aspect))
    ensures earlier.mode != last.mode
  {
  }

  /** The advertisement's order does not matter: lists with the same entries give
      the same size and rate. */
  lemma ResolveIgnoresOrder(wish: Wish, a: seq<Offer>, b: seq<Offer>, aspect: Aspect)
    requires forall o :: o in a <==> o in b
    ensures var ra := Resolve(wish, a, aspect); var rb := Resolve(wish, b, aspect);
            (ra.Some? <==> rb.Some?) && (ra.Some? ==> ra.value.mode == rb.value.mode)
  {
    var ra := Resolve(wish, a, aspect);
    var rb := Resolve(wish, b, aspect);
    if ra.Some? && rb.Some? { RankDecidesMode(ra.value, rb.value, aspect); }
  }

  lemma AutoResolves(offers: seq<Offer>, aspect: Aspect)
    ensures Resolve(AUTO, offers, aspect).Some? <==> exists o :: o in offers && Usable(o)
  {
  }

  // ----- The edition cap -----

  datatype EditionCap = EditionCap(maxLongEdge: u16, maxShortEdge: u16, maxFps: u16)

  const OSS_CAP_1080P30: EditionCap := EditionCap(1920, 1080, 30)

  predicate AllowsSize(cap: EditionCap, width: u16, height: u16) {
    var long := if width >= height then width else height;
    var short := if width >= height then height else width;
    1 <= long <= cap.maxLongEdge && 1 <= short <= cap.maxShortEdge
  }

  predicate Allows(cap: EditionCap, mode: Mode) {
    AllowsSize(cap, mode.width, mode.height) && 1 <= mode.fps <= cap.maxFps
  }

  function Published(cap: EditionCap, offers: seq<Offer>): (kept: seq<Offer>)
    ensures forall o :: o in kept <==> o in offers && Allows(cap, o.mode)
  {
    if offers == [] then []
    else (if Allows(cap, offers[0].mode) then [offers[0]] else []) + Published(cap, offers[1..])
  }

  function ClampWish(cap: EditionCap, wish: Wish): Wish {
    var sized := if wish.width != 0 && !AllowsSize(cap, wish.width, wish.height)
                 then wish.(width := 0, height := 0) else wish;
    if wish.fps > cap.maxFps then sized.(fps := 0) else sized
  }

  function CoerceToAvailable(wish: Wish, offers: seq<Offer>, aspect: Aspect): (Wish, bool) {
    if Resolve(wish, offers, aspect).Some? then (wish, false) else (AUTO, true)
  }

  /** Clamping settles in one step, keeps a wish well-formed, and leaves alone
      exactly the wishes whose explicit fields are all within the cap. */
  lemma ClampIsAProjection(cap: EditionCap, wish: Wish)
    ensures ClampWish(cap, ClampWish(cap, wish)) == ClampWish(cap, wish)
    ensures Valid(wish) ==> Valid(ClampWish(cap, wish))
    ensures Valid(wish) ==>
      (ClampWish(cap, wish) == wish <==>
        (wish.width == 0 || AllowsSize(cap, wish.width, wish.height)) && wish.fps <= cap.maxFps)
  {
  }

  /** The shipped edition in plain numbers: up to 1920 by 1080 either way round, up to 30. */
  lemma EditionIs(mode: Mode, wish: Wish)
    ensures Allows(OSS_CAP_1080P30, mode) <==>
              && mode.width > 0 && mode.height > 0 && 1 <= mode.fps <= 30
              && ((mode.width <= 1920 && mode.height <= 1080) || (mode.width <= 1080 && mode.height <= 1920))
    ensures var clamped := ClampWish(OSS_CAP_1080P30, wish);
            var fits := wish.height > 0 && ((wish.width <= 1920 && wish.height <= 1080)
                                            || (wish.width <= 1080 && wish.height <= 1920));
            && (wish.width == 0 || fits ==> clamped.width == wish.width && clamped.height == wish.height)
            && (wish.width != 0 && !fits ==> clamped.width == 0 && clamped.height == 0)
            && clamped.fps == (if wish.fps <= 30 then wish.fps else 0)
  {
  }

  /** What the cap publishes, the cap never rewrites: a wish that resolves against
      the published modes is unchanged, and any clamped wish asks for a size and a
      rate that some capped mode could have. */
  lemma ClampSparesPublishedWishes(cap: EditionCap, wish: Wish, offers: seq<Offer>, aspect: Aspect)
    ensures Resolve(wish, Published(cap, offers), aspect).Some? ==> ClampWish(cap, wish) == wish
    ensures Resolve(wish, offers, aspect).Some? && Allows(cap, Resolve(wish, offers, aspect).value.mode) ==>
      ClampWish(cap, wish) == wish
  {
    var r := Resolve(wish, Published(cap, offers), aspect);
    if r.Some? {
      assert Satisfies(r.value, wish) && Allows(cap, r.value.mode);
    }
  }

  /** A coerced wish resolves as soon as anything usable is advertised, and a wish
      is rewritten only when it did not resolve. */
  lemma CoercionAlwaysResolves(wish: Wish, offers: seq<Offer>, aspect: Aspect)
    ensures var (w, changed) := CoerceToAvailable(wish, offers, aspect);
            && (Resolve(w, offers, aspect).Some? <==> exists o :: o in offers && Usable(o))
            && (changed <==> Resolve(wish, offers, aspect).None?)
            && (!changed ==> w == wish)
  {
    if Resolve(wish, offers, aspect).Some? {
      var o := Resolve(wish, offers, aspect).value;
      assert o in offers && Usable(o);
    }
    AutoResolves(offers, aspect);
  }
}

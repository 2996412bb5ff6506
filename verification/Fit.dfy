/** Where a rotated picture goes inside the output
    (host-rs/src/video/transform.rs:8-32, host/src/image_transform.cpp:67-87). */
module Fit {
  import opened Basics
  import opened Arithmetic

  datatype Rect = Rect(x: nat, y: nat, width: nat, height: nat)

  datatype FitError = InvalidDimensions | TooNarrow

  /** Clearing the lowest bit. */
  function Even(n: nat): nat { n - n % 2 }

  predicate Proper(width: nat, height: nat, outWidth: nat, outHeight: nat) {
    width > 0 && height > 0 && outWidth >= 2 && outWidth % 2 == 0 && outHeight > 0
  }

  /** A quotient is the last multiple at or below. */
  lemma Quotient(n: nat, d: nat)
    requires d > 0
    ensures n / d * d <= n < n / d * d + d
  {
  }

  /** The rounded sizes never exceed the output, so the margins are not negative. */
  lemma SizesFit(width: nat, height: nat, outWidth: nat, outHeight: nat)
    requires Proper(width, height, outWidth, outHeight)
    ensures width * outHeight <= height * outWidth ==> width * outHeight / height <= outWidth
    ensures width * outHeight > height * outWidth ==> height * outWidth / width <= outHeight
  {
    if width * outHeight <= height * outWidth {
      QuotientAtMost(width * outHeight, height, outWidth);
    } else {
      QuotientAtMost(height * outWidth, width, outHeight);
    }
  }

  /** The scaled sizes, from the two cross products. */
  function Scale(width: nat, height: nat, outWidth: nat, outHeight: nat, across: nat, down: nat): (size: (nat, nat))
    requires Proper(width, height, outWidth, outHeight)
    ensures across == width * outHeight && down == height * outWidth ==> size.0 <= outWidth && size.1 <= outHeight
  {
    SizesFit(width, height, outWidth, outHeight);
    if across <= down then (Even(across / height), outHeight) else (outWidth, down / width)
  }

  function Place(outWidth: nat, outHeight: nat, size: (nat, nat)): Rect
    requires size.0 <= outWidth && size.1 <= outHeight
  {
    Rect(Even((outWidth - size.0) / 2), (outHeight - size.1) / 2, size.0, size.1)
  }

  function FitRect(width: nat, height: nat, outWidth: nat, outHeight: nat): Result<Rect, FitError> {
    if !Proper(width, height, outWidth, outHeight) then Err(InvalidDimensions)
    else
      var size := Scale(width, height, outWidth, outHeight, width * outHeight, height * outWidth);
      if size.0 < 2 || size.1 == 0 then Err(TooNarrow) else Ok(Place(outWidth, outHeight, size))
  }

  lemma EvenBelow(n: nat)
    ensures Even(n) % 2 == 0 && Even(n) <= n < Even(n) + 2
  {
  }

  lemma EvenQuotient(n: nat, d: nat)
    requires d > 0
    ensures Even(n / d) * d <= n < (Even(n / d) + 2) * d
    ensures Even(n / d) >= 2 <==> n >= 2 * d
  {
    var q := n / d;
    var e := Even(q);
    EvenBelow(q);
    Quotient(n, d);
    Ordered(e, q, d);
    Ordered(q + 1, e + 2, d);
    if n >= 2 * d { QuotientAtLeast(n, d, 2); }
    if e >= 2 { Ordered(2, e, d); }
  }

  /** MAIN RESULT: a fitted rectangle lies inside the output on even columns,
      touches the full height or the full width, is as wide (to the next even column)
      or as high as the picture's shape allows, and is centred as nearly as even
      columns permit. */
  lemma FitIsTight(width: nat, height: nat, outWidth: nat, outHeight: nat)
    requires FitRect(width, height, outWidth, outHeight).Ok?
    ensures var r := FitRect(width, height, outWidth, outHeight).value;
            && r.width >= 2 && r.height >= 1 && r.x % 2 == 0 && r.width % 2 == 0
            && r.x + r.width <= outWidth && r.y + r.height <= outHeight
            && (if width * outHeight <= height * outWidth
                then r.height == outHeight && r.width * height <= width * outHeight < (r.width + 2) * height
                else r.width == outWidth && r.height * width <= height * outWidth < (r.height + 1) * width)
            && 0 <= outWidth - r.width - 2 * r.x <= 2 && 0 <= outHeight - r.height - 2 * r.y <= 1
  {
    var r := FitRect(width, height, outWidth, outHeight).value;
    SizesFit(width, height, outWidth, outHeight);
    Centred(outWidth, r.width);
    hide Even;
    if width * outHeight <= height * outWidth {
      EvenQuotient(width * outHeight, height);
      EvenBelow(width * outHeight / height);
    } else {
      Quotient(height * outWidth, width);
    }
  }

  lemma Centred(out: nat, size: nat)
    requires size <= out && out % 2 == 0 && size % 2 == 0
    ensures Even((out - size) / 2) % 2 == 0 && 0 <= out - size - 2 * Even((out - size) / 2) <= 2
  {
  }

  lemma Cancel(a: nat, b: nat, c: nat)
    requires c > 0 && a * c < b * c
    ensures a < b
  {
    if b <= a {
      Ordered(b, a, c);
      assert false;
    }
  }

  /** MAIN RESULT: no larger copy exists. Whatever the scale p/q, a copy of the
      picture that fits the output is no higher than the rectangle and less than two
      columns wider. */
  lemma FitIsLargest(width: nat, height: nat, outWidth: nat, outHeight: nat, p: nat, q: nat)
    requires FitRect(width, height, outWidth, outHeight).Ok? && q > 0
    requires width * p <= outWidth * q && height * p <= outHeight * q
    ensures var r := FitRect(width, height, outWidth, outHeight).value;
            width * p < (r.width + 2) * q && height * p < (r.height + 1) * q
  {
    var r := FitRect(width, height, outWidth, outHeight).value;
    FitIsTight(width, height, outWidth, outHeight);
    assert width > 0 && height > 0 by { FitMeansProper(width, height, outWidth, outHeight); }
    hide *;
    if width * outHeight <= height * outWidth {
      StillBelow(height * p, outHeight, q, 1);
      NoLarger(width, height, outHeight, p, q, r.width + 2);
    } else {
      StillBelow(width * p, outWidth, q, 2);
      NoLarger(height, width, outWidth, p, q, r.height + 1);
    }
  }

  lemma FitMeansProper(width: nat, height: nat, outWidth: nat, outHeight: nat)
    requires FitRect(width, height, outWidth, outHeight).Ok?
    ensures Proper(width, height, outWidth, outHeight)
  {
    hide Scale, Place;
  }

  lemma StillBelow(n: nat, side: nat, q: nat, more: nat)
    requires n <= side * q && q > 0 && more > 0
    ensures n < (side + more) * q
  {
    Strictly(side, side + more, q);
  }

  /** One side of the output decides the scale, so it bounds the other. */
  lemma NoLarger(a: nat, b: nat, side: nat, p: nat, q: nat, bound: nat)
    requires b > 0 && q > 0 && b * p <= side * q && a * side < bound * b
    ensures a * p < bound * q
  {
    calc {
      (a * p) * b;
    ==  { Shuffle(a, p, b); }
      a * (b * p);
    <=  { Ordered(b * p, side * q, a); }
      a * (side * q);
    ==  { Shuffle(a, side, q); }
      (a * side) * q;
    <  { Strictly(a * side, bound * b, q); }
      (bound * b) * q;
    ==  { Shuffle(bound, b, q); }
      (bound * q) * b;
    }
    Cancel(a * p, bound * q, b);
  }

  lemma Shuffle(a: nat, b: nat, c: nat)
    ensures (a * b) * c == a * (b * c) && (a * b) * c == (a * c) * b && (a * b) * c == a * (c * b)
  {
    assert a * (b * c) == a * (c * b);
  }

  lemma Strictly(a: nat, b: nat, c: nat)
    requires a < b && c > 0
    ensures a * c < b * c
  {
    assert b * c == a * c + (b - a) * c;
    AtLeast(b - a, c);
  }

  /** The only refusals: sizes that make no sense, and a picture whose shape leaves
      less than two columns or one row. */
  lemma FitRefuses(width: nat, height: nat, outWidth: nat, outHeight: nat)
    ensures FitRect(width, height, outWidth, outHeight).Err? <==>
              || !Proper(width, height, outWidth, outHeight)
              || (width * outHeight <= height * outWidth && width * outHeight < 2 * height)
              || (width * outHeight > height * outWidth && height * outWidth < width)
  {
    if Proper(width, height, outWidth, outHeight) {
      SizesFit(width, height, outWidth, outHeight);
      if width * outHeight <= height * outWidth {
        EvenQuotient(width * outHeight, height);
      } else {
        AtLeastOne(height * outWidth, width);
      }
    }
  }

  lemma AtLeastOne(n: nat, d: nat)
    requires d > 0
    ensures n / d >= 1 <==> n >= d
  {
    if n >= d { QuotientAtLeast(n, d, 1); }
    Quotient(n, d);
    if n / d >= 1 { Ordered(1, n / d, d); }
  }

  // ----- The C++ form -----

  const SIZE_MAX: nat := U64_LIMIT - 1

  lemma GuardMeans(n: u64, d: u64)
    requires d > 0
    ensures n <= SIZE_MAX / d <==> n * d < U64_LIMIT
  {
    Quotient(SIZE_MAX, d);
    if n <= SIZE_MAX / d {
      Ordered(n, SIZE_MAX / d, d);
    } else {
      Ordered(SIZE_MAX / d + 1, n, d);
    }
  }

  function Wrapped(a: nat, b: nat): (product: nat)
    ensures a * b < U64_LIMIT ==> product == a * b
  {
    (a * b) % U64_LIMIT
  }

  /** 64-bit products, which wrap; the guards come first. */
  function FitCpp(width: u64, height: u64, outWidth: u64, outHeight: u64): Option<Rect> {
    if !Proper(width, height, outWidth, outHeight) then None
    else if width > SIZE_MAX / outHeight || height > SIZE_MAX / outWidth then None
    else
      GuardMeans(width, outHeight);
      GuardMeans(height, outWidth);
      var size := Scale(width, height, outWidth, outHeight, Wrapped(width, outHeight), Wrapped(height, outWidth));
      if size.0 < 2 || size.1 == 0 then None else Some(Place(outWidth, outHeight, size))
  }

  predicate Guarded(width: u64, height: u64, outWidth: u64, outHeight: u64) {
    outWidth > 0 && outHeight > 0 && width <= SIZE_MAX / outHeight && height <= SIZE_MAX / outWidth
  }

  /** MAIN RESULT: behind its guards the C++ form computes with exact products and
      agrees with the Rust one; the guards refuse exactly the sizes whose products
      do not fit 64 bits. */
  lemma BothFitsAgree(width: u64, height: u64, outWidth: u64, outHeight: u64)
    requires outWidth > 0 && outHeight > 0
    ensures Guarded(width, height, outWidth, outHeight) <==>
              width * outHeight < U64_LIMIT && height * outWidth < U64_LIMIT
    ensures FitCpp(width, height, outWidth, outHeight)
            == if Guarded(width, height, outWidth, outHeight) && FitRect(width, height, outWidth, outHeight).Ok?
               then Some(FitRect(width, height, outWidth, outHeight).value) else None
  {
    GuardMeans(width, outHeight);
    GuardMeans(height, outWidth);
    hide Wrapped;
  }

  /** The program's own sizes are 32 bits wide, so the guards never fire for them. */
  lemma ProgramSizesAreGuarded(width: u32, height: u32, outWidth: u32, outHeight: u32)
    requires outWidth > 0 && outHeight > 0
    ensures Guarded(width, height, outWidth, outHeight)
  {
    GuardMeans(width, outHeight);
    GuardMeans(height, outWidth);
    Product(width, outHeight);
    Product(height, outWidth);
  }

  lemma Product(a: u32, b: u32)
    ensures a * b < U64_LIMIT
  {
    Ordered(a, 0xFFFF_FFFF, b);
    Ordered(b, 0xFFFF_FFFF, 0xFFFF_FFFF);
  }
}

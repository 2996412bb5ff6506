/** Facts about products and quotients that the strided loops rest on. */
module Arithmetic {
  lemma AtLeast(a: nat, b: nat)
    requires a >= 1
    ensures a * b >= b
  {
    assert a * b == (a - 1) * b + b;
  }

  lemma Ordered(a: nat, b: nat, c: nat)
    requires a <= b
    ensures a * c <= b * c && c * a <= c * b
  {
    assert (b - a) * c >= 0;
  }

  lemma Unique(n: nat, d: nat, q: nat, r: nat)
    requires r < d && n == q * d + r
    ensures n / d == q && n % d == r
  {
    var gap := n / d - q;
    assert gap * d == r - n % d;
    Between(gap, d);
  }

  /** A multiple of `d` strictly between -d and d is zero. */
  lemma Between(k: int, d: nat)
    requires -(d as int) < k * d < d
    ensures k == 0
  {
    if k > 0 {
      AtLeast(k, d);
      assert false;
    }
  }

  /** Position `x` of row `y` in reading order. */
  lemma RowMajor(width: nat, x: nat, y: nat)
    requires x < width
    ensures (y * width + x) / width == y && (y * width + x) % width == x
  {
    Unique(y * width + x, width, y, x);
  }

  lemma RowsFit(row: nat, width: nat, rows: nat)
    requires row < rows
    ensures row * width + width <= rows * width
  {
    Ordered(row + 1, rows, width);
  }

  lemma QuotientAtMost(n: nat, d: nat, q: nat)
    requires d > 0 && n <= d * q
    ensures n / d <= q
  {
    Unique(q * d, d, q, 0);
    QuotientsOrdered(n, q * d, d);
  }

  lemma QuotientAtLeast(n: nat, d: nat, q: nat)
    requires d > 0 && d * q <= n
    ensures n / d >= q
  {
    Unique(q * d, d, q, 0);
    QuotientsOrdered(q * d, n, d);
  }

  lemma QuotientsOrdered(a: nat, b: nat, d: nat)
    requires d > 0 && a <= b
    ensures a / d <= b / d
  {
    var gap := a / d - b / d;
    assert gap * d == (a - a % d) - (b - b % d);
    if gap >= 1 { AtLeast(gap, d); }
  }

  lemma QuotientBelow(n: nat, d: nat, q: nat)
    requires d > 0 && n < q * d
    ensures n / d < q
  {
    var gap := n / d - q;
    assert gap * d + n % d == n - q * d;
    if gap >= 0 {
      Ordered(0, gap, d);
      assert false;
    }
  }
}

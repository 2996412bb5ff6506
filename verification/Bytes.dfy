/** Little-endian integers, as every binary format here stores them. */
module Bytes {
  import opened Basics

  type bytes = seq<u8>

  function Pow256(k: nat): nat { if k == 0 then 1 else 256 * Pow256(k - 1) }

  function LE(n: nat, k: nat): (s: bytes)
    ensures |s| == k
  {
    if k == 0 then [] else [n % 256] + LE(n / 256, k - 1)
  }

  function FromLE(s: bytes): (n: nat)
    ensures n < Pow256(|s|)
  {
    if s == [] then 0 else s[0] as int + 256 * FromLE(s[1..])
  }

  lemma {:induction false} FromLEofLE(n: nat, k: nat)
    requires n < Pow256(k)
    ensures FromLE(LE(n, k)) == n
  {
    if k > 0 {
      FromLEofLE(n / 256, k - 1);
      assert LE(n, k)[1..] == LE(n / 256, k - 1);
    }
  }

  lemma {:induction false} LEofFromLE(s: bytes)
    ensures LE(FromLE(s), |s|) == s
  {
    if s != [] {
      LEofFromLE(s[1..]);
      assert s == [s[0]] + s[1..];
    }
  }

  lemma Widths()
    ensures Pow256(1) == 0x100 && Pow256(2) == U16_LIMIT && Pow256(4) == U32_LIMIT && Pow256(8) == U64_LIMIT
  {
    assert Pow256(2) == 256 * Pow256(1);
    assert Pow256(3) == 256 * Pow256(2);
    assert Pow256(4) == 256 * Pow256(3);
    assert Pow256(5) == 256 * Pow256(4);
    assert Pow256(6) == 256 * Pow256(5);
    assert Pow256(7) == 256 * Pow256(6);
    assert Pow256(8) == 256 * Pow256(7);
  }

  // ----- The same, byte by byte: the low byte comes first -----

  predicate Holds2(s: bytes, at: nat, n: int) {
    at + 2 <= |s| && s[at] as int + 0x100 * s[at + 1] as int == n
  }

  predicate Holds4(s: bytes, at: nat, n: int) {
    && at + 4 <= |s|
    && s[at] as int + 0x100 * s[at + 1] as int + 0x1_0000 * s[at + 2] as int + 0x100_0000 * s[at + 3] as int == n
  }

  predicate Holds8(s: bytes, at: nat, n: int) {
    && at + 8 <= |s|
    && s[at] as int + 0x100 * s[at + 1] as int + 0x1_0000 * s[at + 2] as int + 0x100_0000 * s[at + 3] as int
       + 0x1_0000_0000 * s[at + 4] as int + 0x100_0000_0000 * s[at + 5] as int
       + 0x1_0000_0000_0000 * s[at + 6] as int + 0x100_0000_0000_0000 * s[at + 7] as int == n
  }

  lemma LowByteFirst2(s: bytes, at: nat, n: int)
    requires at + 2 <= |s|
    ensures Holds2(s, at, n) <==> FromLE(s[at..at + 2]) == n
  {
    ReadsFirst(s, at, 2);
    ReadsFirst(s, at + 1, 1);
    hide FromLE;
  }

  lemma LowByteFirst4(s: bytes, at: nat, n: int)
    requires at + 4 <= |s|
    ensures Holds4(s, at, n) <==> FromLE(s[at..at + 4]) == n
  {
    ReadsFirst(s, at, 4);
    ReadsFirst(s, at + 1, 3);
    LowByteFirst2(s, at + 2, FromLE(s[at + 2..at + 4]));
    hide FromLE;
  }

  lemma LowByteFirst8(s: bytes, at: nat, n: int)
    requires at + 8 <= |s|
    ensures Holds8(s, at, n) <==> FromLE(s[at..at + 8]) == n
  {
    ReadsFirst(s, at, 8);
    ReadsFirst(s, at + 1, 7);
    ReadsFirst(s, at + 2, 6);
    ReadsFirst(s, at + 3, 5);
    LowByteFirst4(s, at + 4, FromLE(s[at + 4..at + 8]));
    hide FromLE;
  }

  lemma ReadsFirst(s: bytes, at: nat, k: nat)
    requires 0 < k && at + k <= |s|
    ensures FromLE(s[at..at + k]) == s[at] as int + 256 * FromLE(s[at + 1..at + k])
    ensures k == 1 ==> FromLE(s[at + 1..at + k]) == 0
  {
    assert s[at..at + k][1..] == s[at + 1..at + k];
  }
}

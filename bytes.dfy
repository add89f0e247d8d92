/**
 * Fixed-width integers as they cross the byte stream.
 *
 * The generated code calls ReadUint16/32/64 and WriteUint16/32/64 on an external
 * stream whose byte order is not part of this system. The model fixes one
 * encoding, most significant byte first; every property proved here holds for
 * any fixed encoding that round-trips, and only the concrete bytes depend on it.
 */
module Bytes {

  type byte = x: int | 0 <= x < 256

  const UINT32_LIMIT: nat := 0x1_0000_0000

  type uint32 = x: int | 0 <= x < 0x1_0000_0000

  /** 256 to the power w: the number of values a w-byte unsigned integer holds. */
  function Pow256(w: nat): (r: nat)
    ensures r >= 1
  {
    if w == 0 then 1 else 256 * Pow256(w - 1)
  }

  /** The w bytes of n, most significant first; n is reduced modulo 256^w. */
  function UintBytes(w: nat, n: nat): (r: seq<byte>)
    ensures |r| == w
  {
    if w == 0 then [] else UintBytes(w - 1, n / 256) + [n % 256]
  }

  /** The unsigned integer a byte string spells, most significant first. */
  function UintValue(bs: seq<byte>): (n: nat)
    ensures n < Pow256(|bs|)
  {
    if bs == [] then 0
    else
      var hi := UintValue(bs[..|bs| - 1]);
      assert hi * 256 + bs[|bs| - 1] <= (Pow256(|bs| - 1) - 1) * 256 + 255;
      hi * 256 + bs[|bs| - 1]
  }

  lemma {:induction false} UintRoundTrip(w: nat, n: nat)
    requires n < Pow256(w)
    ensures UintValue(UintBytes(w, n)) == n
  {
    if w > 0 {
      var bs := UintBytes(w, n);
      assert bs[..w - 1] == UintBytes(w - 1, n / 256);
      assert n / 256 < Pow256(w - 1);
      UintRoundTrip(w - 1, n / 256);
    }
  }

  lemma {:induction false} UintBytesOfValue(bs: seq<byte>)
    ensures UintBytes(|bs|, UintValue(bs)) == bs
  {
    if bs != [] {
      var init := bs[..|bs| - 1];
      var n := UintValue(bs);
      assert n / 256 == UintValue(init);
      assert n % 256 == bs[|bs| - 1];
      UintBytesOfValue(init);
      assert bs == init + [bs[|bs| - 1]];
    }
  }

  /** Go's conversion uintN(x) for a w-byte N: two's complement truncation. */
  function Truncate(w: nat, x: int): (u: nat)
    ensures u < Pow256(w)
  {
    x % Pow256(w)
  }

  /** Go's conversion intN(u) of a w-byte unsigned value: reinterpretation. */
  function AsSigned(w: nat, u: nat): int
  {
    if 2 * u >= Pow256(w) then u - Pow256(w) else u
  }

  /** x is representable as a w-byte signed integer. */
  predicate SignedRange(w: nat, x: int)
  {
    -(Pow256(w) as int) <= 2 * x < Pow256(w)
  }

  lemma SignedRoundTrip(w: nat, x: int)
    requires SignedRange(w, x)
    ensures AsSigned(w, Truncate(w, x)) == x
  {
    var p: int := Pow256(w);
    var u := Truncate(w, x);
    if x < 0 {
      ModOfShift(x, p);
      assert u == x + p;
      assert 2 * u >= p;
    } else {
      ModOfSmall(x, p);
      assert u == x;
    }
  }

  /** Every w-byte pattern read as signed lies in the signed range. */
  lemma AsSignedInRange(w: nat, u: nat)
    requires u < Pow256(w)
    ensures SignedRange(w, AsSigned(w, u))
  {
  }

  lemma ConcatAssoc(a: seq<byte>, b: seq<byte>, c: seq<byte>)
    ensures (a + b) + c == a + (b + c)
  {
  }

  lemma ModOfSmall(x: int, p: int)
    requires p > 0 && 0 <= x < p
    ensures x % p == x
  {
  }

  lemma ModOfShift(x: int, p: int)
    requires p > 0 && -p <= x < 0
    ensures x % p == x + p
  {
    var r := x + p;
    assert x == -1 * p + r;
  }
}

/**
 Little-endian integers as the buffers store them, and the cursor reads that
 take them off the front of a byte sequence.
 */
module Bytes {
  import opened Types

  const TWO_31 := 0x8000_0000
  const TWO_32 := 0x1_0000_0000
  const TWO_64 := 0x1_0000_0000_0000_0000

  type int32 = x: int | -0x8000_0000 <= x < 0x8000_0000

  function Pow256(n: nat): (r: nat)
    ensures r >= 1
  {
    if n == 0 then 1 else 256 * Pow256(n - 1)
  }

  /** The low `n` bytes of `v`, lowest first. */
  function ToLE(v: nat, n: nat): (bs: seq<byte>)
    ensures |bs| == n
  {
    if n == 0 then [] else [v % 256] + ToLE(v / 256, n - 1)
  }

  function FromLE(bs: seq<byte>): nat {
    if bs == [] then 0 else bs[0] + 256 * FromLE(bs[1..])
  }

  /** Every value that fits is read back. */
  lemma {:induction false} FromToLE(v: nat, n: nat)
    requires v < Pow256(n)
    ensures FromLE(ToLE(v, n)) == v
  {
    if n > 0 {
      FromToLE(v / 256, n - 1);
      assert ToLE(v, n)[1..] == ToLE(v / 256, n - 1);
    }
  }

  /** An arithmetic shift right by `8 * i` bits. */
  function Shr8(v: int, i: nat): int
    decreases i
  {
    if i == 0 then v else Shr8(v / 256, i - 1)
  }

  /** Byte `i` is the value shifted right by `8 * i` bits. */
  lemma {:induction false} ToLEByte(v: nat, n: nat, i: nat)
    requires i < n
    ensures ToLE(v, n)[i] == Shr8(v, i) % 256
  {
    if i > 0 {
      ToLEByte(v / 256, n - 1, i - 1);
    }
  }

  lemma {:induction false} Shr8Wraps(v: int, i: nat, n: nat)
    requires i <= n
    ensures Shr8(v + Pow256(n), i) == Shr8(v, i) + Pow256(n - i)
    decreases i
  {
    if i > 0 {
      assert (v + 256 * Pow256(n - 1)) / 256 == v / 256 + Pow256(n - 1);
      Shr8Wraps(v / 256, i - 1, n - 1);
    }
  }

  /** For an int32 the shift of the signed value gives the bytes of its bit pattern. */
  lemma PutIntByte(v: int32, i: nat)
    requires i < 4
    ensures PutInt(v)[i] == Shr8(v, i) % 256
  {
    ToLEByte(Unsigned(v), 4, i);
    if v < 0 {
      Widths();
      Shr8Wraps(v, i, 4);
      SameLowByte(Shr8(v, i), Pow256(3 - i));
    }
  }

  lemma SameLowByte(a: int, p: int)
    ensures (a + 256 * p) % 256 == a % 256
  {
  }

  lemma {:induction false} FromLEBound(bs: seq<byte>)
    ensures FromLE(bs) < Pow256(|bs|)
  {
    if bs != [] {
      FromLEBound(bs[1..]);
    }
  }

  /** One more byte at the high end. */
  lemma {:induction false} FromLEAppend(bs: seq<byte>, b: byte)
    ensures FromLE(bs + [b]) == FromLE(bs) + b * Pow256(|bs|)
  {
    if bs == [] {
      assert FromLE([b]) == b;
    } else {
      FromLEAppend(bs[1..], b);
      assert (bs + [b])[1..] == bs[1..] + [b];
      assert 256 * (b * Pow256(|bs| - 1)) == b * (256 * Pow256(|bs| - 1));
    }
  }

  lemma Widths()
    ensures Pow256(4) == TWO_32 && Pow256(8) == TWO_64
  {
    assert Pow256(4) == 256 * (256 * (256 * (256 * Pow256(0))));
    assert Pow256(8) == 256 * (256 * (256 * (256 * Pow256(4))));
  }

  // ----- values on the wire

  /** The two's complement pattern of an int32. */
  function Unsigned(v: int32): nat { if v < 0 then v + TWO_32 else v }

  /** An int32 from its bit pattern. */
  function Signed(u: nat): int32
    requires u < TWO_32
  {
    if u < TWO_31 then u else u - TWO_32
  }

  /** A C cast to int32: the low 32 bits, as a signed number. */
  function ToInt32(v: int): (r: int32)
    ensures -TWO_31 <= v < TWO_31 ==> r == v
  {
    if -TWO_31 <= v < TWO_31 then v else Signed(v % TWO_32)
  }

  function PutInt(v: int32): (bs: seq<byte>)
    ensures |bs| == 4
  {
    ToLE(Unsigned(v), 4)
  }

  function PutULong(v: nat): (bs: seq<byte>)
    ensures |bs| == 8
  {
    ToLE(v, 8)
  }

  function GetInt(bs: seq<byte>): Option<(int32, seq<byte>)> {
    if |bs| < 4 then None
    else (FromLEBound(bs[..4]); Widths(); Some((Signed(FromLE(bs[..4])), bs[4..])))
  }

  function GetULong(bs: seq<byte>): Option<(nat, seq<byte>)> {
    if |bs| < 8 then None else Some((FromLE(bs[..8]), bs[8..]))
  }

  function GetByte(bs: seq<byte>): Option<(byte, seq<byte>)> {
    if |bs| < 1 then None else Some((bs[0], bs[1..]))
  }

  function GetBytes(bs: seq<byte>, n: int): Option<(seq<byte>, seq<byte>)> {
    if n < 0 || |bs| < n then None else Some((bs[..n], bs[n..]))
  }

  /** The position of the first NUL, or the length if there is none. */
  function NulAt(bs: seq<byte>): (n: nat)
    ensures n <= |bs|
    ensures forall k | 0 <= k < n :: bs[k] != 0
    ensures n < |bs| ==> bs[n] == 0
  {
    if bs == [] || bs[0] == 0 then 0 else 1 + NulAt(bs[1..])
  }

  /** A NUL-terminated string; an empty or unterminated one is refused. */
  function GetStr(bs: seq<byte>): Option<(seq<byte>, seq<byte>)> {
    var n := NulAt(bs);
    if n == |bs| || n == 0 then None else Some((bs[..n], bs[n + 1..]))
  }

  /** Every int32, negative ones included, is read back as it was put. */
  lemma IntRoundTrip(v: int32, rest: seq<byte>)
    ensures GetInt(PutInt(v) + rest) == Some((v, rest))
  {
    Widths();
    FromToLE(Unsigned(v), 4);
    assert (PutInt(v) + rest)[..4] == PutInt(v);
    assert (PutInt(v) + rest)[4..] == rest;
  }

  /** So is every unsigned 64-bit value. */
  lemma ULongRoundTrip(v: nat, rest: seq<byte>)
    requires v < TWO_64
    ensures GetULong(PutULong(v) + rest) == Some((v, rest))
  {
    Widths();
    FromToLE(v, 8);
    assert (PutULong(v) + rest)[..8] == PutULong(v);
    assert (PutULong(v) + rest)[8..] == rest;
  }

  /** A string survives exactly when it is not empty and holds no NUL. */
  lemma StrRoundTrip(s: seq<byte>, rest: seq<byte>)
    ensures GetStr(s + [0] + rest) == Some((s, rest)) <==> s != [] && 0 !in s
  {
    var bs := s + [0] + rest;
    var n := NulAt(bs);
    assert bs[|s|] == 0;
    assert forall k | 0 <= k < |s| :: bs[k] == s[k];
    if 0 !in s {
      assert n == |s| && bs[..n] == s && bs[n + 1..] == rest;
    } else {
      var k :| 0 <= k < |s| && s[k] == 0;
      assert bs[k] == 0;
      assert |bs[..n]| < |s|;
    }
  }
}

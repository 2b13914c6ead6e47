/**
 The byte buffer: one block of raw bytes whose first four or eight hold the size
 and the cursor. Blocks below 32 KiB use two 16-bit fields, larger ones two
 32-bit fields with the top bit of the size set; that bit is how a reader tells
 the layouts apart.
 */
module Buffers {
  import opened Types
  import opened Bytes

  const SMALL_LIMIT := 0x8000

  // ----- the header, read from raw bytes

  predicate IsBig(r: seq<byte>)
    requires |r| >= 4
  {
    FromLE(r[..4]) >= TWO_31
  }

  function HeaderSize(r: seq<byte>): nat
    requires |r| >= 4
  {
    if IsBig(r) then 8 else 4
  }

  function SizeOf(r: seq<byte>): nat
    requires |r| >= 4
  {
    if IsBig(r) then FromLE(r[..4]) - TWO_31 else FromLE(r[..2])
  }

  function PosOf(r: seq<byte>): nat
    requires |r| >= 4 && (IsBig(r) ==> |r| >= 8)
  {
    if IsBig(r) then FromLE(r[4..8]) else FromLE(r[2..4])
  }

  /** A block with the given contents and cursor. */
  function Make(data: seq<byte>, p: nat): seq<byte> {
    if |data| < SMALL_LIMIT then ToLE(|data|, 2) + ToLE(p, 2) + data
    else ToLE(|data| + TWO_31, 4) + ToLE(p, 4) + data
  }

  lemma Width2()
    ensures Pow256(2) == 0x10000
  {
    assert Pow256(2) == 256 * (256 * Pow256(0));
  }

  lemma {:induction false} FromLEConcat(a: seq<byte>, b: seq<byte>)
    ensures FromLE(a + b) == FromLE(a) + Pow256(|a|) * FromLE(b)
  {
    if a == [] {
      assert a + b == b;
    } else {
      FromLEConcat(a[1..], b);
      assert (a + b)[1..] == a[1..] + b;
      assert 256 * (Pow256(|a| - 1) * FromLE(b)) == Pow256(|a|) * FromLE(b);
    }
  }

  /**
   Whatever the contents and the cursor, the header says what they are. A small
   block's cursor stays below 2^15, so the two 16-bit fields never look like a
   tagged 32-bit one.
   */
  lemma HeaderReads(data: seq<byte>, p: nat)
    requires p <= |data| < TWO_31
    ensures var r := Make(data, p);
            && |r| >= 4 && (IsBig(r) <==> |data| >= SMALL_LIMIT) && (IsBig(r) ==> |r| >= 8)
            && SizeOf(r) == |data| && PosOf(r) == p && r[HeaderSize(r)..] == data
  {
    var r := Make(data, p);
    Widths();
    if |data| < SMALL_LIMIT {
      Width2();
      assert r[..2] == ToLE(|data|, 2) && r[2..4] == ToLE(p, 2) && r[..4] == ToLE(|data|, 2) + ToLE(p, 2);
      FromLEConcat(ToLE(|data|, 2), ToLE(p, 2));
      FromToLE(|data|, 2);
      FromToLE(p, 2);
    } else {
      assert r[..4] == ToLE(|data| + TWO_31, 4) && r[4..8] == ToLE(p, 4);
      FromToLE(|data| + TWO_31, 4);
      FromToLE(p, 4);
    }
  }

  lemma NulIs(bs: seq<byte>, n: nat)
    requires n <= |bs| && (forall k | 0 <= k < n :: bs[k] != 0) && (n < |bs| ==> bs[n] == 0)
    ensures NulAt(bs) == n
  {
  }

  // ----- byte loops on arrays

  /** Writes the low `n` bytes of `v`, by arithmetic shifts, lowest first. */
  method StoreLE(a: array<byte>, at: nat, v: int, n: nat, ghost bs: seq<byte>)
    requires at + n <= a.Length && |bs| == n
    requires forall i | 0 <= i < n :: bs[i] == Shr8(v, i) % 256
    modifies a
    ensures a[..] == old(a[..at]) + bs + old(a[at + n..])
  {
    for i := 0 to n
      invariant a[..at + i] == old(a[..at]) + bs[..i]
      invariant a[at + i..] == old(a[at + i..])
    {
      a[at + i] := Shr8(v, i) % 256;
    }
  }

  /** Writes an unsigned field of `n` bytes. */
  method StoreNat(a: array<byte>, at: nat, v: nat, n: nat)
    requires at + n <= a.Length
    modifies a
    ensures a[..] == old(a[..at]) + ToLE(v, n) + old(a[at + n..])
  {
    forall i: nat | i < n ensures ToLE(v, n)[i] == Shr8(v, i) % 256 {
      ToLEByte(v, n, i);
    }
    StoreLE(a, at, v, n, ToLE(v, n));
  }

  /** Sums bytes shifted to their places. */
  method LoadLE(a: array<byte>, at: nat, n: nat) returns (v: nat)
    requires at + n <= a.Length
    ensures v == FromLE(a[at..at + n])
  {
    v := 0;
    var place: nat := 1;
    for i := 0 to n
      invariant v == FromLE(a[at..at + i]) && place == Pow256(i)
    {
      FromLEAppend(a[at..at + i], a[at + i]);
      assert a[at..at + i] + [a[at + i]] == a[at..at + i + 1];
      v, place := v + a[at + i] * place, 256 * place;
    }
  }

  /** Copies `n` bytes from one block to another. */
  method CopyBytes(src: array<byte>, from: nat, dst: array<byte>, to: nat, n: nat)
    requires src != dst && from + n <= src.Length && to + n <= dst.Length
    modifies dst
    ensures dst[..] == old(dst[..to]) + src[from..from + n] + old(dst[to + n..])
  {
    for i := 0 to n
      invariant dst[..to + i] == old(dst[..to]) + src[from..from + i]
      invariant dst[to + i..] == old(dst[to + i..])
    {
      dst[to + i] := src[from + i];
    }
  }

  /** Writes a string and the NUL behind it. */
  method StoreStr(a: array<byte>, at: nat, str: seq<byte>)
    requires at + |str| < a.Length
    modifies a
    ensures a[..] == old(a[..at]) + (str + [0]) + old(a[at + |str| + 1..])
  {
    for i := 0 to |str|
      invariant a[..at + i] == old(a[..at]) + str[..i]
      invariant a[at + i..] == old(a[at + i..])
    {
      a[at + i] := str[i];
    }
    a[at + |str|] := 0;
    assert a[..at + |str| + 1] == old(a[..at]) + (str + [0]);
  }

  // ----- the buffer

  class Buffer {
    const raw: array<byte>

    /** The bytes are those of a block with some contents and a cursor within them. */
    ghost predicate Valid()
      reads raw
    {
      var r := raw[..];
      && |r| >= 4 && (IsBig(r) ==> |r| >= 8)
      && PosOf(r) <= |r[HeaderSize(r)..]| < TWO_31 && r == Make(r[HeaderSize(r)..], PosOf(r))
    }

    ghost function Data(): (data: seq<byte>)
      requires Valid()
      reads raw
      ensures |data| < TWO_31
    {
      raw[..][HeaderSize(raw[..])..]
    }

    /** The cursor. */
    ghost function Pos(): (p: nat)
      requires Valid()
      reads raw
      ensures p <= |Data()|
    {
      PosOf(raw[..])
    }

    /** What has been written or read so far, and what is left. */
    ghost function Done(): seq<byte>
      requires Valid()
      reads raw
    {
      Data()[..Pos()]
    }

    ghost function Rest(): seq<byte>
      requires Valid()
      reads raw
    {
      Data()[Pos()..]
    }

    /** The block holds `bs` and is read from its front. */
    ghost predicate Has(bs: seq<byte>)
      reads raw
    {
      Valid() && Pos() == 0 && Data() == bs
    }

    lemma Ends()
      requires Valid()
      ensures Data() == Done() + Rest() && |Done()| == Pos()
    {
    }

    lemma Empty()
      requires Valid() && Pos() == 0
      ensures Done() == [] && Rest() == Data()
    {
    }

    lemma NowHas(bs: seq<byte>)
      requires Valid() && Pos() == 0 && Data() == bs
      ensures Has(bs)
    {
    }

    lemma HasIs(bs: seq<byte>)
      requires Has(bs)
      ensures Valid() && Pos() == 0 && Data() == Rest() == bs && |bs| < TWO_31
    {
    }

    lemma Made(data: seq<byte>, p: nat)
      requires p <= |data| < TWO_31 && raw[..] == Make(data, p)
      ensures Valid() && Data() == data && Pos() == p
    {
      HeaderReads(data, p);
    }

    /** Contents and cursor determine the raw bytes. */
    twostate lemma Unmoved()
      requires old(Valid()) && Valid() && Data() == old(Data()) && Pos() == old(Pos())
      ensures raw[..] == old(raw[..])
    {
    }

    constructor (size: nat)
      requires size < TWO_31
      ensures Valid() && fresh(raw) && Pos() == 0 && |Data()| == size
    {
      raw := new byte[size + if size >= SMALL_LIMIT then 8 else 4];
      new;
      if size >= SMALL_LIMIT {
        StoreNat(raw, 0, size + TWO_31, 4);
        StoreNat(raw, 4, 0, 4);
        assert raw[..] == Make(raw[8..], 0);
        Made(raw[8..], 0);
      } else {
        StoreNat(raw, 0, size, 2);
        StoreNat(raw, 2, 0, 2);
        assert raw[..] == Make(raw[4..], 0);
        Made(raw[4..], 0);
      }
    }

    /** Blocks of 2^31 bytes and more are refused. */
    static method Alloc(size: int) returns (b: Option<Buffer>)
      ensures b.Some? <==> 0 <= size < TWO_31
      ensures b.Some? ==> fresh(b.value) && fresh(b.value.raw) && b.value.Valid()
                          && b.value.Pos() == 0 && |b.value.Data()| == size
    {
      // a negative number becomes a huge unsigned one
      if size < 0 || size >= TWO_31 {
        return None;
      }
      var buf := new Buffer(size);
      return Some(buf);
    }

    lemma Layout()
      requires Valid()
      ensures IsBig(raw[..]) <==> |Data()| >= SMALL_LIMIT
      ensures SizeOf(raw[..]) == |Data()|
    {
      HeaderReads(Data(), Pos());
    }

    method IsBigBlock() returns (big: bool)
      requires Valid()
      ensures big <==> IsBig(raw[..])
    {
      var word := LoadLE(raw, 0, 4);
      assert raw[0..4] == raw[..][..4];
      return word >= TWO_31;
    }

    method Size() returns (size: nat)
      requires Valid()
      ensures size == |Data()|
    {
      Layout();
      assert raw[0..4] == raw[..][..4] && raw[0..2] == raw[..][..2];
      var big := IsBigBlock();
      if big {
        size := LoadLE(raw, 0, 4);
        size := size - TWO_31;
      } else {
        size := LoadLE(raw, 0, 2);
      }
    }

    method GetPos() returns (p: nat)
      requires Valid()
      ensures p == Pos()
    {
      assert raw[2..4] == raw[..][2..4] && (raw.Length >= 8 ==> raw[4..8] == raw[..][4..8]);
      var big := IsBigBlock();
      if big {
        p := LoadLE(raw, 4, 4);
      } else {
        p := LoadLE(raw, 2, 2);
      }
    }

    /** Where the cursor points in the raw bytes. */
    method At() returns (at: nat)
      requires Valid()
      ensures at == HeaderSize(raw[..]) + Pos()
    {
      at := GetPos();
      var big := IsBigBlock();
      at := at + if big then 8 else 4;
    }

    method StorePos(p: nat)
      requires Valid() && p <= |Data()|
      modifies raw
      ensures Valid() && Data() == old(Data()) && Pos() == p
    {
      Layout();
      ghost var data := Data();
      var big := IsBigBlock();
      if big {
        StoreNat(raw, 4, p, 4);
      } else {
        StoreNat(raw, 2, p, 2);
      }
      assert raw[..] == Make(data, p);
      Made(data, p);
    }

    /** The cursor never passes the end. */
    method SetPos(p: nat)
      requires Valid()
      modifies raw
      ensures Valid() && Data() == old(Data()) && Pos() == if p > |Data()| then |Data()| else p
    {
      var size := Size();
      StorePos(if p > size then size else p);
    }

    method MoveForward(d: nat)
      requires Valid() && Pos() + d <= |Data()|
      modifies raw
      ensures Valid() && Data() == old(Data()) && Pos() == old(Pos()) + d
    {
      var p := GetPos();
      StorePos(p + d);
    }

    method Available() returns (n: nat)
      requires Valid()
      ensures n == |Rest()|
    {
      var size := Size();
      var p := GetPos();
      return size - p;
    }

    /** The bytes at the cursor. */
    lemma RestAt(at: nat, n: nat)
      requires Valid() && at == HeaderSize(raw[..]) + Pos() && n <= |Rest()|
      ensures at + n <= raw.Length && raw[at..at + n] == Rest()[..n]
    {
      HeaderReads(Data(), Pos());
    }

    /** Room taken by the cursor, byte by byte, becomes `bs`. */
    lemma Filled(r: seq<byte>, at: nat, bs: seq<byte>)
      requires Valid() && at == HeaderSize(raw[..]) + Pos() && |bs| <= |Rest()|
      requires |r| == |raw[..]| && r == raw[..at] + bs + raw[at + |bs|..]
      ensures r == Make(Done() + bs + Rest()[|bs|..], Pos())
    {
      HeaderReads(Data(), Pos());
      var new' := Done() + bs + Rest()[|bs|..];
      assert |new'| == |Data()|;
      var h := HeaderSize(raw[..]);
      assert raw[..h] == Make(Data(), Pos())[..h] == Make(new', Pos())[..h];
      assert r[h..] == new';
    }

    // ----- reading

    method GetInt() returns (v: Option<int32>)
      requires Valid()
      modifies raw
      ensures Valid() && Data() == old(Data())
      ensures match Bytes.GetInt(old(Rest()))
              case None => v == None && Pos() == old(Pos())
              case Some((x, rest)) => v == Some(x) && Rest() == rest
    {
      hide Make, IsBig, SizeOf, PosOf, HeaderSize, FromLE, ToLE, Valid, Data, Pos;
      var n := Available();
      if n < 4 {
        return None;
      }
      var at := At();
      RestAt(at, 4);
      var u := LoadLE(raw, at, 4);
      FromLEBound(raw[at..at + 4]);
      Widths();
      MoveForward(4);
      return Some(Signed(u));
    }

    method GetULong() returns (v: Option<nat>)
      requires Valid()
      modifies raw
      ensures Valid() && Data() == old(Data())
      ensures match Bytes.GetULong(old(Rest()))
              case None => v == None && Pos() == old(Pos())
              case Some((x, rest)) => v == Some(x) && Rest() == rest
    {
      hide Make, IsBig, SizeOf, PosOf, HeaderSize, FromLE, ToLE, Valid, Data, Pos;
      var n := Available();
      if n < 8 {
        return None;
      }
      var at := At();
      RestAt(at, 8);
      var u := LoadLE(raw, at, 8);
      MoveForward(8);
      return Some(u);
    }

    method GetByte() returns (v: Option<byte>)
      requires Valid()
      modifies raw
      ensures Valid() && Data() == old(Data())
      ensures match Bytes.GetByte(old(Rest()))
              case None => v == None && Pos() == old(Pos())
              case Some((x, rest)) => v == Some(x) && Rest() == rest
    {
      hide Make, IsBig, SizeOf, PosOf, HeaderSize, FromLE, ToLE, Valid, Data, Pos;
      var n := Available();
      if n < 1 {
        return None;
      }
      var at := At();
      RestAt(at, 1);
      var b := raw[at];
      MoveForward(1);
      return Some(b);
    }

    /** A string up to its NUL; an empty or unterminated one is not read and leaves the cursor. */
    method GetStr() returns (v: Option<seq<byte>>)
      requires Valid()
      modifies raw
      ensures Valid() && Data() == old(Data())
      ensures match Bytes.GetStr(old(Rest()))
              case None => v == None && Pos() == old(Pos())
              case Some((x, rest)) => v == Some(x) && Rest() == rest
    {
      hide Make, IsBig, SizeOf, PosOf, HeaderSize, FromLE, ToLE, Valid, Data, Pos, NulAt;
      var n := Available();
      var at := At();
      RestAt(at, n);
      ghost var rest := Rest();
      assert raw[at..at + n] == rest;
      var i := 0;
      while i < n && raw[at + i] != 0
        invariant i <= n && forall k | 0 <= k < i :: rest[k] != 0
      {
        assert raw[at..at + n][i] == rest[i];
        i := i + 1;
      }
      assert i < n ==> raw[at..at + n][i] == rest[i];
      NulIs(rest, i);
      if i >= n || i == 0 {
        return None;
      }
      v := Some(raw[at..at + i]);
      assert raw[at..at + i] == rest[..i];
      MoveForward(i + 1);
    }

    /** Fills the room left in `dst` from here. The copy is not bounded by what this buffer holds. */
    method Get(dst: Buffer)
      requires Valid() && dst.Valid() && raw != dst.raw && |dst.Rest()| <= |Rest()|
      modifies raw, dst.raw
      ensures Valid() && Data() == old(Data()) && Pos() == old(Pos()) + |old(dst.Rest())|
      ensures dst.Valid() && dst.Pos() == old(dst.Pos()) && dst.Done() == old(dst.Done())
      ensures dst.Rest() == old(Rest()[..|dst.Rest()|])
    {
      hide Make, IsBig, SizeOf, PosOf, HeaderSize, FromLE, ToLE, Valid, Data, Pos;
      var n := dst.Available();
      var at := At();
      RestAt(at, n);
      var to := dst.At();
      dst.RestAt(to, n);
      ghost var bs := Rest()[..n];
      ghost var filled := dst.raw[..to] + bs + dst.raw[to + n..];
      dst.Filled(filled, to, bs);
      ghost var data := dst.Done() + bs + dst.Rest()[n..];
      ghost var p := dst.Pos();
      CopyBytes(raw, at, dst.raw, to, n);
      dst.Made(data, p);
      MoveForward(n);
    }

    /**
     The next `size` bytes in a block of their own. Whether there are as many is
     not looked at by the copy itself.
     */
    method GetBlock(size: int32) returns (b: Option<Buffer>)
      requires Valid()
      modifies raw
      ensures Valid() && Data() == old(Data())
      ensures match GetBytes(old(Rest()), size)
              case None => b == None
              case Some((x, rest)) =>
                b.Some? && fresh(b.value) && fresh(b.value.raw) && b.value.Has(x) && Rest() == rest
    {
      hide Make, IsBig, SizeOf, PosOf, HeaderSize, FromLE, ToLE, Valid, Data, Pos;
      b := Alloc(size);
      if b.Some? {
        var left := Available();
        if left < size {
          return None;
        }
        b.value.Empty();
        Get(b.value);
        b.value.Ends();
      }
    }

    // ----- writing

    method PutByte(b: byte) returns (ok: bool)
      requires Valid()
      modifies raw
      ensures Valid() && (ok <==> 1 <= |old(Rest())|)
      ensures ok ==> Done() == old(Done()) + [b] && Rest() == old(Rest()[1..])
      ensures !ok ==> Data() == old(Data()) && Pos() == old(Pos())
    {
      hide Make, IsBig, SizeOf, PosOf, HeaderSize, FromLE, ToLE, Valid, Data, Pos;
      var n := Available();
      if n < 1 {
        return false;
      }
      var at := At();
      RestAt(at, 1);
      ghost var data, p := Done() + [b] + Rest()[1..], Pos();
      Filled(raw[..at] + [b] + raw[at + 1..], at, [b]);
      raw[at] := b;
      Advance(data, p, 1);
      return true;
    }

    method PutInt(v: int32) returns (ok: bool)
      requires Valid()
      modifies raw
      ensures Valid() && (ok <==> 4 <= |old(Rest())|)
      ensures ok ==> Done() == old(Done()) + Bytes.PutInt(v) && Rest() == old(Rest()[4..])
      ensures !ok ==> Data() == old(Data()) && Pos() == old(Pos())
    {
      hide Make, IsBig, SizeOf, PosOf, HeaderSize, FromLE, ToLE, Valid, Data, Pos;
      var n := Available();
      if n < 4 {
        return false;
      }
      var at := At();
      RestAt(at, 4);
      ghost var bs := Bytes.PutInt(v);
      ghost var data, p := Done() + bs + Rest()[4..], Pos();
      Filled(raw[..at] + bs + raw[at + 4..], at, bs);
      forall i: nat | i < 4 ensures bs[i] == Shr8(v, i) % 256 {
        PutIntByte(v, i);
      }
      StoreLE(raw, at, v, 4, bs);
      Advance(data, p, 4);
      return true;
    }

    method PutULong(v: nat) returns (ok: bool)
      requires Valid()
      modifies raw
      ensures Valid() && (ok <==> 8 <= |old(Rest())|)
      ensures ok ==> Done() == old(Done()) + Bytes.PutULong(v) && Rest() == old(Rest()[8..])
      ensures !ok ==> Data() == old(Data()) && Pos() == old(Pos())
    {
      hide Make, IsBig, SizeOf, PosOf, HeaderSize, FromLE, ToLE, Valid, Data, Pos;
      var n := Available();
      if n < 8 {
        return false;
      }
      var at := At();
      RestAt(at, 8);
      ghost var bs := Bytes.PutULong(v);
      ghost var data, p := Done() + bs + Rest()[8..], Pos();
      Filled(raw[..at] + bs + raw[at + 8..], at, bs);
      StoreNat(raw, at, v, 8);
      Advance(data, p, 8);
      return true;
    }

    /** A string and the NUL behind it. */
    method PutStr(str: seq<byte>) returns (ok: bool)
      requires Valid()
      modifies raw
      ensures Valid() && (ok <==> |str| + 1 <= |old(Rest())|)
      ensures ok ==> Done() == old(Done()) + (str + [0]) && Rest() == old(Rest()[|str| + 1..])
      ensures !ok ==> Data() == old(Data()) && Pos() == old(Pos())
    {
      hide Make, IsBig, SizeOf, PosOf, HeaderSize, FromLE, ToLE, Valid, Data, Pos;
      var n := Available();
      if n < |str| + 1 {
        return false;
      }
      var at := At();
      RestAt(at, |str| + 1);
      ghost var bs := str + [0];
      ghost var data, p := Done() + bs + Rest()[|bs|..], Pos();
      Filled(raw[..at] + bs + raw[at + |bs|..], at, bs);
      StoreStr(raw, at, str);
      Advance(data, p, |str| + 1);
      return true;
    }

    /** What is left of `src`, whose own cursor stays. */
    method PutBuffer(src: Buffer) returns (ok: bool)
      requires Valid() && src.Valid() && raw != src.raw
      modifies raw
      ensures Valid() && (ok <==> |src.Rest()| <= |old(Rest())|)
      ensures ok ==> Done() == old(Done()) + src.Rest() && Rest() == old(Rest()[|src.Rest()|..])
      ensures !ok ==> Data() == old(Data()) && Pos() == old(Pos())
    {
      hide Make, IsBig, SizeOf, PosOf, HeaderSize, FromLE, ToLE, Valid, Data, Pos;
      var n := Available();
      var m := src.Available();
      if n < m {
        return false;
      }
      var from := src.At();
      src.RestAt(from, m);
      var at := At();
      RestAt(at, m);
      ghost var bs := src.Rest();
      assert src.raw[from..from + m] == bs;
      ghost var data, p := Done() + bs + Rest()[m..], Pos();
      Filled(raw[..at] + bs + raw[at + m..], at, bs);
      CopyBytes(src.raw, from, raw, at, m);
      Advance(data, p, m);
      return true;
    }

    /** The contents are in place; only the cursor is behind. */
    method Advance(ghost data: seq<byte>, ghost p: nat, d: nat)
      requires p + d <= |data| < TWO_31 && raw[..] == Make(data, p)
      modifies raw
      ensures Valid() && Data() == data && Pos() == p + d
    {
      hide Make, IsBig, SizeOf, PosOf, HeaderSize, FromLE, ToLE, Valid, Data, Pos;
      Made(data, p);
      MoveForward(d);
    }

    /** What is left, as a value. */
    method Unread() returns (bs: seq<byte>)
      requires Valid()
      ensures bs == Rest()
    {
      hide Make, IsBig, SizeOf, PosOf, HeaderSize, FromLE, ToLE, Valid, Data, Pos;
      var at := At();
      var n := Available();
      RestAt(at, n);
      bs := raw[at..at + n];
    }

    /** A full buffer, rewound. */
    method Rewind(ghost bs: seq<byte>)
      requires Valid() && Done() == bs && Rest() == []
      modifies raw
      ensures Has(bs)
    {
      hide Make, IsBig, SizeOf, PosOf, HeaderSize, FromLE, ToLE, Valid, Data, Pos;
      SetPos(0);
    }

    // ----- copying

    /** A new buffer holding what is left of `src`, read from its front. */
    static method Copy(src: Buffer) returns (b: Buffer)
      requires src.Valid()
      ensures fresh(b) && fresh(b.raw) && b.Valid() && b.Pos() == 0 && b.Data() == src.Rest()
    {
      hide Buffer.Valid, Buffer.Data, Buffer.Pos;
      var n := src.Available();
      b := new Buffer(n);
      var ok := b.PutBuffer(src);
      b.SetPos(0);
    }
  }
}

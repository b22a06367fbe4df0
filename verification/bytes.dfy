/** Bytes and their little-endian reading, as play/net/util/serializer.hpp writes and reads them. */
module Bytes {
  import opened Bits

  type Byte = b: int | 0 <= b < 256

  function Pow256(i: nat): (p: nat)
    ensures p > 0
  {
    if i == 0 then 1 else 256 * Pow256(i - 1)
  }

  /** The low `w` bytes of `v`, least significant first. */
  function LittleEndian(v: nat, w: nat): (bs: seq<Byte>)
    ensures |bs| == w
  {
    if w == 0 then [] else [v % 256] + LittleEndian(v / 256, w - 1)
  }

  /** The number a byte sequence denotes, least significant byte first. */
  function Value(bs: seq<Byte>): nat {
    if bs == [] then 0 else bs[0] + 256 * Value(bs[1..])
  }

  lemma {:induction false} ValueBound(bs: seq<Byte>)
    ensures Value(bs) < Pow256(|bs|)
  {
    if bs != [] {
      ValueBound(bs[1..]);
    }
  }

  /** Appending one more significant byte adds it at its own weight. */
  lemma {:induction false} ValueSnoc(bs: seq<Byte>, b: Byte)
    ensures Value(bs + [b]) == Value(bs) + b * Pow256(|bs|)
  {
    if bs == [] {
      assert bs + [b] == [b];
    } else {
      assert (bs + [b])[1..] == bs[1..] + [b];
      ValueSnoc(bs[1..], b);
      var p := Pow256(|bs| - 1);
      assert 256 * (b * p) == b * (256 * p);
    }
  }

  /** Writing then reading gives the value back, reduced to the width written. */
  lemma {:induction false} ValueOfLittleEndian(v: nat, w: nat)
    ensures Value(LittleEndian(v, w)) == v % Pow256(w)
  {
    if w > 0 {
      ValueOfLittleEndian(v / 256, w - 1);
      assert LittleEndian(v, w)[1..] == LittleEndian(v / 256, w - 1);
      ModSplit(v, Pow256(w - 1));
    }
  }

  lemma ModSplit(v: nat, p: nat)
    requires p > 0
    ensures v % 256 + 256 * ((v / 256) % p) == v % (256 * p)
  {
    var q, r := (v / 256) / p, (v / 256) % p;
    var low := v % 256;
    assert v == 256 * (v / 256) + low;
    assert v / 256 == p * q + r;
    assert 256 * (p * q) == (256 * p) * q;
    assert v == (256 * p) * q + (256 * r + low);
    assert 0 <= 256 * r + low < 256 * p;
    QuotientUnique(v, 256 * p, q, 256 * r + low);
  }

  lemma QuotientUnique(v: nat, d: nat, q: int, r: nat)
    requires d > 0 && r < d && v == d * q + r
    ensures v % d == r
  {
    var k := v / d - q;
    ScaledAtLeast(d, k);
    assert v % d == v - d * (v / d);
    assert r - v % d == d * k;
  }

  lemma ScaledAtLeast(d: int, k: int)
    requires d > 0
    ensures k > 0 ==> d * k >= d
    ensures k < 0 ==> d * k <= -d
  {
    if k > 0 {
      MulNonNegative(d, k - 1);
    } else if k < 0 {
      MulNonNegative(d, -k - 1);
    }
  }

  lemma MulNonNegative(x: int, y: int)
    requires x >= 0 && y >= 0
    ensures x * y >= 0
  {
  }

  /** Reading then writing gives the bytes back. */
  lemma {:induction false} LittleEndianOfValue(bs: seq<Byte>)
    ensures LittleEndian(Value(bs), |bs|) == bs
  {
    if bs != [] {
      LittleEndianOfValue(bs[1..]);
      var v := Value(bs);
      assert v % 256 == bs[0] && v / 256 == Value(bs[1..]);
    }
  }

  lemma {:induction false} BytesAreBits(i: nat)
    ensures Pow256(i) == Pow2(8 * i)
  {
    if i > 0 {
      BytesAreBits(i - 1);
      var k := 8 * (i - 1);
      assert Pow2(k + 2) == 2 * Pow2(k + 1) == 4 * Pow2(k);
      assert Pow2(k + 4) == 2 * Pow2(k + 3) == 4 * Pow2(k + 2);
      assert Pow2(k + 6) == 2 * Pow2(k + 5) == 4 * Pow2(k + 4);
      assert Pow2(k + 8) == 2 * Pow2(k + 7) == 4 * Pow2(k + 6);
    }
  }

  /** A byte shifted above the bytes read so far, or-ed into them, is the next most significant one. */
  lemma OrReadsByte(bs: seq<Byte>, b: Byte)
    ensures Or(Value(bs), b * Pow256(|bs|)) == Value(bs + [b])
  {
    hide *;
    BytesAreBits(|bs|);
    ValueBound(bs);
    ValueSnoc(bs, b);
    OrAbove(Value(bs), b, b * Pow256(|bs|), 8 * |bs|);
  }

  /** Serializer for an integer type of `w` bytes: mask off the low byte, shift right, repeat. */
  method Serialize(buf: array<Byte>, w: nat, v: nat)
    requires w <= buf.Length
    modifies buf
    ensures buf[..w] == LittleEndian(v, w)
    ensures buf[w..] == old(buf[w..])
  {
    var sv := v;
    for i := 0 to w
      invariant buf[..i] + LittleEndian(sv, w - i) == LittleEndian(v, w)
      invariant buf[w..] == old(buf[w..])
    {
      buf[i] := sv % 256;
      assert buf[..i + 1] == buf[..i] + [sv % 256];
      sv := sv / 256;
    }
    assert buf[..w] + [] == buf[..w];
  }

  /** Each byte is shifted to its place and or-ed in. */
  method Deserialize(buf: seq<Byte>, w: nat) returns (v: nat)
    requires w <= |buf|
    ensures v == Value(buf[..w])
  {
    v := 0;
    for i := 0 to w
      invariant v == Value(buf[..i])
    {
      OrReadsByte(buf[..i], buf[i]);
      assert buf[..i + 1] == buf[..i] + [buf[i]];
      v := Or(v, buf[i] * Pow256(i));
    }
  }
}

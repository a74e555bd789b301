/** Bytes as bits, most significant first. */
module Bits {
  type Byte = bv8

  predicate BitOf(b: Byte, i: nat)
    requires i < 8
  {
    match i
    case 0 => b & 0x80 != 0
    case 1 => b & 0x40 != 0
    case 2 => b & 0x20 != 0
    case 3 => b & 0x10 != 0
    case 4 => b & 0x08 != 0
    case 5 => b & 0x04 != 0
    case 6 => b & 0x02 != 0
    case _ => b & 0x01 != 0
  }

  predicate BitAt(bs: seq<Byte>, i: nat)
    requires i < 8 * |bs|
  {
    BitOf(bs[i / 8], i % 8)
  }

  /** `0x80 >> i` */
  function Mask(i: nat): Byte
    requires i < 8
  {
    match i
    case 0 => 0x80 case 1 => 0x40 case 2 => 0x20 case 3 => 0x10
    case 4 => 0x08 case 5 => 0x04 case 6 => 0x02 case _ => 0x01
  }

  /** `bit << (7 - i)` */
  function BitMask(bit: bool, i: nat): Byte
    requires i < 8
  {
    if bit then Mask(i) else 0
  }

  /** Eight bits as a byte. */
  function Pack(x: seq<bool>): Byte
    requires |x| == 8
  {
    BitMask(x[0], 0) | BitMask(x[1], 1) | BitMask(x[2], 2) | BitMask(x[3], 3)
      | BitMask(x[4], 4) | BitMask(x[5], 5) | BitMask(x[6], 6) | BitMask(x[7], 7)
  }

  lemma OrBit(b: Byte, i: nat, bit: bool, j: nat)
    requires i < 8 && j < 8
    ensures BitOf(b | BitMask(bit, i), j) == ((i == j && bit) || BitOf(b, j))
  {
  }

  lemma NotBit(b: Byte, i: nat)
    requires i < 8
    ensures BitOf(!b, i) == !BitOf(b, i)
  {
  }

  lemma ZeroBit(i: nat)
    requires i < 8
    ensures !BitOf(0, i)
  {
  }

  /** `(b << 1) | bit` */
  function ShiftIn(b: Byte, bit: bool): Byte {
    (b << 1) | BitMask(bit, 7)
  }

  lemma ShiftInBit(b: Byte, bit: bool, i: nat)
    requires i < 8
    ensures BitOf(ShiftIn(b, bit), i) == if i == 7 then bit else BitOf(b, i + 1)
  {
  }

  lemma PackedBit(x: seq<bool>, i: nat)
    requires |x| == 8 && i < 8
    ensures BitOf(Pack(x), i) == x[i]
  {
  }

  /** Bits as bytes; a rest of fewer than eight is dropped. */
  function PackAll(x: seq<bool>): (bs: seq<Byte>)
    ensures |bs| == |x| / 8
  {
    seq(|x| / 8, k requires 0 <= k < |x| / 8 => Pack(x[8 * k..8 * k + 8]))
  }

  lemma PackedAt(x: seq<bool>, i: nat)
    requires i < 8 * (|x| / 8)
    ensures BitAt(PackAll(x), i) == x[i]
  {
    var k, t := i / 8, i % 8;
    var chunk := x[8 * k..8 * k + 8];
    PackedBit(chunk, t);
    assert chunk[t] == x[i];
    assert PackAll(x)[k] == Pack(chunk);
  }

  /** Setting one bit of a byte string. */
  function SetBit(bs: seq<Byte>, i: nat, bit: bool): (r: seq<Byte>)
    requires i < 8 * |bs|
    ensures |r| == |bs|
  {
    bs[i / 8 := bs[i / 8] | BitMask(bit, i % 8)]
  }

  lemma SetBitAt(bs: seq<Byte>, i: nat, bit: bool, m: nat)
    requires i < 8 * |bs| && m < 8 * |bs|
    ensures BitAt(SetBit(bs, i, bit), m) == ((i == m && bit) || BitAt(bs, m))
  {
    OrBit(bs[i / 8], i % 8, bit, m % 8);
    assert i / 8 == m / 8 && i % 8 == m % 8 ==> i == m;
  }

  lemma ZeroAt(n: nat, i: nat)
    requires i < 8 * n
    ensures !BitAt(seq(n, _ => 0), i)
  {
    ZeroBit(i % 8);
  }

  function NotAll(bs: seq<Byte>): (r: seq<Byte>)
    ensures |r| == |bs|
  {
    seq(|bs|, k requires 0 <= k < |bs| => !bs[k])
  }

  lemma NotAt(bs: seq<Byte>, i: nat)
    requires i < 8 * |bs|
    ensures BitAt(NotAll(bs), i) == !BitAt(bs, i)
  {
    NotBit(bs[i / 8], i % 8);
  }

  /** Bytes with the same bits are the same. */
  lemma SameByte(b: Byte, c: Byte)
    requires forall i :: 0 <= i < 8 ==> BitOf(b, i) == BitOf(c, i)
    ensures b == c
  {
    assert BitOf(b, 0) == BitOf(c, 0) && BitOf(b, 1) == BitOf(c, 1);
    assert BitOf(b, 2) == BitOf(c, 2) && BitOf(b, 3) == BitOf(c, 3);
    assert BitOf(b, 4) == BitOf(c, 4) && BitOf(b, 5) == BitOf(c, 5);
    assert BitOf(b, 6) == BitOf(c, 6) && BitOf(b, 7) == BitOf(c, 7);
  }

  lemma SameBytes(b: seq<Byte>, c: seq<Byte>)
    requires |b| == |c|
    requires forall i :: 0 <= i < 8 * |b| ==> BitAt(b, i) == BitAt(c, i)
    ensures b == c
  {
    forall k | 0 <= k < |b|
      ensures b[k] == c[k]
    {
      forall i | 0 <= i < 8
        ensures BitOf(b[k], i) == BitOf(c[k], i)
      {
        assert BitAt(b, 8 * k + i) == BitAt(c, 8 * k + i);
        assert (8 * k + i) / 8 == k && (8 * k + i) % 8 == i;
      }
      SameByte(b[k], c[k]);
    }
  }
}

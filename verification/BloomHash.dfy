/** The double hash behind the bloom filter (`src/bloom.rs`): MurmurHash3 x64-128 of the
    data, and of the data with one byte 0x01 appended, in one pass over the data.

    Words and rounds are a parameter: the refinement holds for every scrambling, as long
    as xor is associative and commutative with a zero. `Murmur64` is the one the source
    uses. */
module BloomHash {
  import opened Bits

  /** A word type and the rounds: `put(b, i)` is the byte `b` shifted into place `i`. */
  datatype Rounds<!W(!new)> = Rounds(
    zero: W, xor: (W, W) -> W, put: (Byte, nat) -> W,
    block: (W, W, W, W) -> (W, W), tail1: W -> W, tail2: W -> W, finish: (W, W, nat) -> (W, W))
  {
    ghost predicate Lawful() {
      && (forall a, b, c :: xor(xor(a, b), c) == xor(a, xor(b, c)))
      && (forall a, b :: xor(a, b) == xor(b, a))
      && (forall a :: xor(a, zero) == a)
    }
  }

  // ---------------------------------------------------------------- the reference

  /** Little-endian load: each byte in its place. */
  function Le<W(!new)>(m: Rounds<W>, bs: seq<Byte>): W {
    if bs == [] then m.zero else m.xor(Le(m, bs[..|bs| - 1]), m.put(bs[|bs| - 1], |bs| - 1))
  }

  function Blocks<W(!new)>(m: Rounds<W>, h: (W, W), data: seq<Byte>): (W, W)
    decreases |data|
  {
    if |data| < 16 then h
    else Blocks(m, m.block(h.0, h.1, Le(m, data[..8]), Le(m, data[8..16])), data[16..])
  }

  function TailOf(data: seq<Byte>): (t: seq<Byte>)
    ensures |t| < 16
  {
    if |data| < 16 then data else TailOf(data[16..])
  }

  function First8(t: seq<Byte>): seq<Byte> {
    if |t| > 8 then t[..8] else t
  }

  /** The last bytes: bytes nine to fifteen go into the second half, bytes one to
      eight into the first. */
  function TailMix<W(!new)>(m: Rounds<W>, h: (W, W), t: seq<Byte>): (W, W) {
    (if |t| > 0 then m.xor(h.0, m.tail1(Le(m, First8(t)))) else h.0,
     if |t| > 8 then m.xor(h.1, m.tail2(Le(m, t[8..]))) else h.1)
  }

  function Finish<W(!new)>(m: Rounds<W>, h: (W, W), length: nat): (W, W) {
    m.finish(h.0, h.1, length)
  }

  function Murmur<W(!new)>(m: Rounds<W>, data: seq<Byte>): (W, W) {
    Finish(m, TailMix(m, Blocks(m, (m.zero, m.zero), data), TailOf(data)), |data|)
  }

  // ---------------------------------------------------------------- words from bytes

  lemma LeSnoc<W(!new)>(m: Rounds<W>, bs: seq<Byte>, b: Byte)
    ensures Le(m, bs + [b]) == m.xor(Le(m, bs), m.put(b, |bs|))
  {
    assert (bs + [b])[..|bs|] == bs;
  }

  /** The source's tail loop: xor each byte, shifted into place, into `k`. */
  method XorInto<W(!new)>(m: Rounds<W>, k: W, bs: seq<Byte>) returns (r: W)
    requires m.Lawful()
    ensures r == m.xor(k, Le(m, bs))
  {
    r := k;
    for i := 0 to |bs|
      invariant r == m.xor(k, Le(m, bs[..i]))
    {
      assert bs[..i + 1] == bs[..i] + [bs[i]];
      LeSnoc(m, bs[..i], bs[i]);
      r := m.xor(r, m.put(bs[i], i));
    }
    assert bs[..|bs|] == bs;
  }

  // ---------------------------------------------------------------- the source's tail pass

  /** `sum128`: the tail, with or without the pad byte, and the finalisation. The pad
      byte is xored in before the bytes below it. */
  method Sum128<W(!new)>(m: Rounds<W>, h: (W, W), padTail: bool, length: nat, tail: seq<Byte>) returns (r: (W, W))
    requires m.Lawful() && |tail| < 16 && (padTail ==> |tail| < 15)
    ensures r == Finish(m, TailMix(m, h, if padTail then tail + [1] else tail), length)
  {
    var a, b := h.0, h.1;
    var k1, k2 := m.zero, m.zero;
    if padTail {
      if |tail| > 8 {
        k2 := m.xor(k2, m.put(1, |tail| - 8));
      } else if |tail| == 8 {
        k2 := m.xor(k2, m.put(1, 0));
        b := m.xor(b, m.tail2(k2));
      } else if |tail| > 0 {
        k1 := m.xor(k1, m.put(1, |tail|));
      } else {
        k1 := m.xor(k1, m.put(1, 0));
        a := m.xor(a, m.tail1(k1));
      }
    }
    if |tail| >= 9 {
      k2 := XorInto(m, k2, tail[8..]);
      b := m.xor(b, m.tail2(k2));
    }
    var lo := if |tail| < 8 then |tail| else 8;
    k1 := XorInto(m, k1, tail[..lo]);
    if lo > 0 {
      a := m.xor(a, m.tail1(k1));
    }
    TailWords(m, tail, padTail);
    r := m.finish(a, b, length);
  }

  /** The two words of a tail, and how the pad byte enters them. */
  lemma TailWords<W(!new)>(m: Rounds<W>, tail: seq<Byte>, padTail: bool)
    requires m.Lawful() && |tail| < 16 && (padTail ==> |tail| < 15)
    ensures forall x :: m.xor(m.xor(m.zero, x), Le(m, [])) == x
    ensures forall x :: m.xor(m.zero, x) == x
    ensures tail[..if |tail| < 8 then |tail| else 8] == First8(tail)
    ensures padTail ==> |tail| < 8 ==>
              Le(m, First8(tail + [1])) == m.xor(m.xor(m.zero, m.put(1, |tail|)), Le(m, First8(tail)))
    ensures padTail ==> |tail| >= 8 ==>
              First8(tail + [1]) == First8(tail)
              && Le(m, (tail + [1])[8..]) == m.xor(m.xor(m.zero, m.put(1, |tail| - 8)), Le(m, tail[8..]))
  {
    assert forall x :: m.xor(m.zero, x) == m.xor(x, m.zero);
    if padTail {
      if |tail| < 8 {
        LeSnoc(m, tail, 1);
      } else {
        assert (tail + [1])[8..] == tail[8..] + [1];
        LeSnoc(m, tail[8..], 1);
        assert (tail + [1])[..8] == tail[..8];
      }
    }
  }

  // ---------------------------------------------------------------- both hashes

  /** The data with the pad byte has the same blocks, and one more when the tail is full. */
  lemma {:induction false} PadBlocks<W(!new)>(m: Rounds<W>, h: (W, W), data: seq<Byte>)
    ensures var t, s := TailOf(data), Blocks(m, h, data);
            if |t| < 15 then TailOf(data + [1]) == t + [1] && Blocks(m, h, data + [1]) == s
            else TailOf(data + [1]) == []
                 && Blocks(m, h, data + [1]) == m.block(s.0, s.1, Le(m, t[..8]), Le(m, t[8..] + [1]))
    decreases |data|
  {
    if |data| < 15 {
    } else if |data| == 15 {
      var d := data + [1];
      assert d[..8] == data[..8] && d[8..16] == data[8..] + [1] && d[16..] == [];
    } else {
      PadBlocks(m, m.block(h.0, h.1, Le(m, data[..8]), Le(m, data[8..16])), data[16..]);
      var d := data + [1];
      assert d[16..] == data[16..] + [1] && d[..8] == data[..8] && d[8..16] == data[8..16];
    }
  }

  lemma {:induction false} BlocksSplit<W(!new)>(m: Rounds<W>, h: (W, W), data: seq<Byte>)
    requires |data| >= 16
    ensures Blocks(m, h, data) == Blocks(m, m.block(h.0, h.1, Le(m, data[..8]), Le(m, data[8..16])), data[16..])
    ensures TailOf(data) == TailOf(data[16..])
  {
  }

  /** `base_hashes`: the first pair is the hash of the data, the second the hash of the
      data with one byte 0x01 appended. */
  method BaseHashes<W(!new)>(m: Rounds<W>, data: seq<Byte>) returns (one: (W, W), two: (W, W))
    requires m.Lawful()
    ensures one == Murmur(m, data)
    ensures two == Murmur(m, data + [1])
  {
    var h := (m.zero, m.zero);
    var rest := data;
    while |rest| >= 16
      invariant Blocks(m, h, rest) == Blocks(m, (m.zero, m.zero), data) && TailOf(rest) == TailOf(data)
    {
      BlocksSplit(m, h, rest);
      h := m.block(h.0, h.1, Le(m, rest[..8]), Le(m, rest[8..16]));
      rest := rest[16..];
    }
    var tail := rest;
    PadBlocks(m, (m.zero, m.zero), data);
    one := Sum128(m, h, false, |data|, tail);
    if |tail| + 1 == 16 {
      var full := m.block(h.0, h.1, Le(m, tail[..8]), Le(m, tail[8..] + [1]));
      two := Sum128(m, full, false, |data| + 1, []);
    } else {
      two := Sum128(m, h, true, |data| + 1, tail);
    }
  }

  // ---------------------------------------------------------------- the source's arithmetic

  const C1: bv64 := 0x87c37b91114253d5
  const C2: bv64 := 0x4cf5ad432745937f

  function ScrambleOne(k: bv64): bv64 {
    (k * C1).RotateLeft(31) * C2
  }

  function ScrambleTwo(k: bv64): bv64 {
    (k * C2).RotateLeft(33) * C1
  }

  function BlockRound(h1: bv64, h2: bv64, k1: bv64, k2: bv64): (bv64, bv64) {
    var a := ((h1 ^ ScrambleOne(k1)).RotateLeft(27) + h2) * 5 + 0x52dce729;
    var b := ((h2 ^ ScrambleTwo(k2)).RotateLeft(31) + a) * 5 + 0x38495ab5;
    (a, b)
  }

  function FinalMix(k: bv64): bv64 {
    var a := (k ^ (k >> 33)) * 0xff51afd7ed558ccd;
    var b := (a ^ (a >> 33)) * 0xc4ceb9fe1a85ec53;
    b ^ (b >> 33)
  }

  function FinishRound(h1: bv64, h2: bv64, length: nat): (bv64, bv64) {
    var n := (length % 0x1_0000_0000_0000_0000) as bv64;
    var a := (h1 ^ n) + (h2 ^ n);
    var b := (h2 ^ n) + a;
    var c := FinalMix(a) + FinalMix(b);
    (c, FinalMix(b) + c)
  }

  /** `(b as u64) << (8 * i)` */
  function PutByte(b: Byte, i: nat): bv64 {
    match i
    case 0 => b as bv64
    case 1 => (b as bv64) << 8
    case 2 => (b as bv64) << 16
    case 3 => (b as bv64) << 24
    case 4 => (b as bv64) << 32
    case 5 => (b as bv64) << 40
    case 6 => (b as bv64) << 48
    case 7 => (b as bv64) << 56
    case _ => 0
  }

  function Murmur64(): Rounds<bv64> {
    Rounds<bv64>.Rounds(0, Xor(), (b: Byte, i: nat) => PutByte(b, i),
                        (a: bv64, b: bv64, c: bv64, d: bv64) => BlockRound(a, b, c, d),
                        (k: bv64) => ScrambleOne(k), (k: bv64) => ScrambleTwo(k),
                        (a: bv64, b: bv64, n: nat) => FinishRound(a, b, n))
  }

  lemma XorAssociates(a: bv64, b: bv64, c: bv64)
    ensures (a ^ b) ^ c == a ^ (b ^ c)
  {
  }

  lemma XorCommutes(a: bv64, b: bv64)
    ensures a ^ b == b ^ a
  {
  }

  lemma XorZero(a: bv64)
    ensures a ^ 0 == a
  {
  }

  function Xor(): (bv64, bv64) -> bv64 {
    (a: bv64, b: bv64) => a ^ b
  }

  predicate Pair(a: bv64, b: bv64) {
    true
  }

  /** `f` is xor; the trigger keeps nested applications folded. */
  ghost predicate IsXor(f: (bv64, bv64) -> bv64) {
    forall a, b {:trigger Pair(a, b)} :: Pair(a, b) ==> f(a, b) == a ^ b
  }

  lemma XorNests(f: (bv64, bv64) -> bv64, a: bv64, b: bv64, c: bv64)
    requires IsXor(f)
    ensures f(f(a, b), c) == f(a, f(b, c))
  {
    assert Pair(a, b) && Pair(b, c) && Pair(a ^ b, c) && Pair(a, b ^ c);
    XorAssociates(a, b, c);
  }

  lemma XorSwaps(f: (bv64, bv64) -> bv64, a: bv64, b: bv64)
    requires IsXor(f)
    ensures f(a, b) == f(b, a)
  {
    assert Pair(a, b) && Pair(b, a);
    XorCommutes(a, b);
  }

  lemma XorKeeps(f: (bv64, bv64) -> bv64, a: bv64)
    requires IsXor(f)
    ensures f(a, 0) == a
  {
    assert Pair(a, 0);
    XorZero(a);
  }

  lemma AllNest(f: (bv64, bv64) -> bv64)
    requires IsXor(f)
    ensures forall a, b, c :: f(f(a, b), c) == f(a, f(b, c))
  {
    forall a, b, c ensures f(f(a, b), c) == f(a, f(b, c)) { XorNests(f, a, b, c); }
  }

  lemma AllSwap(f: (bv64, bv64) -> bv64)
    requires IsXor(f)
    ensures forall a, b :: f(a, b) == f(b, a)
  {
    forall a, b ensures f(a, b) == f(b, a) { XorSwaps(f, a, b); }
  }

  lemma AllKeep(f: (bv64, bv64) -> bv64)
    requires IsXor(f)
    ensures forall a :: f(a, 0) == a
  {
    forall a ensures f(a, 0) == a { XorKeeps(f, a); }
  }

  lemma XorIsXor()
    ensures IsXor(Xor())
  {
  }

  lemma Murmur64Lawful()
    ensures Murmur64().Lawful()
  {
    XorIsXor();
    AllNest(Xor());
    AllSwap(Xor());
    AllKeep(Xor());
  }

  /** Probe `i` of a key: one word of each pair, the second `i` times. */
  function Location(one: (bv64, bv64), two: (bv64, bv64), i: nat): bv64
    requires i < 8
  {
    var first := if i % 2 == 0 then one.0 else one.1;
    var second := if (i + i % 2) % 4 / 2 == 0 then two.0 else two.1;
    first + (i as bv64) * second
  }

  /** The eight probes of a key, as the filter's bit numbers. */
  function ProbesOf(data: seq<Byte>): (p: seq<nat>)
    ensures |p| == 8 && forall i :: 0 <= i < 8 ==> p[i] < 8192
  {
    var one, two := Murmur(Murmur64(), data), Murmur(Murmur64(), data + [1]);
    seq(8, i requires 0 <= i < 8 => (Location(one, two, i) as int) % 8192)
  }
}

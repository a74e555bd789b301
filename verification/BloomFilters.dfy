/** The bloom filter (`src/bloom.rs`): membership, and the wire form of its words. */
module BloomFilters {
  import opened Basics
  import opened Bits
  import FlaggedWords

  /** A 64-bit word as its bits, least significant first. */
  type Word = s: seq<bool> | |s| == 64 witness seq(64, _ => false)

  type Filter = s: seq<Word> | |s| == 128 witness seq(128, _ => seq(64, _ => false))

  /** Where a key's probes fall. */
  type Probes = s: seq<nat> | forall i :: 0 <= i < |s| ==> s[i] < 8192 witness []

  // ---------------------------------------------------------------- membership

  function Blank(): Word {
    seq(64, _ => false)
  }

  function Full(): Word {
    seq(64, _ => true)
  }

  function Empty(): Filter {
    seq(128, _ => Blank())
  }

  /** Bit `l & 63` of word `l >> 6`. */
  predicate Bit(f: Filter, l: nat)
    requires l < 8192
  {
    f[l / 64][l % 64]
  }

  function SetOne(f: Filter, l: nat): Filter
    requires l < 8192
  {
    f[l / 64 := f[l / 64][l % 64 := true]]
  }

  function SetAll(f: Filter, at: Probes): Filter
    decreases |at|
  {
    if at == [] then f else SetAll(SetOne(f, at[0]), at[1..])
  }

  predicate Test(f: Filter, at: Probes) {
    forall i :: 0 <= i < |at| ==> Bit(f, at[i])
  }

  function OrWord(a: Word, b: Word): Word {
    seq(64, i requires 0 <= i < 64 => a[i] || b[i])
  }

  function Merge(f: Filter, g: Filter): Filter {
    seq(128, k requires 0 <= k < 128 => OrWord(f[k], g[k]))
  }

  /** `g` has every bit `f` has. */
  predicate Covers(g: Filter, f: Filter) {
    forall l :: 0 <= l < 8192 && Bit(f, l) ==> Bit(g, l)
  }

  lemma SetOneMeans(f: Filter, l: nat, m: nat)
    requires l < 8192 && m < 8192
    ensures Bit(SetOne(f, l), m) <==> l == m || Bit(f, m)
  {
    assert l / 64 == m / 64 && l % 64 == m % 64 ==> l == m;
  }

  lemma {:induction false} SetAllMeans(f: Filter, at: Probes, l: nat)
    requires l < 8192
    ensures Bit(SetAll(f, at), l) <==> Bit(f, l) || l in at
    decreases |at|
  {
    if at != [] {
      SetOneMeans(f, at[0], l);
      SetAllMeans(SetOne(f, at[0]), at[1..], l);
      assert at == [at[0]] + at[1..];
    }
  }

  /** No false negatives through `add`: what was added tests positive, and no bit is lost. */
  lemma AddKeeps(f: Filter, at: Probes)
    ensures Test(SetAll(f, at), at) && Covers(SetAll(f, at), f)
  {
    var g := SetAll(f, at);
    forall i | 0 <= i < |at| ensures Bit(g, at[i]) { SetAllMeans(f, at, at[i]); }
    forall l | 0 <= l < 8192 && Bit(f, l) ensures Bit(g, l) { SetAllMeans(f, at, l); }
  }

  lemma MergeCovers(f: Filter, g: Filter)
    ensures Covers(Merge(f, g), f) && Covers(Merge(f, g), g)
  {
  }

  /** A filter that covers another tests positive wherever that one does. */
  lemma CoversTest(g: Filter, f: Filter, at: Probes)
    requires Covers(g, f) && Test(f, at)
    ensures Test(g, at)
  {
  }

  method Add(f: Filter, at: Probes) returns (r: Filter)
    ensures r == SetAll(f, at)
  {
    r := f;
    for i := 0 to |at|
      invariant SetAll(r, at[i..]) == SetAll(f, at)
    {
      assert at[i..][0] == at[i] && at[i..][1..] == at[i + 1..];
      r := SetOne(r, at[i]);
    }
  }

  // ---------------------------------------------------------------- words on the wire

  function Flip(x: seq<bool>): (r: seq<bool>)
    ensures |r| == |x|
  {
    seq(|x|, i requires 0 <= i < |x| => x[|x| - 1 - i])
  }

  lemma FlipFlip(x: seq<bool>)
    ensures Flip(Flip(x)) == x
  {
  }

  /** `to_be_bytes` */
  function WordBytes(w: Word): (bs: seq<Byte>)
    ensures |bs| == 8
  {
    PackAll(Flip(w))
  }

  /** `from_be_bytes`, on the eight bytes it is given. */
  function BytesWord(bs: seq<Byte>): Word {
    if |bs| == 8 then Flip(FlaggedWords.BitsOf(bs)) else Blank()
  }

  lemma WordRoundTrip(w: Word)
    ensures BytesWord(WordBytes(w)) == w
  {
    var x := Flip(w);
    forall i | 0 <= i < 64
      ensures FlaggedWords.BitsOf(PackAll(x))[i] == x[i]
    {
      PackedAt(x, i);
    }
    assert FlaggedWords.BitsOf(PackAll(x)) == x;
    FlipFlip(w);
  }

  lemma BytesRoundTrip(bs: seq<Byte>)
    requires |bs| == 8
    ensures WordBytes(BytesWord(bs)) == bs
  {
    var x := FlaggedWords.BitsOf(bs);
    FlipFlip(x);
    forall i | 0 <= i < 64
      ensures BitAt(PackAll(x), i) == BitAt(bs, i)
    {
      PackedAt(x, i);
    }
    SameBytes(PackAll(x), bs);
  }

  /** Big-endian: bit `i` of the word is bit `63 - i` of its bytes, counted from the first. */
  lemma WordBytesAt(w: Word, i: nat)
    requires i < 64
    ensures BitAt(WordBytes(w), 63 - i) == w[i]
  {
    PackedAt(Flip(w), 63 - i);
  }

  function WordCoder(): FlaggedWords.Coder<Word> {
    FlaggedWords.Coder<Word>.Coder(Blank(), Full(), (w: Word) => WordBytes(w), (bs: seq<Byte>) => BytesWord(bs))
  }

  lemma WordCoderLawful()
    ensures WordCoder().Lawful()
  {
    var c := WordCoder();
    assert !c.zero[0] && c.ones[0];
    forall w: Word ensures |c.put(w)| == 8 && c.get(c.put(w)) == w { WordRoundTrip(w); }
    forall bs: seq<Byte> | |bs| == 8 ensures c.put(c.get(bs)) == bs { BytesRoundTrip(bs); }
  }

  function Encode(f: Filter): seq<Byte> {
    FlaggedWords.Encode(WordCoder(), f)
  }

  function Decode(buf: seq<Byte>): Option<Filter> {
    FlaggedWords.Decode(WordCoder(), buf)
  }

  /** The filter codec: `decode_exact` undoes `encode` for every filter, and what is
      written fits the bound. */
  lemma FilterRoundTrip(f: Filter)
    ensures Decode(Encode(f)) == Some(f) && |Encode(f)| <= FlaggedWords.MAX_ENCODED_LEN
  {
    WordCoderLawful();
    FlaggedWords.DecodeEncode(WordCoder(), f);
    FlaggedWords.EncodedLen(WordCoder(), f);
  }

  /** An accepted buffer encodes back to itself exactly when none of its data words is
      all zeros or all ones. */
  lemma BufferRoundTrip(buf: seq<Byte>)
    requires Decode(buf).Some?
    ensures Encode(Decode(buf).value) == buf <==> FlaggedWords.Clean(WordCoder(), buf[32..])
  {
    WordCoderLawful();
    FlaggedWords.ReencodesIffClean(WordCoder(), buf);
  }
}

/** The bloom filter's wire layout (`src/bloom.rs`), over any kind of word: sixteen flag
    bytes for the all-zero words, sixteen for the all-ones words, then the other words
    in order, eight bytes each. */
module FlaggedWords {
  import opened Basics
  import opened Bits

  const WORDS := 128

  /** How one word is written and read. */
  datatype Coder<!W(!new)> = Coder(zero: W, ones: W, put: W -> seq<Byte>, get: seq<Byte> -> W) {
    /** Writing and reading undo each other on eight bytes. */
    ghost predicate Lawful() {
      && zero != ones
      && (forall w :: |put(w)| == 8 && get(put(w)) == w)
      && (forall bs :: |bs| == 8 ==> put(get(bs)) == bs)
    }
  }

  predicate Mixed<W(==, !new)>(c: Coder<W>, w: W) {
    w != c.zero && w != c.ones
  }

  function Matches<W(==)>(ws: seq<W>, x: W): (flags: seq<bool>)
    ensures |flags| == |ws|
  {
    seq(|ws|, k requires 0 <= k < |ws| => ws[k] == x)
  }

  /** The mixed words, in order. */
  function Data<W(==, !new)>(c: Coder<W>, ws: seq<W>): seq<Byte> {
    if ws == [] then []
    else (if Mixed(c, ws[0]) then c.put(ws[0]) else []) + Data(c, ws[1..])
  }

  function Encode<W(==, !new)>(c: Coder<W>, ws: seq<W>): seq<Byte> {
    PackAll(Matches(ws, c.zero)) + PackAll(Matches(ws, c.ones)) + Data(c, ws)
  }

  function Prefixed<W>(w: W, tail: Option<seq<W>>): Option<seq<W>> {
    if tail.None? then None else Some([w] + tail.value)
  }

  /** Words read under two flag blocks; `None` where the source refuses. */
  function DecodeFrom<W(==, !new)>(c: Coder<W>, flags0: seq<bool>, flags1: seq<bool>,
                                   rest: seq<Byte>): (r: Option<seq<W>>)
    requires |flags0| == |flags1|
    ensures r.Some? ==> |r.value| == |flags0|
  {
    if flags0 == [] then (if rest == [] then Some([]) else None)
    else if flags0[0] && flags1[0] then None
    else if flags0[0] then Prefixed(c.zero, DecodeFrom(c, flags0[1..], flags1[1..], rest))
    else if flags1[0] then Prefixed(c.ones, DecodeFrom(c, flags0[1..], flags1[1..], rest))
    else if |rest| < 8 then None
    else Prefixed(c.get(rest[..8]), DecodeFrom(c, flags0[1..], flags1[1..], rest[8..]))
  }

  function BitsOf(bs: seq<Byte>): (x: seq<bool>)
    ensures |x| == 8 * |bs|
  {
    seq(8 * |bs|, i requires 0 <= i < 8 * |bs| => BitAt(bs, i))
  }

  function Decode<W(==, !new)>(c: Coder<W>, buf: seq<Byte>): (r: Option<seq<W>>)
    ensures r.Some? ==> |r.value| == WORDS
  {
    if |buf| < 32 then None
    else DecodeFrom(c, BitsOf(buf[..16]), BitsOf(buf[16..32]), buf[32..])
  }

  // ---------------------------------------------------------------- laws

  lemma FlagsRoundTrip(x: seq<bool>)
    requires |x| == WORDS
    ensures |PackAll(x)| == 16 && BitsOf(PackAll(x)) == x
  {
    forall i | 0 <= i < WORDS ensures BitsOf(PackAll(x))[i] == x[i] { PackedAt(x, i); }
  }

  lemma FlagBytesRoundTrip(bs: seq<Byte>)
    requires |bs| == 16
    ensures PackAll(BitsOf(bs)) == bs
  {
    forall i | 0 <= i < WORDS ensures BitAt(PackAll(BitsOf(bs)), i) == BitAt(bs, i) { PackedAt(BitsOf(bs), i); }
    SameBytes(PackAll(BitsOf(bs)), bs);
  }

  lemma MatchesTail<W>(ws: seq<W>, x: W)
    requires ws != []
    ensures Matches(ws, x)[1..] == Matches(ws[1..], x)
  {
  }

  lemma MatchesCons<W>(ws: seq<W>, x: W, flags: seq<bool>)
    requires ws != [] && flags != []
    ensures Matches(ws, x) == flags <==> (ws[0] == x) == flags[0] && Matches(ws[1..], x) == flags[1..]
  {
    MatchesTail(ws, x);
    assert flags == [flags[0]] + flags[1..];
    assert Matches(ws, x) == [ws[0] == x] + Matches(ws[1..], x);
  }

  lemma {:induction false} DecodesData<W(!new)>(c: Coder<W>, ws: seq<W>)
    requires c.Lawful()
    ensures DecodeFrom(c, Matches(ws, c.zero), Matches(ws, c.ones), Data(c, ws)) == Some(ws)
  {
    if ws != [] {
      DecodesData(c, ws[1..]);
      MatchesTail(ws, c.zero);
      MatchesTail(ws, c.ones);
      var w, rest := ws[0], Data(c, ws[1..]);
      assert (c.put(w) + rest)[..8] == c.put(w) && (c.put(w) + rest)[8..] == rest;
      assert [] + rest == rest;
      assert ws == [w] + ws[1..];
    }
  }

  /** Decoding undoes encoding. */
  lemma DecodeEncode<W(!new)>(c: Coder<W>, ws: seq<W>)
    requires c.Lawful() && |ws| == WORDS
    ensures Decode(c, Encode(c, ws)) == Some(ws)
  {
    var zeros, ones, buf := Matches(ws, c.zero), Matches(ws, c.ones), Encode(c, ws);
    FlagsRoundTrip(zeros);
    FlagsRoundTrip(ones);
    assert buf[..16] == PackAll(zeros) && buf[16..32] == PackAll(ones) && buf[32..] == Data(c, ws);
    DecodesData(c, ws);
  }

  function MixedCount<W(==, !new)>(c: Coder<W>, ws: seq<W>): (n: nat)
    ensures n <= |ws|
  {
    if ws == [] then 0 else (if Mixed(c, ws[0]) then 1 else 0) + MixedCount(c, ws[1..])
  }

  lemma {:induction false} DataLen<W(!new)>(c: Coder<W>, ws: seq<W>)
    requires c.Lawful()
    ensures |Data(c, ws)| == 8 * MixedCount(c, ws)
  {
    if ws != [] { DataLen(c, ws[1..]); }
  }

  const MAX_ENCODED_LEN := 2 * 16 + 8 * 128

  /** The length found by counting is exact, and never above the bound. */
  lemma EncodedLen<W(!new)>(c: Coder<W>, ws: seq<W>)
    requires c.Lawful() && |ws| == WORDS
    ensures |Encode(c, ws)| == 32 + 8 * MixedCount(c, ws) <= MAX_ENCODED_LEN
  {
    DataLen(c, ws);
  }

  /** Every whole data word is neither all zeros nor all ones. */
  predicate Clean<W(==, !new)>(c: Coder<W>, rest: seq<Byte>) {
    |rest| < 8 || (Mixed(c, c.get(rest[..8])) && Clean(c, rest[8..]))
  }

  /** Encoding never writes more data than decoding read; exactly when the data is
      clean does it write the same data and the same flags. */
  lemma {:induction false} Reencodes<W(!new)>(c: Coder<W>, flags0: seq<bool>, flags1: seq<bool>, rest: seq<Byte>,
                                              ws: seq<W>)
    requires c.Lawful() && |flags0| == |flags1| && DecodeFrom(c, flags0, flags1, rest) == Some(ws)
    ensures |Data(c, ws)| <= |rest| && (|Data(c, ws)| == |rest| <==> Clean(c, rest))
    ensures Clean(c, rest) ==>
              Data(c, ws) == rest && Matches(ws, c.zero) == flags0 && Matches(ws, c.ones) == flags1
    decreases |flags0|
  {
    if flags0 != [] {
      var used := if flags0[0] || flags1[0] then 0 else 8;
      assert rest[0..] == rest;
      Reencodes(c, flags0[1..], flags1[1..], rest[used..], ws[1..]);
      ReencodesWord(c, flags0, flags1, rest, ws);
      MatchesCons(ws, c.zero, flags0);
      MatchesCons(ws, c.ones, flags1);
    }
  }

  lemma ReencodesWord<W(!new)>(c: Coder<W>, flags0: seq<bool>, flags1: seq<bool>, rest: seq<Byte>, ws: seq<W>)
    requires c.Lawful() && |flags0| == |flags1| && flags0 != [] && DecodeFrom(c, flags0, flags1, rest) == Some(ws)
    ensures !flags0[0] && !flags1[0] ==> |rest| >= 8 && c.put(ws[0]) == rest[..8] && rest == rest[..8] + rest[8..]
    ensures flags0[0] ==> ws[0] == c.zero && !flags1[0]
    ensures flags1[0] ==> ws[0] == c.ones && !flags0[0]
  {
  }

  /** The layout: a bit for each word that is all zeros, a bit for each that is all ones, and
      then the bytes of the others in order. */
  lemma EncodeLayout<W(!new)>(c: Coder<W>, ws: seq<W>, i: nat)
    requires c.Lawful() && |ws| == WORDS && i < WORDS
    ensures |Encode(c, ws)| >= 32 && (BitAt(Encode(c, ws), i) <==> ws[i] == c.zero)
    ensures BitAt(Encode(c, ws), 128 + i) <==> ws[i] == c.ones
    ensures Encode(c, ws)[32..] == Data(c, ws)
  {
    var zeros, ones, buf := PackAll(Matches(ws, c.zero)), PackAll(Matches(ws, c.ones)), Encode(c, ws);
    assert |zeros| == 16 && |ones| == 16;
    PackedAt(Matches(ws, c.zero), i);
    PackedAt(Matches(ws, c.ones), i);
    BitOfJoin(zeros, ones + Data(c, ws), i);
    BitOfJoin(zeros, ones + Data(c, ws), 128 + i);
    BitOfJoin(ones, Data(c, ws), i);
    assert buf == zeros + (ones + Data(c, ws));
  }

  lemma BitOfJoin(a: seq<Byte>, b: seq<Byte>, i: nat)
    requires i < 8 * (|a| + |b|)
    ensures BitAt(a + b, i) == if i < 8 * |a| then BitAt(a, i) else BitAt(b, i - 8 * |a|)
  {
    if i >= 8 * |a| { assert (i - 8 * |a|) / 8 == i / 8 - |a| && (i - 8 * |a|) % 8 == i % 8; }
  }

  /** Each word neither all zeros nor all ones takes eight bytes, in order. */
  lemma DataLayout<W(!new)>(c: Coder<W>, w: W, ws: seq<W>)
    requires c.Lawful()
    ensures Data(c, [w] + ws) == if w == c.zero || w == c.ones then Data(c, ws) else c.put(w) + Data(c, ws)
  {
    assert ([w] + ws)[1..] == ws;
    assert [] + Data(c, ws) == Data(c, ws);
  }

  lemma BlocksOf(buf: seq<Byte>)
    requires |buf| >= 32
    ensures buf == buf[..16] + buf[16..32] + buf[32..]
  {
  }

  /** An accepted buffer encodes back to itself exactly when none of its data words is
      all zeros or all ones. */
  lemma ReencodesIffClean<W(!new)>(c: Coder<W>, buf: seq<Byte>)
    requires c.Lawful() && Decode(c, buf).Some?
    ensures Encode(c, Decode(c, buf).value) == buf <==> Clean(c, buf[32..])
  {
    var ws := Decode(c, buf).value;
    Reencodes(c, BitsOf(buf[..16]), BitsOf(buf[16..32]), buf[32..], ws);
    FlagBytesRoundTrip(buf[..16]);
    FlagBytesRoundTrip(buf[16..32]);
    BlocksOf(buf);
    assert |PackAll(Matches(ws, c.zero))| == 16 && |PackAll(Matches(ws, c.ones))| == 16;
    assert |Encode(c, ws)| == 32 + |Data(c, ws)|;
  }

  // ---------------------------------------------------------------- the loops

  /** Flag bits set so far. */
  ghost predicate Flagged(bs: seq<Byte>, x: seq<bool>, n: nat) {
    |bs| == 16 && |x| == WORDS && n <= WORDS && forall i :: 0 <= i < WORDS ==> (BitAt(bs, i) <==> i < n && x[i])
  }

  lemma FlagNext(bs: seq<Byte>, x: seq<bool>, n: nat)
    requires Flagged(bs, x, n) && n < WORDS
    ensures Flagged(if x[n] then SetBit(bs, n, true) else bs, x, n + 1)
  {
    if x[n] {
      var set_ := SetBit(bs, n, true);
      forall i | 0 <= i < WORDS ensures BitAt(set_, i) <==> i < n + 1 && x[i] { SetBitAt(bs, n, true, i); }
    }
  }

  lemma FlaggedAll(bs: seq<Byte>, x: seq<bool>)
    requires Flagged(bs, x, WORDS)
    ensures bs == PackAll(x)
  {
    forall i | 0 <= i < WORDS ensures BitAt(bs, i) == BitAt(PackAll(x), i) { PackedAt(x, i); }
    SameBytes(bs, PackAll(x));
  }

  lemma NothingFlagged(bs: seq<Byte>, x: seq<bool>)
    requires |x| == WORDS && bs == seq(16, _ => 0)
    ensures Flagged(bs, x, 0)
  {
    forall i | 0 <= i < WORDS ensures !BitAt(bs, i) { ZeroAt(16, i); }
  }

  method FlagBlock<W(==)>(ws: seq<W>, x: W) returns (flags: seq<Byte>)
    requires |ws| == WORDS
    ensures flags == PackAll(Matches(ws, x))
  {
    flags := seq(16, _ => 0);
    NothingFlagged(flags, Matches(ws, x));
    for idx := 0 to WORDS
      invariant Flagged(flags, Matches(ws, x), idx)
    {
      FlagNext(flags, Matches(ws, x), idx);
      if ws[idx] == x {
        flags := SetBit(flags, idx, true);
      }
    }
    FlaggedAll(flags, Matches(ws, x));
  }

  method CountMixed<W(==, !new)>(c: Coder<W>, ws: seq<W>) returns (n: nat)
    ensures n == MixedCount(c, ws)
  {
    n := 0;
    for idx := 0 to |ws|
      invariant n + MixedCount(c, ws[idx..]) == MixedCount(c, ws)
    {
      assert ws[idx..][0] == ws[idx] && ws[idx..][1..] == ws[idx + 1..];
      if Mixed(c, ws[idx]) { n := n + 1; }
    }
  }

  /** Copies `bs` into `out` at `at`. */
  method Put(out: array<Byte>, at: nat, bs: seq<Byte>)
    requires at + |bs| <= out.Length
    modifies out
    ensures out[..at + |bs|] == old(out[..at]) + bs && out[at + |bs|..] == old(out[at + |bs|..])
  {
    for i := 0 to |bs|
      invariant out[..at + i] == old(out[..at]) + bs[..i] && out[at + i..] == old(out[at + i..])
    {
      assert out[at + i + 1..] == old(out[at + i..])[1..];
      out[at + i] := bs[i];
      assert out[..at + i + 1] == out[..at + i] + [bs[i]];
      assert bs[..i + 1] == bs[..i] + [bs[i]];
    }
    assert bs[..|bs|] == bs;
  }

  /** Writes the mixed words after what `out` already holds. */
  method PutData<W(==, !new)>(c: Coder<W>, ws: seq<W>, out: array<Byte>, start: nat) returns (at: nat)
    requires c.Lawful() && start + |Data(c, ws)| <= out.Length
    modifies out
    ensures at == start + |Data(c, ws)| && out[..at] == old(out[..start]) + Data(c, ws) && out[at..] == old(out[at..])
  {
    at := start;
    for idx := 0 to |ws|
      invariant start <= at && at + |Data(c, ws[idx..])| == start + |Data(c, ws)|
      invariant out[..at] + Data(c, ws[idx..]) == old(out[..start]) + Data(c, ws)
      invariant out[at..] == old(out[at..])
    {
      ghost var tail := Data(c, ws[idx + 1..]);
      assert ws[idx..][0] == ws[idx] && ws[idx..][1..] == ws[idx + 1..];
      if Mixed(c, ws[idx]) {
        ghost var written := out[..at];
        var bytes := c.put(ws[idx]);
        assert old(out[at..])[8..] == old(out[at + 8..]);
        Put(out, at, bytes);
        at := at + 8;
        assert written + (bytes + tail) == (written + bytes) + tail;
      } else {
        assert [] + tail == tail;
      }
    }
    assert ws[|ws|..] == [];
    assert out[..at] + [] == out[..at];
  }

  /** `encode_to`: count, check the room, write flags and then data. */
  method EncodeTo<W(==, !new)>(c: Coder<W>, ws: seq<W>, out: array<Byte>) returns (n: Option<nat>)
    requires c.Lawful() && |ws| == WORDS
    modifies out
    ensures n == if |Encode(c, ws)| <= out.Length then Some(|Encode(c, ws)|) else None
    ensures n.Some? ==> out[..n.value] == Encode(c, ws) && out[n.value..] == old(out[n.value..])
    ensures n.None? ==> out[..] == old(out[..])
  {
    var dataWords := CountMixed(c, ws);
    EncodedLen(c, ws);
    DataLen(c, ws);
    if out.Length < 2 * 16 + 8 * dataWords {
      return None;
    }
    var flags0 := FlagBlock(ws, c.zero);
    var flags1 := FlagBlock(ws, c.ones);
    Put(out, 0, flags0);
    Put(out, 16, flags1);
    assert out[..32] == flags0 + flags1 && out[32..] == old(out[32..]);
    ghost var before := out[..];
    var at := PutData(c, ws, out, 32);
    assert before[at..] == before[32..][at - 32..] && old(out[at..]) == old(out[32..])[at - 32..];
    return Some(at);
  }

  /** The words read so far, in front of what the rest decodes to. */
  ghost predicate Reading<W(!new)>(c: Coder<W>, all: Option<seq<W>>, words: seq<W>, f0: seq<bool>, f1: seq<bool>,
                                   rest: seq<Byte>)
    requires |f0| == |f1|
  {
    var tail := DecodeFrom(c, f0, f1, rest);
    all == if tail.None? then None else Some(words + tail.value)
  }

  lemma StartsReading<W(!new)>(c: Coder<W>, f0: seq<bool>, f1: seq<bool>, rest: seq<Byte>)
    requires |f0| == |f1|
    ensures Reading(c, DecodeFrom(c, f0, f1, rest), [], f0, f1, rest)
  {
    var tail := DecodeFrom(c, f0, f1, rest);
    if tail.Some? { assert [] + tail.value == tail.value; }
  }

  lemma ReadsWord<W(!new)>(c: Coder<W>, all: Option<seq<W>>, words: seq<W>, f0: seq<bool>, f1: seq<bool>,
                           rest: seq<Byte>, w: W, rest': seq<Byte>)
    requires |f0| == |f1| && f0 != [] && Reading(c, all, words, f0, f1, rest)
    requires DecodeFrom(c, f0, f1, rest) == Prefixed(w, DecodeFrom(c, f0[1..], f1[1..], rest'))
    ensures Reading(c, all, words + [w], f0[1..], f1[1..], rest')
  {
    var tail := DecodeFrom(c, f0[1..], f1[1..], rest');
    if tail.Some? { assert words + ([w] + tail.value) == (words + [w]) + tail.value; }
  }

  /** `decode_exact`: read word by word under the flags, and leave nothing over. */
  method DecodeExact<W(==, !new)>(c: Coder<W>, buf: seq<Byte>) returns (r: Option<seq<W>>)
    ensures r == Decode(c, buf)
  {
    if |buf| < 32 {
      return None;
    }
    var flags0, flags1, rest := buf[..16], buf[16..32], buf[32..];
    ghost var f0, f1 := BitsOf(flags0), BitsOf(flags1);
    var words: seq<W> := [];
    StartsReading(c, f0, f1, rest);
    assert f0[0..] == f0 && f1[0..] == f1;
    for idx := 0 to WORDS
      invariant Reading(c, Decode(c, buf), words, f0[idx..], f1[idx..], rest)
    {
      var clear := BitOf(flags0[idx / 8], idx % 8);
      var set_ := BitOf(flags1[idx / 8], idx % 8);
      assert f0[idx..][0] == clear && f1[idx..][0] == set_;
      assert f0[idx..][1..] == f0[idx + 1..] && f1[idx..][1..] == f1[idx + 1..];
      if (clear && set_) || (!clear && !set_ && |rest| < 8) {
        return None;
      }
      var w := if clear then c.zero else if set_ then c.ones else c.get(rest[..8]);
      var rest' := if clear || set_ then rest else rest[8..];
      ReadsWord(c, Decode(c, buf), words, f0[idx..], f1[idx..], rest, w, rest');
      words, rest := words + [w], rest';
    }
    assert words + [] == words;
    if rest != [] {
      return None;
    }
    return Some(words);
  }
}

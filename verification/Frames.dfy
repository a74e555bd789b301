/** Varints, port lists and link frames (`src/frame.rs`). */
module Frames {
  import opened Basics

  type Bytes = seq<U8>

  // ---------------------------------------------------------------- varints

  /** Seven bits a byte, low bits first, the top bit set on all but the last. */
  function Uvarint(v: nat): (bs: Bytes)
    ensures |bs| >= 1
  {
    if v < 128 then [v] else [128 + v % 128] + Uvarint(v / 128)
  }

  /** A varint whose first byte is the `i`-th of the whole: its value and its length. */
  function ReadFrom(buf: Bytes, i: nat): (r: Option<(nat, nat)>)
    ensures r.Some? ==> 1 <= r.value.1 <= |buf|
    decreases |buf|
  {
    if buf == [] || i >= 10 then None
    else if buf[0] < 128 then
      if i == 9 && buf[0] > 1 then None else Some((buf[0], 1))
    else
      var rest := ReadFrom(buf[1..], i + 1);
      if rest.None? then None else Some((buf[0] - 128 + 128 * rest.value.0, rest.value.1 + 1))
  }

  /** How large a value may be that starts at byte `i` of a 64-bit varint. */
  function Cap(i: nat): nat {
    match i
    case 0 => 0x1_0000_0000_0000_0000
    case 1 => 0x200_0000_0000_0000
    case 2 => 0x4_0000_0000_0000
    case 3 => 0x800_0000_0000
    case 4 => 0x10_0000_0000
    case 5 => 0x2000_0000
    case 6 => 0x40_0000
    case 7 => 0x8000
    case 8 => 0x100
    case 9 => 2
    case _ => 0
  }

  lemma CapStep(i: nat)
    requires i < 9
    ensures Cap(i) == 128 * Cap(i + 1)
  {
  }

  /** Varints are self-delimiting: whatever follows, exactly the value and its length
      come back, for every value that fits. */
  lemma {:induction false} ReadsBack(v: nat, rest: Bytes, i: nat)
    requires i < 10 && v < Cap(i)
    ensures ReadFrom(Uvarint(v) + rest, i) == Some((v, |Uvarint(v)|))
    decreases v
  {
    var buf := Uvarint(v) + rest;
    assert buf[0] == Uvarint(v)[0];
    if v >= 128 {
      assert i < 9;
      CapStep(i);
      assert buf[1..] == Uvarint(v / 128) + rest;
      ReadsBack(v / 128, rest, i + 1);
    }
  }

  /** What is read fits. */
  lemma {:induction false} ReadFits(buf: Bytes, i: nat)
    requires i < 10 && ReadFrom(buf, i).Some?
    ensures ReadFrom(buf, i).value.0 < Cap(i) && ReadFrom(buf, i).value.1 <= 10 - i
    decreases |buf|
  {
    if buf[0] < 128 {
      if i < 9 { CapAtLeast(i); }
    } else {
      assert i < 9;
      ReadFits(buf[1..], i + 1);
      CapStep(i);
    }
  }

  lemma CapAtLeast(i: nat)
    requires i < 9
    ensures Cap(i) >= 256
  {
  }

  lemma {:induction false} ZeroUvarint(v: nat)
    ensures Uvarint(v)[|Uvarint(v)| - 1] == 0 ==> v == 0
    ensures |Uvarint(v)| == 1 <==> v < 128
    decreases v
  {
    if v >= 128 { ZeroUvarint(v / 128); }
  }

  /** A varint read is the one its value is written as exactly when it has no zero byte
      to spare at its end. */
  lemma {:induction false} CanonicalIff(buf: Bytes, i: nat)
    requires ReadFrom(buf, i).Some?
    ensures var (v, n) := ReadFrom(buf, i).value;
            Uvarint(v) == buf[..n] <==> n == 1 || buf[n - 1] != 0
    decreases |buf|
  {
    var (v, n) := ReadFrom(buf, i).value;
    if buf[0] < 128 {
      assert buf[..1] == [buf[0]];
    } else {
      CanonicalIff(buf[1..], i + 1);
      var (w, m) := ReadFrom(buf[1..], i + 1).value;
      var tail := buf[1..][..m];
      assert buf[..n] == [buf[0]] + tail && tail[m - 1] == buf[n - 1];
      assert v == buf[0] - 128 + 128 * w && v / 128 == w && v % 128 == buf[0] - 128;
      ZeroUvarint(w);
      if w == 0 {
        assert Uvarint(v) == [v];
        if Uvarint(w) == tail { assert tail == [0]; }
        ZeroRead(buf[1..], i + 1);
      } else {
        assert Uvarint(v) == [buf[0]] + Uvarint(w);
        assert Uvarint(v)[1..] == Uvarint(w) && buf[..n][1..] == tail;
      }
    }
  }

  /** Zero is read only from bytes that end in a zero byte. */
  lemma {:induction false} ZeroRead(buf: Bytes, i: nat)
    requires ReadFrom(buf, i).Some? && ReadFrom(buf, i).value.0 == 0
    ensures buf[ReadFrom(buf, i).value.1 - 1] == 0
    decreases |buf|
  {
    if buf[0] >= 128 { ZeroRead(buf[1..], i + 1); }
  }

  /** `append_uvarint`: append, byte by byte. */
  method AppendUvarint(out: Bytes, v: U64) returns (r: Bytes)
    ensures r == out + Uvarint(v)
  {
    r := out;
    var rest: nat := v;
    while rest >= 128
      invariant r + Uvarint(rest) == out + Uvarint(v)
    {
      assert r + Uvarint(rest) == (r + [128 + rest % 128]) + Uvarint(rest / 128);
      r := r + [128 + rest % 128];
      rest := rest / 128;
    }
    r := r + [rest];
  }

  /** `s` with `t` written over it from `at` on. */
  function Splice(s: Bytes, at: nat, t: Bytes): (r: Bytes)
    requires at + |t| <= |s|
    ensures |r| == |s|
  {
    s[..at] + t + s[at + |t|..]
  }

  lemma SpliceOne(s: Bytes, at: nat, t: Bytes, b: U8)
    requires at + |t| < |s|
    ensures Splice(s, at, t)[at + |t| := b] == Splice(s, at, t + [b])
  {
  }

  lemma SpliceTwo(s: Bytes, at: nat, t: Bytes, u: Bytes)
    requires at + |t| + |u| <= |s|
    ensures Splice(Splice(s, at, t), at + |t|, u) == Splice(s, at, t + u)
  {
    var a, b := Splice(Splice(s, at, t), at + |t|, u), Splice(s, at, t + u);
    assert |a| == |b|;
    assert forall i :: 0 <= i < |a| ==> a[i] == b[i];
  }

  /** `write_uvarint`: the same bytes into a buffer with room for them, from `at` on. */
  method WriteUvarint(out: array<U8>, at: nat, v: U64) returns (n: nat)
    requires at + |Uvarint(v)| <= out.Length
    modifies out
    ensures n == |Uvarint(v)|
    ensures out[..] == Splice(old(out[..]), at, Uvarint(v))
  {
    n := 0;
    var rest: nat := v;
    ghost var was, done: Bytes := out[..], [];
    while rest >= 128
      invariant |done| == n && done + Uvarint(rest) == Uvarint(v)
      invariant out[..] == Splice(was, at, done)
    {
      var b := 128 + rest % 128;
      assert done + Uvarint(rest) == (done + [b]) + Uvarint(rest / 128);
      SpliceOne(was, at, done, b);
      done := done + [b];
      out[at + n] := b;
      n := n + 1;
      rest := rest / 128;
    }
    SpliceOne(was, at, done, rest);
    out[at + n] := rest;
    n := n + 1;
  }

  /** `read_uvarint`: the bits of each byte are put above those read so far, which lie
      below `unit`, so that adding them is the source's bitwise or. */
  method ReadUvarint(buf: Bytes) returns (r: Option<(nat, nat)>)
    ensures r == ReadFrom(buf, 0)
  {
    var x: nat, unit: nat, i: nat := 0, 1, 0;
    while i < |buf| && i < 10
      invariant 0 <= i <= 10 && i <= |buf| && 0 <= x < unit
      invariant ReadFrom(buf, 0) == Shifted(ReadFrom(buf[i..], i), x, unit, i)
    {
      var b := buf[i];
      assert buf[i..][0] == b && buf[i..][1..] == buf[i + 1..];
      if b < 128 {
        if i == 9 && b > 1 { return None; }
        return Some((x + unit * b, i + 1));
      }
      ShiftedStep(ReadFrom(buf[i + 1..], i + 1), x, unit, i, b - 128);
      StaysBelow(x, unit, b - 128);
      x, unit, i := x + unit * (b - 128), unit * 128, i + 1;
    }
    return None;
  }

  /** A varint read above `x`. */
  function Shifted(r: Option<(nat, nat)>, x: nat, unit: nat, i: nat): Option<(nat, nat)> {
    if r.None? then None else Some((x + unit * r.value.0, r.value.1 + i))
  }

  lemma ShiftedStep(r: Option<(nat, nat)>, x: nat, unit: nat, i: nat, low: nat)
    ensures Shifted(if r.None? then None else Some((low + 128 * r.value.0, r.value.1 + 1)), x, unit, i)
            == Shifted(r, x + unit * low, unit * 128, i + 1)
  {
    if r.Some? {
      var v := r.value.0;
      assert unit * (low + 128 * v) == unit * low + (unit * 128) * v;
    }
  }

  lemma StaysBelow(x: nat, unit: nat, low: nat)
    requires x < unit && low < 128
    ensures 0 <= x + unit * low < unit * 128
  {
    assert unit * low <= unit * 127;
  }

  // ---------------------------------------------------------------- port lists

  type Ports = seq<U64>

  const MAX_PATH: nat := 128

  function Hops(path: Ports): Bytes {
    if path == [] then [] else Uvarint(path[0]) + Hops(path[1..])
  }

  /** The ports, then a zero. */
  function PathBytes(path: Ports): Bytes {
    Hops(path) + [0]
  }

  method AppendPath(out: Bytes, path: Ports) returns (r: Bytes)
    ensures r == out + PathBytes(path)
  {
    r := out;
    for i := 0 to |path|
      invariant r + Hops(path[i..]) == out + Hops(path)
    {
      assert path[i..][0] == path[i] && path[i..][1..] == path[i + 1..];
      assert r + Hops(path[i..]) == (r + Uvarint(path[i])) + Hops(path[i + 1..]);
      r := AppendUvarint(r, path[i]);
    }
    assert r + [] == r;
    r := AppendUvarint(r, 0);
  }

  /** A zero-terminated list, after `k` ports have been read. */
  function SplitFrom(buf: Bytes, k: nat): (r: Option<(Ports, nat)>)
    ensures r.Some? ==> r.value.1 <= |buf|
    decreases |buf|
  {
    var head := ReadFrom(buf, 0);
    if head.None? then None
    else
      var (v, n) := head.value;
      ReadFits(buf, 0);
      if v == 0 then Some(([], n))
      else if k + 1 > MAX_PATH then None
      else Joined([v], n, SplitFrom(buf[n..], k + 1))
  }

  lemma SplitUnfold(buf: Bytes, k: nat, v: U64, n: nat)
    requires ReadFrom(buf, 0) == Some((v, n)) && v != 0 && k < MAX_PATH
    ensures SplitFrom(buf, k) == Joined([v], n, SplitFrom(buf[n..], k + 1))
  {
  }

  /** Ports that can be written as a list: none is zero, and there are not too many. */
  predicate Sendable(path: Ports) {
    |path| <= MAX_PATH && forall i :: 0 <= i < |path| ==> path[i] != 0
  }

  lemma {:induction false} SplitsBack(path: Ports, rest: Bytes, k: nat)
    requires k + |path| <= MAX_PATH && forall i :: 0 <= i < |path| ==> path[i] != 0
    ensures SplitFrom(PathBytes(path) + rest, k) == Some((path, |PathBytes(path)|))
    decreases |path|
  {
    var buf := PathBytes(path) + rest;
    if path == [] {
      assert buf == Uvarint(0) + rest;
      ReadsBack(0, rest, 0);
    } else {
      var tail := path[1..];
      assert buf == Uvarint(path[0]) + (PathBytes(tail) + rest);
      ReadsBack(path[0], PathBytes(tail) + rest, 0);
      assert buf[|Uvarint(path[0])|..] == PathBytes(tail) + rest;
      SplitsBack(tail, rest, k + 1);
      assert path == [path[0]] + tail;
    }
  }

  /** More ports than a list may hold are refused. */
  lemma {:induction false} SplitRefuses(path: Ports, rest: Bytes, k: nat)
    requires k <= MAX_PATH < k + |path| && forall i :: 0 <= i < |path| ==> path[i] != 0
    ensures SplitFrom(PathBytes(path) + rest, k) == None
    decreases |path|
  {
    var tail := path[1..];
    var buf := PathBytes(path) + rest;
    assert buf == Uvarint(path[0]) + (PathBytes(tail) + rest);
    ReadsBack(path[0], PathBytes(tail) + rest, 0);
    assert buf[|Uvarint(path[0])|..] == PathBytes(tail) + rest;
    if k < MAX_PATH { SplitRefuses(tail, rest, k + 1); }
  }

  /** Whatever is split off is sendable. */
  lemma {:induction false} SplitSound(buf: Bytes, k: nat)
    requires k <= MAX_PATH && SplitFrom(buf, k).Some?
    ensures var p := SplitFrom(buf, k).value.0;
            k + |p| <= MAX_PATH && forall i :: 0 <= i < |p| ==> p[i] != 0
    decreases |buf|
  {
    var (v, n) := ReadFrom(buf, 0).value;
    if v != 0 { SplitSound(buf[n..], k + 1); }
  }

  /** A list comes back, with exactly its bytes taken, if and only if it is sendable. */
  lemma SplitsBackIff(path: Ports, rest: Bytes)
    ensures SplitFrom(PathBytes(path) + rest, 0) == Some((path, |PathBytes(path)|)) <==> Sendable(path)
  {
    if Sendable(path) {
      SplitsBack(path, rest, 0);
    } else if SplitFrom(PathBytes(path) + rest, 0).Some? {
      SplitSound(PathBytes(path) + rest, 0);
    }
  }

  /** `split_path` */
  method SplitPath(buf: Bytes) returns (r: Option<(Ports, nat)>)
    ensures r == SplitFrom(buf, 0)
  {
    var path: Ports, off: nat, tail := [], 0, buf;
    ghost var whole := SplitFrom(buf, 0);
    JoinedStart(whole);
    while true
      invariant |path| <= MAX_PATH
      invariant whole == Joined(path, off, SplitFrom(tail, |path|))
      decreases |tail|
    {
      var head := ReadUvarint(tail);
      if head.None? { return None; }
      var (v, n) := head.value;
      ReadFits(tail, 0);
      if v == 0 {
        assert path + [] == path;
        return Some((path, off + n));
      }
      if |path| + 1 > MAX_PATH { return None; }
      SplitNext(whole, tail, path, off, v, n);
      path, off, tail := path + [v], off + n, tail[n..];
    }
  }

  function Joined(path: Ports, off: nat, r: Option<(Ports, nat)>): Option<(Ports, nat)> {
    if r.None? then None else Some((path + r.value.0, off + r.value.1))
  }

  lemma JoinedStart(r: Option<(Ports, nat)>)
    ensures Joined([], 0, r) == r
  {
    if r.Some? { assert [] + r.value.0 == r.value.0; }
  }

  lemma JoinedStep(path: Ports, off: nat, v: U64, n: nat, r: Option<(Ports, nat)>)
    ensures Joined(path, off, Joined([v], n, r)) == Joined(path + [v], off + n, r)
  {
    if r.Some? { assert path + ([v] + r.value.0) == (path + [v]) + r.value.0; }
  }

  lemma SplitNext(whole: Option<(Ports, nat)>, tail: Bytes, path: Ports, off: nat, v: U64, n: nat)
    requires ReadFrom(tail, 0) == Some((v, n)) && v != 0 && |path| < MAX_PATH
    requires whole == Joined(path, off, SplitFrom(tail, |path|))
    ensures whole == Joined(path + [v], off + n, SplitFrom(tail[n..], |path + [v]|))
  {
    SplitUnfold(tail, |path|, v, n);
    JoinedStep(path, off, v, n, SplitFrom(tail[n..], |path| + 1));
  }

  // ---------------------------------------------------------------- frames

  const MAX_MESSAGE_SIZE: nat := 131070
  const MAX_LEN_PREFIX: nat := 5

  datatype FrameType =
    | Dummy | KeepAlive | SigReq | SigRes | Announce | BloomFilter | PathLookup | PathNotify | PathBroken | TrafficFrame

  function TypeByte(t: FrameType): U8 {
    match t
    case Dummy => 0
    case KeepAlive => 1
    case SigReq => 2
    case SigRes => 3
    case Announce => 4
    case BloomFilter => 5
    case PathLookup => 6
    case PathNotify => 7
    case PathBroken => 8
    case TrafficFrame => 9
  }

  function FromByte(b: U8): Option<FrameType> {
    match b
    case 0 => Some(Dummy)
    case 1 => Some(KeepAlive)
    case 2 => Some(SigReq)
    case 3 => Some(SigRes)
    case 4 => Some(Announce)
    case 5 => Some(BloomFilter)
    case 6 => Some(PathLookup)
    case 7 => Some(PathNotify)
    case 8 => Some(PathBroken)
    case 9 => Some(TrafficFrame)
    case _ => None
  }

  /** Every kind, indexed by its byte. */
  const ALL: seq<FrameType> :=
    [Dummy, KeepAlive, SigReq, SigRes, Announce, BloomFilter, PathLookup, PathNotify, PathBroken, TrafficFrame]

  /** The kinds are dense and in order, and no other byte is one. */
  lemma KindsAreDense(b: U8)
    ensures FromByte(b) == if b < |ALL| then Some(ALL[b]) else None
    ensures b < |ALL| ==> TypeByte(ALL[b]) == b
  {
  }

  lemma KeepAliveFrame()
    ensures FrameBytes(KeepAlive, []) == [1, 1] && Uvarint(300) == [0xAC, 0x02]
  {
  }

  /** Length of type and payload, type, payload. */
  function FrameBytes(t: FrameType, payload: Bytes): Bytes {
    Uvarint(|payload| + 1) + [TypeByte(t)] + payload
  }

  function DecodeBody(body: Bytes): Option<(FrameType, Bytes)> {
    if body == [] || |body| > MAX_MESSAGE_SIZE || FromByte(body[0]).None? then None
    else Some((FromByte(body[0]).value, body[1..]))
  }

  /** Reading a frame off a stream: the length tells where the body ends, and the body
      gives type and payload back exactly when it is within the message size. */
  lemma FrameReadsBack(t: FrameType, payload: Bytes, rest: Bytes)
    requires |payload| + 1 < U64_LIMIT
    ensures var n := |Uvarint(|payload| + 1)|;
            var stream := FrameBytes(t, payload) + rest;
            && ReadFrom(stream, 0) == Some((|payload| + 1, n))
            && |FrameBytes(t, payload)| == n + 1 + |payload|
            && (DecodeBody(stream[n..n + 1 + |payload|]) == Some((t, payload)) <==> |payload| + 1 <= MAX_MESSAGE_SIZE)
  {
    var prefix, body := Uvarint(|payload| + 1), [TypeByte(t)] + payload;
    var stream := FrameBytes(t, payload) + rest;
    assert stream == prefix + (body + rest);
    ReadsBack(|payload| + 1, body + rest, 0);
    assert stream[|prefix|..|prefix| + |body|] == body;
    assert body[1..] == payload;
  }

  /** `wire_len`: the framed length, counted without writing. */
  method WireLen(payloadLen: nat) returns (r: nat)
    requires payloadLen + 1 < U64_LIMIT
    ensures r == |Uvarint(payloadLen + 1)| + 1 + payloadLen
  {
    var body := payloadLen + 1;
    var prefix: nat, rest: nat := 1, body;
    while rest >= 128
      invariant prefix + |Uvarint(rest)| == |Uvarint(body)| + 1
    {
      prefix := prefix + 1;
      rest := rest / 128;
    }
    r := prefix + body;
  }

  lemma {:induction false} UvarintLen(v: nat, n: nat)
    requires v < Power128(n) && n >= 1
    ensures |Uvarint(v)| <= n
    decreases n
  {
    if v >= 128 { UvarintLen(v / 128, n - 1); }
  }

  function Power128(n: nat): nat {
    if n == 0 then 1 else 128 * Power128(n - 1)
  }

  /** `encode_frame_to`: the whole frame or an untouched buffer. The prefix buffer of
      five bytes bounds the payload. */
  method EncodeFrameTo(t: FrameType, payload: Bytes, out: array<U8>) returns (r: Option<nat>)
    requires |payload| + 1 < 0x8_0000_0000
    modifies out
    ensures out.Length < |FrameBytes(t, payload)| ==> r == None && out[..] == old(out[..])
    ensures out.Length >= |FrameBytes(t, payload)| ==>
              r == Some(|FrameBytes(t, payload)|) && out[..] == Splice(old(out[..]), 0, FrameBytes(t, payload))
  {
    var prefix := new U8[MAX_LEN_PREFIX];
    PrefixFits(|payload| + 1);
    var n := WriteUvarint(prefix, 0, |payload| + 1);
    ghost var head := Uvarint(|payload| + 1);
    assert prefix[..n] == head;
    var need := n + 1 + |payload|;
    if out.Length < need { return None; }
    ghost var was := out[..];
    CopyInto(out, 0, prefix[..n]);
    SpliceOne(was, 0, head, TypeByte(t));
    out[n] := TypeByte(t);
    SpliceTwo(was, 0, head + [TypeByte(t)], payload);
    CopyInto(out, n + 1, payload);
    return Some(need);
  }

  lemma PrefixFits(v: nat)
    requires v < 0x8_0000_0000
    ensures |Uvarint(v)| <= MAX_LEN_PREFIX
  {
    assert Power128(1) == 128 && Power128(2) == 16384 && Power128(3) == 2097152 && Power128(4) == 268435456;
    assert Power128(5) == 0x8_0000_0000;
    UvarintLen(v, 5);
  }

  method CopyInto(out: array<U8>, at: nat, bytes: Bytes)
    requires at + |bytes| <= out.Length
    modifies out
    ensures out[..] == Splice(old(out[..]), at, bytes)
  {
    forall i | 0 <= i < |bytes| { out[at + i] := bytes[i]; }
    ghost var want := Splice(old(out[..]), at, bytes);
    assert forall i :: 0 <= i < out.Length ==> out[i] == want[i];
  }
}

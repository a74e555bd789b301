/** Traffic packets on the wire (`src/traffic.rs`). */
module TrafficCodec {
  import opened Basics
  import opened Frames

  type KeyText = s: Bytes | |s| == KEY_LEN witness seq(KEY_LEN, _ => 0)

  datatype Traffic = Traffic(path: Ports, from: Ports, source: KeyText, dest: KeyText, watermark: U64, payload: Bytes)

  // ---------------------------------------------------------------- lengths

  /** `uvarint_len` */
  method UvarintLength(v: U64) returns (n: nat)
    ensures n == |Uvarint(v)|
  {
    n := 1;
    var rest: nat := v / 128;
    while rest != 0
      invariant n + (if rest == 0 then 0 else |Uvarint(rest)|) == |Uvarint(v)|
    {
      n := n + 1;
      rest := rest / 128;
    }
  }

  method PathLength(path: Ports) returns (n: nat)
    ensures n == |PathBytes(path)|
  {
    n := 0;
    for i := 0 to |path|
      invariant n + |Hops(path[i..])| == |Hops(path)|
    {
      assert path[i..][0] == path[i] && path[i..][1..] == path[i + 1..];
      var more := UvarintLength(path[i]);
      n := n + more;
    }
    n := n + 1;
  }

  // ---------------------------------------------------------------- the packet

  /** Both paths, both keys, the watermark, the payload. */
  function Packed(t: Traffic): Bytes {
    PathBytes(t.path) + (PathBytes(t.from) + (t.source + (t.dest + (Uvarint(t.watermark) + t.payload))))
  }

  /** `encoded_len`, before anything is written. */
  method EncodedLen(t: Traffic) returns (n: nat)
    ensures n == |Packed(t)|
  {
    var a := PathLength(t.path);
    var b := PathLength(t.from);
    var c := UvarintLength(t.watermark);
    n := a + b + 2 * KEY_LEN + c + |t.payload|;
  }

  /** The keys, the watermark and the payload. */
  function Rest(path: Ports, from: Ports, rest: Bytes): Option<Traffic> {
    if |rest| < 2 * KEY_LEN then None
    else
      var tail := rest[2 * KEY_LEN..];
      var head := ReadFrom(tail, 0);
      if head.None? then None
      else
        var (mark, n) := head.value;
        ReadFits(tail, 0);
        Some(Traffic(path, from, rest[..KEY_LEN], rest[KEY_LEN..2 * KEY_LEN], mark, tail[n..]))
  }

  function Unpacked(buf: Bytes): Option<Traffic> {
    var path := SplitFrom(buf, 0);
    if path.None? then None
    else
      var after := buf[path.value.1..];
      var from := SplitFrom(after, 0);
      if from.None? then None else Rest(path.value.0, from.value.0, after[from.value.1..])
  }

  method Decode(buf: Bytes) returns (r: Option<Traffic>)
    ensures r == Unpacked(buf)
  {
    var path := SplitPath(buf);
    if path.None? { return None; }
    var after := buf[path.value.1..];
    var from := SplitPath(after);
    if from.None? { return None; }
    var rest := after[from.value.1..];
    if |rest| < 2 * KEY_LEN { return None; }
    var tail := rest[2 * KEY_LEN..];
    var head := ReadUvarint(tail);
    if head.None? { return None; }
    ReadFits(tail, 0);
    var (mark, n) := head.value;
    return Some(Traffic(path.value.0, from.value.0, rest[..KEY_LEN], rest[KEY_LEN..2 * KEY_LEN], mark, tail[n..]));
  }

  // ---------------------------------------------------------------- the round trip

  lemma RestBack(t: Traffic)
    ensures Rest(t.path, t.from, t.source + (t.dest + (Uvarint(t.watermark) + t.payload))) == Some(t)
  {
    var tail := Uvarint(t.watermark) + t.payload;
    var rest := t.source + (t.dest + tail);
    assert rest[..KEY_LEN] == t.source && rest[KEY_LEN..2 * KEY_LEN] == t.dest && rest[2 * KEY_LEN..] == tail;
    ReadsBack(t.watermark, t.payload, 0);
    assert tail[|Uvarint(t.watermark)|..] == t.payload;
  }

  lemma DropFirst(a: Bytes, b: Bytes)
    ensures (a + b)[|a|..] == b
  {
  }

  lemma UnpackedPaths(buf: Bytes)
    requires Unpacked(buf).Some?
    ensures Sendable(Unpacked(buf).value.path) && Sendable(Unpacked(buf).value.from)
  {
    var path := SplitFrom(buf, 0).value;
    SplitSound(buf, 0);
    SplitSound(buf[path.1..], 0);
  }

  lemma UnpackedBack(t: Traffic)
    requires Sendable(t.path) && Sendable(t.from)
    ensures Unpacked(Packed(t)) == Some(t)
  {
    var keys := t.source + (t.dest + (Uvarint(t.watermark) + t.payload));
    var after := PathBytes(t.from) + keys;
    SplitsBackIff(t.path, after);
    DropFirst(PathBytes(t.path), after);
    SplitsBackIff(t.from, keys);
    DropFirst(PathBytes(t.from), keys);
    RestBack(t);
  }

  /** A packet comes back whole if and only if both paths are sendable: no zero port,
      and at most 128 hops. */
  lemma RoundTripsIff(t: Traffic)
    ensures Unpacked(Packed(t)) == Some(t) <==> Sendable(t.path) && Sendable(t.from)
  {
    if Sendable(t.path) && Sendable(t.from) {
      UnpackedBack(t);
    } else if Unpacked(Packed(t)).Some? {
      UnpackedPaths(Packed(t));
    }
  }

  // ---------------------------------------------------------------- into a buffer

  lemma OneHopMore(path: Ports, done: Bytes, i: nat)
    requires i < |path| && done + Hops(path[i..]) == Hops(path)
    ensures (done + Uvarint(path[i])) + Hops(path[i + 1..]) == Hops(path)
    ensures |done| + |Uvarint(path[i])| <= |Hops(path)|
  {
    var rest := path[i..];
    assert rest[0] == path[i] && rest[1..] == path[i + 1..];
    assert done + (Uvarint(path[i]) + Hops(path[i + 1..])) == (done + Uvarint(path[i])) + Hops(path[i + 1..]);
  }

  /** `write_path` */
  method WritePath(out: array<U8>, at: nat, path: Ports)
    requires at + |PathBytes(path)| <= out.Length
    modifies out
    ensures out[..] == Splice(old(out[..]), at, PathBytes(path))
  {
    ghost var was, done: Bytes := out[..], [];
    var n := 0;
    for i := 0 to |path|
      invariant |done| == n && done + Hops(path[i..]) == Hops(path)
      invariant out[..] == Splice(was, at, done)
    {
      ghost var bytes := Uvarint(path[i]);
      OneHopMore(path, done, i);
      SpliceTwo(was, at, done, bytes);
      var k := WriteUvarint(out, at + n, path[i]);
      done := done + bytes;
      n := n + k;
    }
    assert done + [] == done;
    SpliceOne(was, at, done, 0);
    out[at + n] := 0;
  }

  /** `encode_to`: the whole packet or an untouched buffer, and the exact count. */
  method EncodeTo(t: Traffic, out: array<U8>) returns (r: Option<nat>)
    modifies out
    ensures out.Length < |Packed(t)| ==> r == None && out[..] == old(out[..])
    ensures out.Length >= |Packed(t)| ==> r == Some(|Packed(t)|) && out[..] == Splice(old(out[..]), 0, Packed(t))
  {
    var need := EncodedLen(t);
    if out.Length < need { return None; }
    ghost var was := out[..];
    PackedFlat(t);
    var at := WritePaths(t, out);
    SpliceTwo(was, 0, PathBytes(t.path) + PathBytes(t.from), BodyBytes(t));
    var more := WriteBody(t, out, at);
    return Some(at + more);
  }

  function BodyBytes(t: Traffic): Bytes {
    t.source + t.dest + Uvarint(t.watermark) + t.payload
  }

  method WritePaths(t: Traffic, out: array<U8>) returns (at: nat)
    requires |PathBytes(t.path)| + |PathBytes(t.from)| <= out.Length
    modifies out
    ensures at == |PathBytes(t.path)| + |PathBytes(t.from)|
    ensures out[..] == Splice(old(out[..]), 0, PathBytes(t.path) + PathBytes(t.from))
  {
    SpliceTwo(out[..], 0, PathBytes(t.path), PathBytes(t.from));
    WritePath(out, 0, t.path);
    at := PathLength(t.path);
    WritePath(out, at, t.from);
    var n := PathLength(t.from);
    at := at + n;
  }

  method WriteBody(t: Traffic, out: array<U8>, start: nat) returns (n: nat)
    requires start + |BodyBytes(t)| <= out.Length
    modifies out
    ensures n == |BodyBytes(t)| && out[..] == Splice(old(out[..]), start, BodyBytes(t))
  {
    ghost var was, mark := out[..], Uvarint(t.watermark);
    CopyInto(out, start, t.source);
    SpliceTwo(was, start, t.source, t.dest);
    CopyInto(out, start + KEY_LEN, t.dest);
    SpliceTwo(was, start, t.source + t.dest, mark);
    var k := WriteUvarint(out, start + 2 * KEY_LEN, t.watermark);
    SpliceTwo(was, start, t.source + t.dest + mark, t.payload);
    CopyInto(out, start + 2 * KEY_LEN + k, t.payload);
    n := 2 * KEY_LEN + k + |t.payload|;
  }

  lemma PackedFlat(t: Traffic)
    ensures Packed(t) == PathBytes(t.path) + PathBytes(t.from) + BodyBytes(t)
  {
    var a, b := PathBytes(t.path), PathBytes(t.from);
    var c: Bytes, d: Bytes, e, f := t.source, t.dest, Uvarint(t.watermark), t.payload;
    assert c + (d + (e + f)) == c + d + e + f;
    assert a + (b + BodyBytes(t)) == a + b + BodyBytes(t);
  }

  /** The layout: path, path back, source, destination, watermark, payload. */
  lemma PackedLayout(t: Traffic)
    ensures var a, b, p := |PathBytes(t.path)|, |PathBytes(t.from)|, Packed(t);
            && |p| == a + b + 64 + |Uvarint(t.watermark)| + |t.payload|
            && p[..a] == PathBytes(t.path) && p[a..][..b] == PathBytes(t.from)
            && p[a..][b..][..32] == t.source && p[a..][b..][32..][..32] == t.dest
            && p[a..][b..][32..][32..] == Uvarint(t.watermark) + t.payload
  {
    var path, from, tail := PathBytes(t.path), PathBytes(t.from), Uvarint(t.watermark) + t.payload;
    DropFirst(path, from + (t.source + (t.dest + tail)));
    DropFirst(from, t.source + (t.dest + tail));
    DropFirst(t.source, t.dest + tail);
    DropFirst(t.dest, tail);
    TakeFirst(path, from + (t.source + (t.dest + tail)));
    TakeFirst(from, t.source + (t.dest + tail));
    TakeFirst(t.source, t.dest + tail);
    TakeFirst(t.dest, tail);
  }

  lemma TakeFirst(a: Bytes, b: Bytes)
    ensures (a + b)[..|a|] == a
  {
  }
}

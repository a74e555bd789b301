/** Lookups on the wire (`src/pathfind.rs`): both keys and the path back to the starter. */
module LookupCodec {
  import opened Basics
  import opened Frames
  import opened TrafficCodec

  datatype Lookup = Lookup(source: KeyText, dest: KeyText, from: Ports)

  function LookupBytes(l: Lookup): Bytes {
    l.source + (l.dest + PathBytes(l.from))
  }

  /** Bytes after the path are not looked at. */
  function ReadLookup(buf: Bytes): Option<Lookup> {
    if |buf| < 2 * KEY_LEN then None
    else
      var from := SplitFrom(buf[2 * KEY_LEN..], 0);
      if from.None? then None
      else Some(Lookup(buf[..KEY_LEN], buf[KEY_LEN..2 * KEY_LEN], from.value.0))
  }

  method EncodeLookup(out: Bytes, l: Lookup) returns (r: Bytes)
    ensures r == out + LookupBytes(l)
  {
    r := out + l.source;
    r := r + l.dest;
    r := AppendPath(r, l.from);
  }

  method DecodeLookup(buf: Bytes) returns (r: Option<Lookup>)
    ensures r == ReadLookup(buf)
  {
    if |buf| < 2 * KEY_LEN { return None; }
    var from := SplitPath(buf[2 * KEY_LEN..]);
    if from.None? { return None; }
    return Some(Lookup(buf[..KEY_LEN], buf[KEY_LEN..2 * KEY_LEN], from.value.0));
  }

  // ---------------------------------------------------------------- what comes back

  /** The ports up to the first zero: what a reader takes for the whole list. */
  function BeforeZero(path: Ports): (p: Ports)
    ensures |p| <= |path| && p == path[..|p|] && (|p| < |path| ==> path[|p|] == 0)
    ensures forall i :: 0 <= i < |p| ==> p[i] != 0
  {
    if path == [] || path[0] == 0 then [] else [path[0]] + BeforeZero(path[1..])
  }

  /** A list with a zero port starts with the bytes of the list before it. */
  lemma {:induction false} CutAtZero(path: Ports) returns (rest: Bytes)
    ensures PathBytes(path) == PathBytes(BeforeZero(path)) + rest
  {
    if path == [] {
      rest := [];
    } else if path[0] == 0 {
      rest := PathBytes(path[1..]);
      PathBytesCons(path);
    } else {
      rest := CutAtZero(path[1..]);
      var p := BeforeZero(path);
      PathBytesCons(path);
      PathBytesCons(p);
      assert p[1..] == BeforeZero(path[1..]);
    }
  }

  lemma PathBytesCons(path: Ports)
    requires path != []
    ensures PathBytes(path) == Uvarint(path[0]) + PathBytes(path[1..])
  {
    var hops := Hops(path[1..]);
    assert (Uvarint(path[0]) + hops) + [0] == Uvarint(path[0]) + (hops + [0]);
  }

  lemma SplitsBeforeZero(path: Ports)
    ensures var r := SplitFrom(PathBytes(path), 0);
            if |BeforeZero(path)| <= MAX_PATH then r.Some? && r.value.0 == BeforeZero(path) else r.None?
  {
    var rest := CutAtZero(path);
    if |BeforeZero(path)| <= MAX_PATH {
      SplitsBack(BeforeZero(path), rest, 0);
    } else {
      SplitRefuses(BeforeZero(path), rest, 0);
    }
  }

  // ---------------------------------------------------------------- one link

  /** What the far end makes of a lookup. */
  function LookupOverLink(l: Lookup): Option<Lookup> {
    var body := DecodeBody([TypeByte(PathLookup)] + LookupBytes(l));
    if body.None? then None else ReadLookup(body.value.1)
  }

  /** A lookup that gets over a link: within the message size, and no more than 128
      ports before the first zero. */
  predicate Passes(l: Lookup) {
    |LookupBytes(l)| < MAX_MESSAGE_SIZE && |BeforeZero(l.from)| <= MAX_PATH
  }

  /** Exactly such a lookup gets over, with its keys, and its path up to the first zero. */
  lemma LookupOverLinkIs(l: Lookup)
    ensures LookupOverLink(l) == if Passes(l) then Some(l.(from := BeforeZero(l.from))) else None
  {
    var bytes := LookupBytes(l);
    var body := [TypeByte(PathLookup)] + bytes;
    assert body[1..] == bytes;
    assert bytes[..KEY_LEN] == l.source && bytes[KEY_LEN..2 * KEY_LEN] == l.dest;
    assert bytes[2 * KEY_LEN..] == PathBytes(l.from);
    SplitsBeforeZero(l.from);
  }

  /** What has got over one link gets over all others unchanged. */
  lemma PassedPassesAgain(l: Lookup)
    requires Passes(l)
    ensures var m := l.(from := BeforeZero(l.from)); Passes(m) && LookupOverLink(m) == Some(m)
  {
    var m := l.(from := BeforeZero(l.from));
    var rest := CutAtZero(l.from);
    NoZeroStays(BeforeZero(l.from));
    LookupOverLinkIs(m);
  }

  lemma {:induction false} NoZeroStays(path: Ports)
    requires forall i :: 0 <= i < |path| ==> path[i] != 0
    ensures BeforeZero(path) == path
  {
    if path != [] {
      NoZeroStays(path[1..]);
      assert path == [path[0]] + path[1..];
    }
  }

  lemma {:induction false} HopsAreShort(path: Ports)
    ensures |Hops(path)| <= 10 * |path|
  {
    if path != [] {
      assert Power128(1) == 128 && Power128(2) == 16384 && Power128(4) == 268435456;
      assert Power128(8) == 128 * 128 * 128 * 128 * Power128(4);
      assert Power128(10) == 128 * 128 * Power128(8);
      UvarintLen(path[0], 10);
      HopsAreShort(path[1..]);
    }
  }

  /** With no zero port, what counts is the number of ports. */
  lemma PassesByLength(l: Lookup)
    requires forall i :: 0 <= i < |l.from| ==> l.from[i] != 0
    ensures Passes(l) <==> |l.from| <= MAX_PATH
    ensures Passes(l) ==> LookupOverLink(l) == Some(l)
  {
    NoZeroStays(l.from);
    if |l.from| <= MAX_PATH { HopsAreShort(l.from); }
    LookupOverLinkIs(l);
  }

  /** 129 ports are too many. */
  lemma Port129IsRefused(l: Lookup)
    requires l.from == seq(129, _ => 1)
    ensures LookupOverLink(l).None?
  {
    PassesByLength(l);
    LookupOverLinkIs(l);
  }

  /** The layout: source, target, path back. */
  lemma LookupLayout(l: Lookup)
    ensures var bs := LookupBytes(l);
            bs[..32] == l.source && bs[32..64] == l.dest && bs[64..] == PathBytes(l.from)
  {
  }
}

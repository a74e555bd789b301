/** The source-routing table (`src/pathfind.rs`): learned paths, and rumours of lookups
    under way with at most one payload held behind each. Rumours are kept by
    transformed key, so that a lookup for a partial key meets the owner's notify. */
module Pathfinding {
  import opened Basics

  type Payload = int
  type Path = seq<nat>
  type Transform<!K> = K -> K

  /** In nanoseconds, as all times here. */
  const PATH_TIMEOUT: nat := 60_000_000_000
  const PATH_THROTTLE: nat := 1_000_000_000

  datatype PathEntry = PathEntry(path: Path, seq_: nat, deadline: nat, broken: bool)

  datatype Rumor<K> = Rumor(dest: K, sendAt: Option<nat>, deadline: nat, pending: Option<Payload>, pendingIsApp: bool)

  datatype Book<K> = Book(entries: map<K, PathEntry>, rumors: map<K, Rumor<K>>)

  /** A notify that has arrived: its source, what it says, and whether its signature is
      the source's. */
  datatype Notify<K> = Notify(source: K, seq_: nat, path: Path, valid: bool)

  /** What can be seen of a step: a path learned, a lookup sent, a payload held, a held
      payload let go to a key, a packet put on a path. */
  datatype Event<K> =
    | Learned(key: K, path: Path, seq_: nat)
    | Looked(x: K, at: nat)
    | Held(x: K, payload: Payload)
    | Freed(x: K, payload: Payload, to: K)
    | Routed(dest: K, path: Path)

  // ---------------------------------------------------------------- one step

  predicate Throttled<K(==, !new)>(b: Book<K>, x: K, now: nat) {
    x in b.rumors && b.rumors[x].sendAt.Some?
    && (if now < b.rumors[x].sendAt.value then 0 else now - b.rumors[x].sendAt.value) < PATH_THROTTLE
  }

  function RumorAt<K(==, !new)>(b: Book<K>, x: K, dest: K, now: nat): Rumor<K> {
    if x in b.rumors then b.rumors[x] else Rumor(dest, None, now + PATH_TIMEOUT, None, false)
  }

  function WithRumor<K(==, !new)>(b: Book<K>, x: K, r: Rumor<K>): Book<K> {
    b.(rumors := b.rumors[x := r])
  }

  /** `rumor_lookup` */
  function LookUp<K(==, !new)>(xkey: Transform<K>, b: Book<K>, dest: K, now: nat): Book<K> {
    var x := xkey(dest);
    if Throttled(b, x, now) then b
    else WithRumor(b, x, RumorAt(b, x, dest, now).(sendAt := Some(now), deadline := now + PATH_TIMEOUT))
  }

  function LookUpEvents<K(==, !new)>(xkey: Transform<K>, b: Book<K>, dest: K, now: nat): seq<Event<K>> {
    if Throttled(b, xkey(dest), now) then [] else [Looked(xkey(dest), now)]
  }

  predicate HasPath<K(==, !new)>(b: Book<K>, dest: K) {
    dest in b.entries && !b.entries[dest].broken
  }

  /** `pathfinder_send`: on the learned path, or held behind a lookup. */
  function Send<K(==, !new)>(xkey: Transform<K>, b: Book<K>, dest: K, p: Payload, now: nat): Book<K> {
    if HasPath(b, dest) then b
    else
      var c := LookUp(xkey, b, dest, now);
      var x := xkey(dest);
      if x in c.rumors then WithRumor(c, x, c.rumors[x].(pending := Some(p))) else c
  }

  function SendEvents<K(==, !new)>(xkey: Transform<K>, b: Book<K>, dest: K, p: Payload, now: nat): seq<Event<K>> {
    if HasPath(b, dest) then [Routed(dest, b.entries[dest].path)]
    else LookUpEvents(xkey, b, dest, now) + [Held(xkey(dest), p)]
  }

  /** `hold_for_lookup`: held first, whether or not a lookup goes out. */
  function Hold<K(==, !new)>(xkey: Transform<K>, b: Book<K>, dest: K, p: Payload, now: nat): Book<K> {
    var x := xkey(dest);
    LookUp(xkey, WithRumor(b, x, RumorAt(b, x, dest, now).(pending := Some(p), pendingIsApp := true)), dest, now)
  }

  function HoldEvents<K(==, !new)>(xkey: Transform<K>, b: Book<K>, dest: K, p: Payload, now: nat): seq<Event<K>> {
    [Held(xkey(dest), p)] + LookUpEvents(xkey, b, dest, now)
  }

  /** Does a notify teach a path? A known key's must be newer and different; an unknown
      key's must answer a rumour. */
  predicate Accepts<K(==, !new)>(xkey: Transform<K>, b: Book<K>, n: Notify<K>) {
    n.valid &&
    if n.source in b.entries then n.seq_ > b.entries[n.source].seq_ && n.path != b.entries[n.source].path
    else xkey(n.source) in b.rumors
  }

  predicate Frees<K(==, !new)>(xkey: Transform<K>, b: Book<K>, n: Notify<K>) {
    Accepts(xkey, b, n) && xkey(n.source) in b.rumors && b.rumors[xkey(n.source)].pending.Some?
  }

  /** `handle_notify`, where the notify has reached its destination. */
  function Notified<K(==, !new)>(xkey: Transform<K>, b: Book<K>, n: Notify<K>, now: nat): Book<K> {
    if !Accepts(xkey, b, n) then b
    else
      var x := xkey(n.source);
      var c := b.(entries := b.entries[n.source := PathEntry(n.path, n.seq_, now + PATH_TIMEOUT, false)]);
      if Frees(xkey, b, n) then WithRumor(c, x, c.rumors[x].(pending := None)) else c
  }

  /** A held payload goes to the key that notified: an application's to the session
      layer, a sealed one on the path just learned. */
  function NotifiedEvents<K(==, !new)>(xkey: Transform<K>, b: Book<K>, n: Notify<K>): seq<Event<K>> {
    if !Accepts(xkey, b, n) then []
    else
      var x := xkey(n.source);
      [Learned(n.source, n.path, n.seq_)]
      + (if Frees(xkey, b, n) then
           [Freed(x, b.rumors[x].pending.value, n.source)]
           + (if b.rumors[x].pendingIsApp then [] else [Routed(n.source, n.path)])
         else [])
  }

  /** `handle_broken`, where the report has reached the sender. */
  function Broken<K(==, !new)>(xkey: Transform<K>, b: Book<K>, dest: K, now: nat): Book<K> {
    if dest !in b.entries then b
    else LookUp(xkey, b.(entries := b.entries[dest := b.entries[dest].(broken := true)]), dest, now)
  }

  function BrokenEvents<K(==, !new)>(xkey: Transform<K>, b: Book<K>, dest: K, now: nat): seq<Event<K>> {
    if dest !in b.entries then [] else LookUpEvents(xkey, b, dest, now)
  }

  function Expired<K(==, !new)>(b: Book<K>, now: nat): Book<K> {
    Book(map k | k in b.entries && b.entries[k].deadline > now :: b.entries[k],
         map x | x in b.rumors && b.rumors[x].deadline > now :: b.rumors[x])
  }

  /** Traffic from a key keeps its path alive. */
  function Refreshed<K(==, !new)>(b: Book<K>, k: K, now: nat): Book<K> {
    if HasPath(b, k) then b.(entries := b.entries[k := b.entries[k].(deadline := now + PATH_TIMEOUT)]) else b
  }

  // ---------------------------------------------------------------- the state

  class PathState<K(==, !new)> {
    const xkey: Transform<K>
    var entries: map<K, PathEntry>
    var rumors: map<K, Rumor<K>>

    ghost function View(): Book<K>
      reads this
    {
      Book(entries, rumors)
    }

    constructor (transform: Transform<K>)
      ensures xkey == transform && View() == Book(map[], map[])
    {
      xkey, entries, rumors := transform, map[], map[];
    }

    method RumorLookup(dest: K, now: nat) returns (out: seq<Event<K>>)
      modifies `rumors
      ensures View() == LookUp(xkey, old(View()), dest, now) && out == LookUpEvents(xkey, old(View()), dest, now)
    {
      var x := xkey(dest);
      if x in rumors && rumors[x].sendAt.Some?
         && (if now < rumors[x].sendAt.value then 0 else now - rumors[x].sendAt.value) < PATH_THROTTLE {
        return [];
      }
      if x !in rumors {
        rumors := rumors[x := Rumor(dest, None, now + PATH_TIMEOUT, None, false)];
      }
      rumors := rumors[x := rumors[x].(sendAt := Some(now))];
      rumors := rumors[x := rumors[x].(deadline := now + PATH_TIMEOUT)];
      return [Looked(x, now)];
    }

    method HoldForLookup(dest: K, p: Payload, now: nat) returns (out: seq<Event<K>>)
      modifies `rumors
      ensures View() == Hold(xkey, old(View()), dest, p, now) && out == HoldEvents(xkey, old(View()), dest, p, now)
    {
      var x := xkey(dest);
      var already := x in rumors && rumors[x].sendAt.Some?
        && (if now < rumors[x].sendAt.value then 0 else now - rumors[x].sendAt.value) < PATH_THROTTLE;
      if x !in rumors {
        rumors := rumors[x := Rumor(dest, None, now + PATH_TIMEOUT, None, false)];
      }
      rumors := rumors[x := rumors[x].(pending := Some(p), pendingIsApp := true)];
      out := [Held(x, p)];
      if already { return; }
      var more := RumorLookup(dest, now);
      out := out + more;
    }

    method PathfinderSend(dest: K, p: Payload, now: nat) returns (out: seq<Event<K>>)
      modifies `rumors
      ensures View() == Send(xkey, old(View()), dest, p, now) && out == SendEvents(xkey, old(View()), dest, p, now)
    {
      if dest in entries && !entries[dest].broken {
        return [Routed(dest, entries[dest].path)];
      }
      out := RumorLookup(dest, now);
      var x := xkey(dest);
      if x in rumors {
        rumors := rumors[x := rumors[x].(pending := Some(p))];
      }
      out := out + [Held(x, p)];
    }

    method HandleNotify(n: Notify<K>, now: nat) returns (out: seq<Event<K>>)
      modifies this
      ensures View() == Notified(xkey, old(View()), n, now) && out == NotifiedEvents(xkey, old(View()), n)
    {
      var x := xkey(n.source);
      if n.source in entries {
        var e := entries[n.source];
        if n.seq_ <= e.seq_ || n.path == e.path { return []; }
        if !n.valid { return []; }
        var fresh_ := e.(path := n.path, seq_ := n.seq_, broken := false, deadline := now + PATH_TIMEOUT);
        entries := entries[n.source := fresh_];
      } else {
        if x !in rumors { return []; }
        if !n.valid { return []; }
        entries := entries[n.source := PathEntry(n.path, n.seq_, now + PATH_TIMEOUT, false)];
      }
      out := [Learned(n.source, n.path, n.seq_)];
      if x in rumors && rumors[x].pending.Some? {
        var data, isApp := rumors[x].pending.value, rumors[x].pendingIsApp;
        rumors := rumors[x := rumors[x].(pending := None)];
        out := out + [Freed(x, data, n.source)];
        if !isApp {
          var more := PathfinderSend(n.source, data, now);
          out := out + more;
        }
      }
    }

    method HandleBroken(dest: K, now: nat) returns (out: seq<Event<K>>)
      modifies this
      ensures View() == Broken(xkey, old(View()), dest, now) && out == BrokenEvents(xkey, old(View()), dest, now)
    {
      out := [];
      if dest in entries {
        entries := entries[dest := entries[dest].(broken := true)];
        out := RumorLookup(dest, now);
      }
    }

    method ExpireEphemeral(now: nat)
      modifies this
      ensures View() == Expired(old(View()), now)
    {
      entries := map k | k in entries && entries[k].deadline > now :: entries[k];
      rumors := map x | x in rumors && rumors[x].deadline > now :: rumors[x];
    }

    method Refresh(k: K, now: nat)
      modifies this
      ensures View() == Refreshed(old(View()), k, now)
    {
      if k in entries && !entries[k].broken {
        entries := entries[k := entries[k].(deadline := now + PATH_TIMEOUT)];
      }
    }
  }
}

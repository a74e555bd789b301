/** Tree coordinates as a metric, and greedy forwarding under a watermark
    (`src/pathfind.rs`, `src/traffic.rs`). */
module GreedyRouting {
  import opened Basics
  import opened ParentWalks

  type LinkId = nat

  // ---------------------------------------------------------------- the metric

  function CommonLen(a: seq<Port>, b: seq<Port>): (n: nat)
    ensures n <= |a| && n <= |b|
  {
    if a == [] || b == [] || a[0] != b[0] then 0 else 1 + CommonLen(a[1..], b[1..])
  }

  function CoordsDist(dest: seq<Port>, key: seq<Port>): nat {
    |key| + |dest| - 2 * CommonLen(dest, key)
  }

  /** The common length is the longest shared prefix. */
  lemma {:induction false} CommonLenIs(a: seq<Port>, b: seq<Port>, n: nat)
    requires n <= |a| && n <= |b|
    ensures CommonLen(a, b) == n <==> a[..n] == b[..n] && (n == |a| || n == |b| || a[n] != b[n])
  {
    if a == [] || b == [] || a[0] != b[0] {
      if n > 0 { assert a[..n][0] != b[..n][0]; }
    } else if n > 0 {
      CommonLenIs(a[1..], b[1..], n - 1);
      assert a[..n] == [a[0]] + a[1..][..n - 1] && b[..n] == [b[0]] + b[1..][..n - 1];
    }
  }

  lemma DistZero(a: seq<Port>, b: seq<Port>)
    ensures CoordsDist(a, b) == 0 <==> a == b
  {
    CommonLenIs(a, b, CommonLen(a, b));
    if a == b { CommonLenIs(a, b, |a|); }
    if CoordsDist(a, b) == 0 { assert a[..|a|] == a && b[..|b|] == b; }
  }

  /** The tree neighbour of `key` on the way to `dest`: the child in `dest`'s direction
      when `key` lies above it, the parent otherwise. */
  function Toward(dest: seq<Port>, key: seq<Port>): seq<Port>
    requires dest != key
  {
    if key <= dest then dest[..|key| + 1] else key[..|key| - 1]
  }

  lemma TowardIsCloser(dest: seq<Port>, key: seq<Port>)
    requires dest != key
    ensures CoordsDist(dest, Toward(dest, key)) == CoordsDist(dest, key) - 1
  {
    var n := CommonLen(dest, key);
    CommonLenIs(dest, key, n);
    var t := Toward(dest, key);
    if key <= dest {
      CommonLenIs(dest, key, |key|);
      CommonLenIs(dest, t, |t|);
    } else {
      assert key[..|key|] == key;
      assert t[..n] == key[..n];
      CommonLenIs(dest, t, n);
    }
  }

  // ---------------------------------------------------------------- one node's choice

  /** What a node keeps per connection: the peer's key, priority, age and cost. */
  datatype LinkState = LinkState(peer: Key, prio: nat, order: nat, cost: U64)

  /** One live connection of the link set. */
  datatype Entry = Entry(peer: Key, id: LinkId)

  datatype NodeView = NodeView(self: Key, infos: Infos, entries: seq<Entry>, links: map<LinkId, LinkState>)

  datatype Pick = Pick(id: LinkId, cost: U64, dist: nat)

  function LinksTo(entries: seq<Entry>, k: Key): seq<LinkId> {
    if entries == [] then []
    else (if entries[0].peer == k then [entries[0].id] else []) + LinksTo(entries[1..], k)
  }

  function Peers(entries: seq<Entry>): set<Key> {
    set e | e in entries :: e.peer
  }

  /** Does this peer take us strictly closer than `limit`? */
  predicate Closer(infos: Infos, path: seq<Port>, k: Key, limit: nat) {
    IsRooted(infos, k) && CoordsDist(path, Coords(infos, k)) < limit
  }

  function Candidates(v: NodeView, path: seq<Port>, limit: nat, keys: seq<Key>): seq<LinkId> {
    if keys == [] then []
    else
      var k := keys[|keys| - 1];
      Candidates(v, path, limit, keys[..|keys| - 1]) +
        if Closer(v.infos, path, k, limit) then LinksTo(v.entries, k) else []
  }

  function DistOf(infos: Infos, path: seq<Port>, k: Key): nat {
    CoordsDist(path, if IsRooted(infos, k) then Coords(infos, k) else [])
  }

  /** Same peer: lower priority wins and nothing else counts. Otherwise cost times
      distance, then distance, then cost, then age. */
  predicate Takes(links: map<LinkId, LinkState>, best: Option<Pick>, l: LinkState, dist: nat) {
    best.None? || best.value.id !in links ||
    var b, held := best.value, links[best.value.id];
    if l.peer == held.peer then l.prio < held.prio
    else if SatMul(l.cost, dist) != SatMul(b.cost, b.dist) then
      SatMul(l.cost, dist) < SatMul(b.cost, b.dist)
    else if dist != b.dist then dist < b.dist
    else if l.cost != b.cost then l.cost < b.cost
    else l.order < held.order
  }

  function Choose(v: NodeView, path: seq<Port>, cands: seq<LinkId>): Option<Pick> {
    if cands == [] then None
    else ChooseNext(v, path, Choose(v, path, cands[..|cands| - 1]), cands[|cands| - 1])
  }

  /** `greedy_next`: the chosen link and the new watermark. */
  ghost function Greedy(v: NodeView, path: seq<Port>, watermark: nat): (Option<LinkId>, nat) {
    var known := IsRooted(v.infos, v.self);
    var own := DistOf(v.infos, path, v.self);
    if known && own >= watermark then (None, watermark)
    else
      var best := Choose(v, path, Candidates(v, path, if known then own else U64_MAX, Sorted(Peers(v.entries))));
      (if best.Some? then Some(best.value.id) else None, if known then own else watermark)
  }

  method GreedyNext(v: NodeView, path: seq<Port>, watermark: nat) returns (next: Option<LinkId>, newMark: nat)
    ensures (next, newMark) == Greedy(v, path, watermark)
  {
    newMark := watermark;
    var limit: nat := U64_MAX;
    var own := RootPathFor(v.infos, v.self);
    if own.Some? {
      var d := CoordsDist(path, own.value);
      if d < watermark {
        limit := d;
        newMark := d;
      } else {
        return None, newMark;
      }
    }
    var keys := SortKeys(Peers(v.entries));
    var cands := CollectCandidates(v, path, limit, keys);
    var best := ChooseBest(v, path, cands);
    next := if best.Some? then Some(best.value.id) else None;
  }

  method CollectCandidates(v: NodeView, path: seq<Port>, limit: nat, keys: seq<Key>) returns (cands: seq<LinkId>)
    ensures cands == Candidates(v, path, limit, keys)
  {
    cands := [];
    for i := 0 to |keys|
      invariant cands == Candidates(v, path, limit, keys[..i])
    {
      assert keys[..i + 1][..i] == keys[..i];
      var kp := RootPathFor(v.infos, keys[i]);
      if kp.Some? && CoordsDist(path, kp.value) < limit {
        cands := cands + LinksTo(v.entries, keys[i]);
      }
    }
    assert keys[..|keys|] == keys;
  }

  /** What one more candidate does to the choice. */
  function ChooseNext(v: NodeView, path: seq<Port>, best: Option<Pick>, id: LinkId): Option<Pick> {
    if id !in v.links then best
    else
      var l := v.links[id];
      var dist := DistOf(v.infos, path, l.peer);
      if Takes(v.links, best, l, dist) then Some(Pick(id, l.cost, dist)) else best
  }

  method ChooseBest(v: NodeView, path: seq<Port>, cands: seq<LinkId>) returns (best: Option<Pick>)
    ensures best == Choose(v, path, cands)
  {
    best := None;
    for i := 0 to |cands|
      invariant best == Choose(v, path, cands[..i])
    {
      assert cands[..i + 1][..i] == cands[..i];
      best := ConsiderLink(v, path, best, cands[i]);
    }
    assert cands[..|cands|] == cands;
  }

  method ConsiderLink(v: NodeView, path: seq<Port>, best: Option<Pick>, id: LinkId) returns (next: Option<Pick>)
    ensures next == ChooseNext(v, path, best, id)
  {
    next := best;
    if id in v.links {
      var l := v.links[id];
      var p := RootPathFor(v.infos, l.peer);
      var dist := CoordsDist(path, if p.Some? then p.value else []);
      if Takes(v.links, best, l, dist) {
        next := Some(Pick(id, l.cost, dist));
      }
    }
  }

  // ---------------------------------------------------------------- what a choice means

  lemma {:induction false} LinksToMeans(entries: seq<Entry>, k: Key, id: LinkId)
    ensures id in LinksTo(entries, k) <==> Entry(k, id) in entries
  {
    if entries != [] {
      LinksToMeans(entries[1..], k, id);
      assert entries == [entries[0]] + entries[1..];
    }
  }

  lemma {:induction false} CandidatesMeans(v: NodeView, path: seq<Port>, limit: nat, keys: seq<Key>, id: LinkId)
    ensures id in Candidates(v, path, limit, keys) <==>
              exists k :: k in keys && Closer(v.infos, path, k, limit) && Entry(k, id) in v.entries
  {
    if keys != [] {
      var init, k := keys[..|keys| - 1], keys[|keys| - 1];
      CandidatesMeans(v, path, limit, init, id);
      LinksToMeans(v.entries, k, id);
      assert forall x :: x in keys <==> x in init || x == k by { assert keys == init + [k]; }
    }
  }

  /** The second pass picks one of the candidates it has a record of, if there is one. */
  lemma {:induction false} ChooseMeans(v: NodeView, path: seq<Port>, cands: seq<LinkId>)
    ensures var c := Choose(v, path, cands);
            && (c.Some? ==> c.value.id in cands && c.value.id in v.links)
            && (c.None? ==> forall id :: id in cands ==> id !in v.links)
  {
    if cands != [] {
      var init, last := cands[..|cands| - 1], cands[|cands| - 1];
      ChooseMeans(v, path, init);
      assert forall x :: x in cands <==> x in init || x == last by { assert cands == init + [last]; }
    }
  }

  /** A link is chosen exactly when some recorded link leads strictly closer than the
      limit, and the chosen one does. */
  lemma GreedyMeans(v: NodeView, path: seq<Port>, watermark: nat)
    requires IsRooted(v.infos, v.self)
    ensures var (next, mark) := Greedy(v, path, watermark);
            var own := DistOf(v.infos, path, v.self);
            && (next.Some? ==>
                  (own < watermark && mark == own && next.value in v.links
                   && exists k :: Closer(v.infos, path, k, own) && Entry(k, next.value) in v.entries))
            && (next.None? && own < watermark ==>
                  forall k, id :: Closer(v.infos, path, k, own) && Entry(k, id) in v.entries ==> id !in v.links)
  {
    var own := DistOf(v.infos, path, v.self);
    var keys := Sorted(Peers(v.entries));
    var cands := Candidates(v, path, own, keys);
    ChooseMeans(v, path, cands);
    var c := Choose(v, path, cands);
    if c.Some? { CandidatesMeans(v, path, own, keys, c.value.id); }
    forall k, id | Closer(v.infos, path, k, own) && Entry(k, id) in v.entries
      ensures id in cands
    {
      assert k in Peers(v.entries);
      CandidatesMeans(v, path, own, keys, id);
    }
  }

  /** A node that does not know its own coordinates forwards, with the watermark as it is,
      exactly when some recorded link leads to a peer with coordinates. */
  lemma GreedyWithoutPlace(v: NodeView, path: seq<Port>, watermark: nat)
    requires !IsRooted(v.infos, v.self)
    ensures var (next, mark) := Greedy(v, path, watermark);
            && mark == watermark
            && (next.Some? <==>
                  exists k, id :: Closer(v.infos, path, k, U64_MAX) && Entry(k, id) in v.entries && id in v.links)
            && (next.Some? ==> exists k :: Closer(v.infos, path, k, U64_MAX) && Entry(k, next.value) in v.entries)
  {
    var keys := Sorted(Peers(v.entries));
    var cands := Candidates(v, path, U64_MAX, keys);
    ChooseMeans(v, path, cands);
    var c := Choose(v, path, cands);
    if c.Some? { CandidatesMeans(v, path, U64_MAX, keys, c.value.id); }
    forall k, id | Closer(v.infos, path, k, U64_MAX) && Entry(k, id) in v.entries
      ensures id in cands
    {
      assert k in Peers(v.entries);
      CandidatesMeans(v, path, U64_MAX, keys, id);
    }
  }

  // ---------------------------------------------------------------- which link wins

  /** Cost times distance, distance, cost and age, compared in this order. */
  predicate NoWorse(v: NodeView, path: seq<Port>, a: LinkState, b: LinkState) {
    var da, db := DistOf(v.infos, path, a.peer), DistOf(v.infos, path, b.peer);
    var pa, pb := SatMul(a.cost, da), SatMul(b.cost, db);
    pa < pb || (pa == pb && (da < db || (da == db && (a.cost < b.cost || (a.cost == b.cost && a.order <= b.order)))))
  }

  /** The choice remembers the cost and distance of the link it made. */
  lemma {:induction false} ChoiceIsRecorded(v: NodeView, path: seq<Port>, cands: seq<LinkId>)
    ensures var c := Choose(v, path, cands);
            c.Some? ==> c.value.id in v.links && c.value.cost == v.links[c.value.id].cost
                        && c.value.dist == DistOf(v.infos, path, v.links[c.value.id].peer)
  {
    if cands != [] { ChoiceIsRecorded(v, path, cands[..|cands| - 1]); }
  }

  /** Candidates that lead to different peers. */
  predicate PeersDiffer(links: map<LinkId, LinkState>, cands: seq<LinkId>) {
    forall i, j :: 0 <= i < j < |cands| && cands[i] in links && cands[j] in links ==>
      links[cands[i]].peer != links[cands[j]].peer
  }

  /** Among links to different peers the one chosen is no worse than any other. */
  lemma {:induction false} ChosenIsLeast(v: NodeView, path: seq<Port>, cands: seq<LinkId>, id: LinkId)
    requires PeersDiffer(v.links, cands) && id in cands && id in v.links
    ensures var c := Choose(v, path, cands);
            c.Some? && c.value.id in v.links && NoWorse(v, path, v.links[c.value.id], v.links[id])
  {
    var init, last := cands[..|cands| - 1], cands[|cands| - 1];
    assert cands == init + [last];
    ChoiceIsRecorded(v, path, init);
    ChooseMeans(v, path, init);
    if id in init { ChosenIsLeast(v, path, init, id); }
    var best := Choose(v, path, init);
    if last in v.links && best.Some? {
      var i :| 0 <= i < |init| && init[i] == best.value.id;
      assert cands[i] == best.value.id && cands[|cands| - 1] == last;
    }
  }

  /** Among links to one peer the one chosen has the lowest priority number. */
  lemma {:induction false} ChosenHasPriority(v: NodeView, path: seq<Port>, cands: seq<LinkId>, peer: Key, id: LinkId)
    requires forall x :: x in cands && x in v.links ==> v.links[x].peer == peer
    requires id in cands && id in v.links
    ensures var c := Choose(v, path, cands);
            c.Some? && c.value.id in v.links && v.links[c.value.id].prio <= v.links[id].prio
  {
    var init, last := cands[..|cands| - 1], cands[|cands| - 1];
    assert cands == init + [last];
    ChooseMeans(v, path, init);
    if id in init { ChosenHasPriority(v, path, init, peer, id); }
    var best := Choose(v, path, init);
    if last in v.links && best.Some? { assert best.value.id in cands; }
  }

  // ---------------------------------------------------------------- loop freedom

  /** The nodes a packet for `path` is forwarded by, one after another, each knowing
      its own coordinates. Their views need not agree, nor stay the same. */
  ghost predicate Journey(nodes: seq<NodeView>, path: seq<Port>, watermark: nat)
    decreases |nodes|
  {
    nodes == [] ||
    (IsRooted(nodes[0].infos, nodes[0].self) && Greedy(nodes[0], path, watermark).0.Some?
     && Journey(nodes[1..], path, Greedy(nodes[0], path, watermark).1))
  }

  /** At most as many hops as the first node is away: each forward strictly lowers the
      watermark to the forwarder's own distance. */
  lemma {:induction false} LoopFree(nodes: seq<NodeView>, path: seq<Port>, watermark: nat)
    requires Journey(nodes, path, watermark) && nodes != []
    ensures DistOf(nodes[0].infos, path, nodes[0].self) < watermark
    ensures |nodes| <= DistOf(nodes[0].infos, path, nodes[0].self)
    decreases |nodes|
  {
    GreedyMeans(nodes[0], path, watermark);
    if nodes[1..] != [] {
      LoopFree(nodes[1..], path, Greedy(nodes[0], path, watermark).1);
    }
  }
}

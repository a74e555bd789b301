/** Greedy delivery on a settled tree (`src/pathfind.rs`, `src/traffic.rs`), and the
    port allocation that makes coordinates unique (`src/driver.rs`). */
module TreeDelivery {
  import opened Basics
  import opened ParentWalks
  import opened GreedyRouting

  // ---------------------------------------------------------------- ports

  datatype Peer = Peer(port: Port, req: int)

  /** What `register` allocates: one port per key for ever, one order per link. */
  class PeerBook {
    var peers: map<Key, Peer>
    var links: map<LinkId, LinkState>
    var nextPort: nat
    var peerOrder: nat

    /** Ports are nonzero and different keys hold different ports; different links
        hold different orders. */
    ghost predicate Valid()
      reads this
    {
      && 1 <= nextPort
      && (forall k :: k in peers ==> 1 <= peers[k].port < nextPort)
      && (forall k, l :: k in peers && l in peers && k != l ==> peers[k].port != peers[l].port)
      && (forall i :: i in links ==> links[i].order < peerOrder)
      && (forall i, j :: i in links && j in links && i != j ==> links[i].order != links[j].order)
    }

    constructor ()
      ensures Valid() && peers == map[] && links == map[]
    {
      peers, links, nextPort, peerOrder := map[], map[], 1, 0;
    }

    method Register(key: Key, id: LinkId, prio: nat, cost: U64, newReq: int)
      requires Valid() && nextPort < U64_MAX
      modifies this
      ensures Valid()
      ensures key in peers && id in links && links[id].peer == key
      ensures key in old(peers) ==> peers == old(peers)
      ensures key !in old(peers) ==> peers == old(peers)[key := Peer(old(nextPort), newReq)]
      ensures links == old(links)[id := LinkState(key, prio, old(peerOrder), cost)]
    {
      var port;
      if key in peers {
        port := peers[key].port;
      } else {
        port := nextPort;
        nextPort := nextPort + 1;
      }
      var order := peerOrder;
      peerOrder := peerOrder + 1;
      var req := if key in peers then peers[key].req else newReq;
      peers := peers[key := Peer(port, req)];
      links := links[id := LinkState(key, prio, order, cost)];
    }
  }

  predicate ChildOf(tree: Infos, c: Key, p: Key) {
    c in tree && c != p && tree[c].parent == p
  }

  ghost predicate SiblingsDiffer(tree: Infos, p: Key) {
    forall x, y :: ChildOf(tree, x, p) && ChildOf(tree, y, p) && x != y ==> tree[x].port != tree[y].port
  }

  /** Children that took their port from their parent's book have different ports. */
  lemma BookSeparatesSiblings(book: PeerBook, tree: Infos, p: Key)
    requires book.Valid()
    requires forall c :: ChildOf(tree, c, p) ==> c in book.peers && tree[c].port == book.peers[c].port
    ensures SiblingsDiffer(tree, p)
  {
  }

  // ---------------------------------------------------------------- the tree

  ghost predicate IsTree(tree: Infos, root: Key) {
    && (forall k {:trigger IsRooted(tree, k)} :: k in tree ==> IsRooted(tree, k) && Root(tree, k) == root)
    && (forall p {:trigger SiblingsDiffer(tree, p)} :: p in tree ==> SiblingsDiffer(tree, p))
  }

  /** A node's coordinates in the tree. */
  function Place(tree: Infos, k: Key): seq<Port> {
    if IsRooted(tree, k) then Coords(tree, k) else []
  }

  /** Coordinates name nodes. */
  lemma {:induction false} CoordsInjective(tree: Infos, root: Key, x: Key, y: Key)
    requires IsTree(tree, root) && x in tree && y in tree && Place(tree, x) == Place(tree, y)
    ensures x == y
    decreases |Place(tree, x)|
  {
    if tree[x].parent == x || tree[y].parent == y {
      TopIsRoot(tree, x);
      TopIsRoot(tree, y);
    } else {
      CoordsStep(tree, x);
      CoordsStep(tree, y);
      var p, q := tree[x].parent, tree[y].parent;
      var cx, cy := Place(tree, x), Place(tree, y);
      assert cx[..|cx| - 1] == Place(tree, p) && cy[..|cy| - 1] == Place(tree, q);
      ParentKnown(tree, x);
      ParentKnown(tree, y);
      CoordsInjective(tree, root, p, q);
      assert cx[|cx| - 1] == tree[x].port && cy[|cy| - 1] == tree[y].port;
      assert ChildOf(tree, x, p) && ChildOf(tree, y, p) && SiblingsDiffer(tree, p);
    }
  }

  lemma ParentKnown(tree: Infos, k: Key)
    requires k in tree && IsRooted(tree, k)
    ensures tree[k].parent in tree
  {
    if tree[k].parent != k { CoordsStep(tree, k); }
  }

  /** A node has empty coordinates exactly when it is its own parent, and then it is the root. */
  lemma TopIsRoot(tree: Infos, k: Key)
    requires k in tree && IsRooted(tree, k)
    ensures tree[k].parent == k <==> Place(tree, k) == []
    ensures tree[k].parent == k ==> Root(tree, k) == k
  {
    if tree[k].parent != k {
      CoordsStep(tree, k);
    } else {
      assert WalkFrom(tree, k, {k}) == [];
      assert {} + {k} == {k};
      assert Walk(tree, k) == [k] + WalkFrom(tree, k, {k});
    }
  }

  /** Every prefix of a node's coordinates names one of its ancestors. */
  lemma {:induction false} AncestorAt(tree: Infos, root: Key, k: Key, n: nat) returns (x: Key)
    requires IsTree(tree, root) && k in tree && n <= |Place(tree, k)|
    ensures x in tree && Place(tree, x) == Place(tree, k)[..n]
    decreases |Place(tree, k)|
  {
    var c := Place(tree, k);
    if n == |c| {
      x := k;
      assert c[..n] == c;
    } else {
      TopIsRoot(tree, k);
      CoordsStep(tree, k);
      ParentKnown(tree, k);
      x := AncestorAt(tree, root, tree[k].parent, n);
      assert c[..n] == Place(tree, tree[k].parent)[..n];
    }
  }

  // ---------------------------------------------------------------- a settled network

  predicate Neighbours(tree: Infos, u: Key, v: Key) {
    ChildOf(tree, u, v) || ChildOf(tree, v, u)
  }

  /** A recorded link of `view` that leads to `v`. */
  predicate Linked(view: NodeView, v: Key, id: LinkId) {
    Entry(v, id) in view.entries && id in view.links
  }

  predicate IdsUnique(entries: seq<Entry>) {
    forall i, j :: 0 <= i < j < |entries| ==> entries[i].id != entries[j].id
  }

  /** A node's infos agree with the tree, it knows its own ancestry, and it knows the
      ancestry of and holds a registered link to each of its tree neighbours. */
  ghost predicate NodeSettled(view: NodeView, tree: Infos, u: Key) {
    && view.self == u
    && (forall k :: k in view.infos ==> k in tree && tree[k] == view.infos[k])
    && IsRooted(view.infos, u)
    && (forall v {:trigger Neighbours(tree, u, v)} :: v in tree && Neighbours(tree, u, v) ==>
          IsRooted(view.infos, v) && exists id :: Linked(view, v, id))
    && IdsUnique(view.entries)
  }

  ghost predicate Settled(net: map<Key, NodeView>, tree: Infos, root: Key) {
    && IsTree(tree, root) && net.Keys == tree.Keys
    && (forall u {:trigger NodeSettled(net[u], tree, u)} :: u in net ==> NodeSettled(net[u], tree, u))
  }

  /** What a node believes about coordinates is true of the tree. */
  lemma BeliefsAreTrue(view: NodeView, tree: Infos, u: Key, k: Key)
    requires NodeSettled(view, tree, u) && IsRooted(view.infos, k)
    ensures k in tree && IsRooted(tree, k) && Place(tree, k) == Coords(view.infos, k)
  {
    RootedWalkStable(view.infos, k, {}, tree, {});
    WalkKnown(view.infos, k, {});
    var w := Walk(tree, k);
    assert PortsOf(tree, w[..|w| - 1]) == PortsOf(view.infos, w[..|w| - 1]);
  }

  /** Above the destination, the child in its direction is one step closer. */
  lemma ChildToward(tree: Infos, root: Key, u: Key, dest: Key) returns (v: Key)
    requires IsTree(tree, root) && u in tree && dest in tree && Place(tree, u) < Place(tree, dest)
    ensures v in tree && ChildOf(tree, v, u) && Place(tree, v) == Toward(Place(tree, dest), Place(tree, u))
  {
    var cu := Place(tree, u);
    v := AncestorAt(tree, root, dest, |cu| + 1);
    TopIsRoot(tree, v);
    CoordsStep(tree, v);
    ParentKnown(tree, v);
    var cv := Place(tree, v);
    assert cv[..|cv| - 1] == Place(tree, tree[v].parent) && cv[..|cv| - 1] == cu;
    CoordsInjective(tree, root, tree[v].parent, u);
  }

  /** Anywhere else the parent is. */
  lemma ParentToward(tree: Infos, root: Key, u: Key, dest: Key)
    requires IsTree(tree, root) && u in tree && dest in tree && !(Place(tree, u) <= Place(tree, dest))
    ensures tree[u].parent in tree && ChildOf(tree, u, tree[u].parent)
    ensures Place(tree, tree[u].parent) == Toward(Place(tree, dest), Place(tree, u))
  {
    TopIsRoot(tree, u);
    CoordsStep(tree, u);
    ParentKnown(tree, u);
    var cu := Place(tree, u);
    assert cu[..|cu| - 1] == Place(tree, tree[u].parent);
  }

  /** The neighbour toward the destination exists and is one step closer. */
  lemma CloserNeighbour(tree: Infos, root: Key, u: Key, dest: Key) returns (v: Key)
    requires IsTree(tree, root) && u in tree && dest in tree && u != dest
    ensures v in tree && Neighbours(tree, u, v)
    ensures CoordsDist(Place(tree, dest), Place(tree, v)) == CoordsDist(Place(tree, dest), Place(tree, u)) - 1
  {
    if Place(tree, u) == Place(tree, dest) { CoordsInjective(tree, root, u, dest); }
    TowardIsCloser(Place(tree, dest), Place(tree, u));
    if Place(tree, u) <= Place(tree, dest) {
      v := ChildToward(tree, root, u, dest);
    } else {
      ParentToward(tree, root, u, dest);
      v := tree[u].parent;
    }
  }

  // ---------------------------------------------------------------- one hop

  /** What a node does with a packet: keep it, send it on under a new watermark, or
      lose it on a link that leads nowhere. */
  datatype Hop = Stay | Go(to: Key, mark: nat) | Drop

  /** The node at the other end of a link. */
  function PeerOf(entries: seq<Entry>, id: LinkId): Option<Key> {
    if entries == [] then None
    else if entries[0].id == id then Some(entries[0].peer) else PeerOf(entries[1..], id)
  }

  /** The hop a node makes with a packet for `path`: along the greedy choice. */
  ghost function HopOf(net: map<Key, NodeView>, path: seq<Port>, at: Key, watermark: nat): Hop {
    if at !in net then Drop
    else
      var (next, mark) := Greedy(net[at], path, watermark);
      if next.None? then Stay
      else
        var peer := PeerOf(net[at].entries, next.value);
        if peer.None? || peer.value !in net then Drop else Go(peer.value, mark)
  }

  lemma {:induction false} PeerOfMeans(entries: seq<Entry>, k: Key, id: LinkId)
    requires Entry(k, id) in entries && IdsUnique(entries)
    ensures PeerOf(entries, id) == Some(k)
  {
    var i :| 0 <= i < |entries| && entries[i] == Entry(k, id);
    if i > 0 {
      assert entries[1..][i - 1] == Entry(k, id);
      PeerOfMeans(entries[1..], k, id);
    }
  }

  /** Some recorded link leads strictly closer to the destination. */
  lemma SomeLinkIsCloser(view: NodeView, tree: Infos, root: Key, u: Key, dest: Key) returns (v: Key, id: LinkId)
    requires IsTree(tree, root) && NodeSettled(view, tree, u) && u in tree && dest in tree && u != dest
    ensures Closer(view.infos, Place(tree, dest), v, CoordsDist(Place(tree, dest), Place(tree, u)))
    ensures Entry(v, id) in view.entries && id in view.links
  {
    v := CloserNeighbour(tree, root, u, dest);
    BeliefsAreTrue(view, tree, u, v);
    id :| Linked(view, v, id);
  }

  lemma HopIsCloser(view: NodeView, tree: Infos, root: Key, u: Key, dest: Key, watermark: nat) returns (k: Key)
    requires IsTree(tree, root) && NodeSettled(view, tree, u) && u in tree && dest in tree && u != dest
    requires CoordsDist(Place(tree, dest), Place(tree, u)) < watermark
    ensures var path := Place(tree, dest);
            var (next, mark) := Greedy(view, path, watermark);
            && next.Some? && PeerOf(view.entries, next.value) == Some(k)
            && k in tree && CoordsDist(path, Place(tree, k)) < mark == CoordsDist(path, Place(tree, u))
  {
    var path := Place(tree, dest);
    BeliefsAreTrue(view, tree, u, u);
    var d := CoordsDist(path, Place(tree, u));
    GreedyMeans(view, path, watermark);
    var v, id := SomeLinkIsCloser(view, tree, root, u, dest);
    var next := Greedy(view, path, watermark).0;
    k :| Closer(view.infos, path, k, d) && Entry(k, next.value) in view.entries;
    BeliefsAreTrue(view, tree, u, k);
    PeerOfMeans(view.entries, k, next.value);
  }

  /** At the destination no peer can be closer, so the packet stops there. */
  lemma StopsAtDestination(view: NodeView, tree: Infos, root: Key, dest: Key, watermark: nat)
    requires IsTree(tree, root) && NodeSettled(view, tree, dest) && dest in tree
    ensures Greedy(view, Place(tree, dest), watermark).0.None?
  {
    var path := Place(tree, dest);
    BeliefsAreTrue(view, tree, dest, dest);
    DistZero(path, Place(tree, dest));
    GreedyMeans(view, path, watermark);
  }

  function TreeDist(tree: Infos, dest: Key, u: Key): nat {
    CoordsDist(Place(tree, dest), Place(tree, u))
  }

  lemma HopStays(net: map<Key, NodeView>, tree: Infos, root: Key, dest: Key, w: nat)
    requires Settled(net, tree, root) && dest in tree
    ensures HopOf(net, Place(tree, dest), dest, w) == Stay
  {
    assert NodeSettled(net[dest], tree, dest);
    StopsAtDestination(net[dest], tree, root, dest, w);
  }

  /** A hop at distance `d`: strictly closer, and marked with `d`. */
  predicate Advancing(h: Hop, tree: Infos, dest: Key, d: nat) {
    h.Go? && h.to in tree && h.mark == d && TreeDist(tree, dest, h.to) < d
  }

  lemma HopGoes(net: map<Key, NodeView>, tree: Infos, root: Key, u: Key, dest: Key, w: nat)
    requires Settled(net, tree, root) && dest in tree && u in tree && u != dest && TreeDist(tree, dest, u) < w
    ensures Advancing(HopOf(net, Place(tree, dest), u, w), tree, dest, TreeDist(tree, dest, u))
  {
    assert NodeSettled(net[u], tree, u);
    var k := HopIsCloser(net[u], tree, root, u, dest, w);
    HopFrom(net, Place(tree, dest), u, w, k);
  }

  lemma HopFrom(net: map<Key, NodeView>, path: seq<Port>, at: Key, w: nat, k: Key)
    requires at in net && k in net
    requires var next := Greedy(net[at], path, w).0; next.Some? && PeerOf(net[at].entries, next.value) == Some(k)
    ensures HopOf(net, path, at, w) == Go(k, Greedy(net[at], path, w).1)
  {
  }
}

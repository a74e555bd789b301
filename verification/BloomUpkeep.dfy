/** Filters that have settled stay settled, and filters that have come to rest have
    settled (`src/bloom.rs`): maintenance and its packets, over the wire form. */
module BloomUpkeep {
  import opened Basics
  import opened ParentWalks
  import opened GreedyRouting
  import opened TreeDelivery
  import opened BloomFilters
  import opened BloomTables
  import opened BloomReach

  function With(tables: Key -> Tables, v: Key, t: Tables): Key -> Tables {
    (u: Key) => if u == v then t else tables(u)
  }

  /** Maintenance leaves the filter for a peer what it was. */
  lemma AdvertSurvives(t: Tables, own: Probes, linked: set<Key>, next: Tables, out: seq<Packet>, u: Key, b: Filter)
    requires next.recv == t.recv && next.onTree == t.onTree && Advertised(t, own, linked, TreePeers(t), next.send, out)
    requires OnTree(t, u) && IsAdvert(b, t, own, u)
    ensures u in next.send && next.send[u] == b && IsAdvert(b, next, own, u)
  {
    assert u in TreePeers(t);
    AdvertUnique(b, next.send[u], t, own, u);
    AdvertSettles(b, t, own, u);
    AdvertIsLocal(b, next, t.(send := t.send[u := b]), own, u);
  }

  /** What goes out to a peer that has heard everything is what it has heard. */
  lemma NothingNew(t: Tables, own: Probes, linked: set<Key>, next: Tables, out: seq<Packet>, p: Packet, b: Filter,
                   peer: Tables, v: Key)
    requires next.recv == t.recv && next.onTree == t.onTree && Advertised(t, own, linked, TreePeers(t), next.send, out)
    requires p in out && IsAdvert(b, t, own, p.to) && v in peer.recv && peer.recv[v] == b
    ensures Handled(peer, v, p.bytes) == peer
  {
    assert OnTree(t, p.to);
    AdvertSurvives(t, own, linked, next, out, p.to, b);
    SentGains(t, own, linked, TreePeers(t), next.send, out, p);
    assert peer.recv[v := b] == peer.recv;
  }

  /** The node that ran maintenance. */
  lemma UpkeepAt(view: NodeView, t: Tables, tree: Infos, own: Probes, v: Key, next: Tables, out: seq<Packet>)
    requires TablesFixed(view, t, tree, v) && Maintained(t, view.infos, v, own, LinkedPeers(view), next, out)
    ensures next.recv == t.recv && next.onTree == t.onTree && TablesFixed(view, next, tree, v)
    ensures Advertised(t, own, LinkedPeers(view), TreePeers(t), next.send, out)
  {
    FixedStays(t, view.infos, v);
  }

  /** What a neighbour heard from it is still the filter it has for that neighbour. */
  lemma HeardStays(view: NodeView, t: Tables, tree: Infos, root: Key, own: Probes, v: Key, next: Tables,
                   out: seq<Packet>, u: Key, b: Filter)
    requires IsTree(tree, root) && TablesFixed(view, t, tree, v) && v in tree && u in tree && Neighbours(tree, v, u)
    requires Maintained(t, view.infos, v, own, LinkedPeers(view), next, out) && IsAdvert(b, t, own, u)
    ensures IsAdvert(b, next, own, u)
  {
    UpkeepAt(view, t, tree, own, v, next, out);
    FlagsAreNeighbours(view, t, tree, root, v, u);
    AdvertSurvives(t, own, LinkedPeers(view), next, out, u, b);
  }

  lemma EdgeStays(net: map<Key, NodeView>, tables: Key -> Tables, tree: Infos, root: Key, probes: Key -> Probes,
                  v: Key, next: Tables, out: seq<Packet>, u: Key, w: Key)
    requires BloomSettled(net, tables, tree, root, probes) && v in tree && v in net
    requires Maintained(tables(v), net[v].infos, v, probes(v), LinkedPeers(net[v]), next, out)
    requires next.recv == tables(v).recv && u in tree && w in tree && Neighbours(tree, u, w)
    ensures var after := With(tables, v, next);
            w in after(u).recv && IsAdvert(after(u).recv[w], after(w), probes(w), u)
  {
    if w == v {
      assert Neighbours(tree, v, u) && TablesFixed(net[v], tables(v), tree, v);
      HeardStays(net[v], tables(v), tree, root, probes(v), v, next, out, u, tables(u).recv[v]);
    }
    EdgeAfter(tables, v, next, u, w, probes(w));
  }

  lemma EdgeAfter(tables: Key -> Tables, v: Key, next: Tables, u: Key, w: Key, own: Probes)
    requires next.recv == tables(v).recv && w in tables(u).recv
    requires IsAdvert(tables(u).recv[w], if w == v then next else tables(w), own, u)
    ensures var after := With(tables, v, next); w in after(u).recv && IsAdvert(after(u).recv[w], after(w), own, u)
  {
    var after := With(tables, v, next);
    assert after(u).recv == tables(u).recv && after(w) == if w == v then next else tables(w);
  }

  /** Settled filters stay settled through maintenance at any node, and every packet it
      sends, decoded and handled, leaves its receiver as it was. */
  lemma SettledStays(net: map<Key, NodeView>, tables: Key -> Tables, tree: Infos, root: Key, probes: Key -> Probes,
                     v: Key, next: Tables, out: seq<Packet>)
    requires BloomSettled(net, tables, tree, root, probes) && v in tree && v in net
    requires Maintained(tables(v), net[v].infos, v, probes(v), LinkedPeers(net[v]), next, out)
    ensures BloomSettled(net, With(tables, v, next), tree, root, probes)
    ensures forall p :: p in out ==> p.to in tree && Handled(tables(p.to), v, p.bytes) == tables(p.to)
  {
    assert TablesFixed(net[v], tables(v), tree, v);
    UpkeepAt(net[v], tables(v), tree, probes(v), v, next, out);
    var after := With(tables, v, next);
    forall u, w | u in tree && w in tree && Neighbours(tree, u, w)
      ensures w in after(u).recv && IsAdvert(after(u).recv[w], after(w), probes(w), u)
    {
      EdgeStays(net, tables, tree, root, probes, v, next, out, u, w);
    }
    forall u | u in tree ensures TablesFixed(net[u], after(u), tree, u) {
      assert u != v ==> TablesFixed(net[u], tables(u), tree, u);
    }
    forall p | p in out ensures p.to in tree && Handled(tables(p.to), v, p.bytes) == tables(p.to) {
      PacketIsOld(net, tables, tree, root, probes, v, next, out, p);
    }
  }

  lemma PacketIsOld(net: map<Key, NodeView>, tables: Key -> Tables, tree: Infos, root: Key, probes: Key -> Probes,
                    v: Key, next: Tables, out: seq<Packet>, p: Packet)
    requires BloomSettled(net, tables, tree, root, probes) && v in tree && v in net && p in out
    requires Maintained(tables(v), net[v].infos, v, probes(v), LinkedPeers(net[v]), next, out)
    ensures p.to in tree && Handled(tables(p.to), v, p.bytes) == tables(p.to)
  {
    assert TablesFixed(net[v], tables(v), tree, v);
    UpkeepAt(net[v], tables(v), tree, probes(v), v, next, out);
    assert OnTree(tables(v), p.to);
    FlagsAreNeighbours(net[v], tables(v), tree, root, v, p.to);
    assert Neighbours(tree, p.to, v);
    NothingNew(tables(v), probes(v), LinkedPeers(net[v]), next, out, p, tables(p.to).recv[v], tables(p.to), v);
  }

  // ---------------------------------------------------------------- at rest

  /** Everything sent has been handled: each node has heard from each neighbour what that
      neighbour has on record as sent. */
  ghost predicate AllHeard(tables: Key -> Tables, tree: Infos) {
    forall u, v {:trigger Neighbours(tree, u, v)} :: u in tree && v in tree && Neighbours(tree, u, v) ==>
      v in tables(u).recv && u in tables(v).send && tables(u).recv[v] == tables(v).send[u]
  }

  /** Maintenance at any node would leave everything as it is. */
  ghost predicate AllQuiet(net: map<Key, NodeView>, tables: Key -> Tables, tree: Infos, probes: Key -> Probes) {
    forall v {:trigger tables(v)} :: v in tree && v in net ==>
      exists out :: Maintained(tables(v), net[v].infos, v, probes(v), LinkedPeers(net[v]), tables(v), out)
  }

  lemma QuietEdge(net: map<Key, NodeView>, tables: Key -> Tables, tree: Infos, root: Key, probes: Key -> Probes,
                  u: Key, v: Key)
    requires Settled(net, tree, root) && u in tree && v in tree && v in net && Neighbours(tree, u, v)
    requires TablesFixed(net[v], tables(v), tree, v) && AllHeard(tables, tree) && AllQuiet(net, tables, tree, probes)
    ensures v in tables(u).recv && IsAdvert(tables(u).recv[v], tables(v), probes(v), u)
  {
    var t := tables(v);
    var out :| Maintained(t, net[v].infos, v, probes(v), LinkedPeers(net[v]), t, out);
    FixedStays(t, net[v].infos, v);
    assert Neighbours(tree, v, u);
    FlagsAreNeighbours(net[v], t, tree, root, v, u);
    assert u in TreePeers(t);
  }

  /** Filters that have come to rest have settled: when every node's flags are fixed, all
      that was sent has been handled and maintenance changes nothing, each node has heard
      from each neighbour exactly the filter that neighbour has for it. */
  lemma QuietIsSettled(net: map<Key, NodeView>, tables: Key -> Tables, tree: Infos, root: Key, probes: Key -> Probes)
    requires Settled(net, tree, root) && AllHeard(tables, tree) && AllQuiet(net, tables, tree, probes)
    requires forall u {:trigger net[u]} :: u in tree ==> u in net && TablesFixed(net[u], tables(u), tree, u)
    ensures BloomSettled(net, tables, tree, root, probes)
  {
    forall u, v | u in tree && v in tree && Neighbours(tree, u, v)
      ensures v in tables(u).recv && IsAdvert(tables(u).recv[v], tables(v), probes(v), u)
    {
      assert v in net && TablesFixed(net[v], tables(v), tree, v);
      QuietEdge(net, tables, tree, root, probes, u, v);
    }
  }
}

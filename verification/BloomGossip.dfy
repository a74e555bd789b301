/** Filters come to rest (`src/bloom.rs`): over every run of maintenance and handling on a
    settled tree, at most 8192 filters go out on each directed edge, and once none is under
    way and maintenance has none to send, the filters have settled. */
module BloomGossip {
  import opened Basics
  import opened Bits
  import opened ParentWalks
  import opened GreedyRouting
  import opened TreeDelivery
  import opened BloomFilters
  import opened BloomTables
  import opened BloomReach
  import opened BloomUpkeep

  // ---------------------------------------------------------------- counting bits

  const BITS: nat := 8192

  function BitsOf(f: Filter): set<nat> {
    set l: nat | l < BITS && Bit(f, l)
  }

  function UpTo(n: nat): (r: set<nat>)
    ensures |r| == n && forall l: nat :: l in r <==> l < n
  {
    if n == 0 then {}
    else
      var r := UpTo(n - 1);
      assert n - 1 !in r;
      r + {n - 1}
  }

  lemma SmallerSet(a: set<nat>, b: set<nat>)
    requires a <= b
    ensures |a| <= |b| && (a != b ==> |a| < |b|)
  {
    assert b == a + (b - a);
    if a != b { assert b - a != {}; }
  }

  lemma AtMostAll(f: Filter)
    ensures |BitsOf(f)| <= BITS
  {
    SmallerSet(BitsOf(f), UpTo(BITS));
  }

  lemma GainsBits(g: Filter, f: Filter)
    requires Covers(g, f)
    ensures |BitsOf(f)| <= |BitsOf(g)| && (g != f ==> |BitsOf(f)| < |BitsOf(g)|)
  {
    SmallerSet(BitsOf(f), BitsOf(g));
    if g != f && BitsOf(f) == BitsOf(g) {
      forall l: nat | l < BITS ensures Bit(f, l) <==> Bit(g, l) { assert l in BitsOf(f) <==> l in BitsOf(g); }
      SameBits(f, g);
    }
  }

  /** How many more filters can go to `u`: one for each bit not yet sent. */
  function Room(t: Tables, u: Key): nat {
    AtMostAllSent(t, u);
    if u in t.send then BITS - |BitsOf(t.send[u])| else BITS + 1
  }

  lemma AtMostAllSent(t: Tables, u: Key)
    ensures u in t.send ==> |BitsOf(t.send[u])| <= BITS
  {
    if u in t.send { AtMostAll(t.send[u]); }
  }

  /** Maintenance leaves the room of every peer or shrinks it, and shrinks it for every peer
      it sends to. */
  lemma PassRoom(t: Tables, own: Probes, linked: set<Key>, send: map<Key, Filter>, out: seq<Packet>, next: Tables,
                 u: Key)
    requires Advertised(t, own, linked, TreePeers(t), send, out) && next.send == send
    ensures Room(next, u) <= Room(t, u) && ((exists p :: p in out && p.to == u) ==> Room(next, u) < Room(t, u))
  {
    AtMostAllSent(next, u);
    if u in TreePeers(t) {
      assert IsAdvert(send[u], t, own, u);
      if u in t.send { GainsBits(send[u], t.send[u]); }
    } else {
      assert SameAt(send, t.send, u);
    }
  }

  // ---------------------------------------------------------------- runs

  /** What does not change: the views, the tree, its root, and each node's own probes. */
  datatype Site = Site(net: map<Key, NodeView>, tree: Infos, root: Key, probes: Key -> Probes)

  /** The tables, and what is under way from one node to another, oldest first. */
  datatype Gossip = Gossip(tables: Key -> Tables, lanes: (Key, Key) -> seq<seq<Byte>>)

  datatype Step = Pass(at: Key, next: Tables, out: seq<Packet>) | Arrive(from: Key, to: Key)

  function PacketsTo(out: seq<Packet>, u: Key): seq<seq<Byte>> {
    if out == [] then []
    else PacketsTo(out[..|out| - 1], u) + (if out[|out| - 1].to == u then [out[|out| - 1].bytes] else [])
  }

  lemma {:induction false} PacketsToMeans(out: seq<Packet>, u: Key, bs: seq<Byte>)
    ensures bs in PacketsTo(out, u) <==> Packet(u, bs) in out
  {
    if out != [] {
      var front, last := out[..|out| - 1], out[|out| - 1];
      assert out == front + [last];
      PacketsToMeans(front, u, bs);
    }
  }

  lemma {:induction false} NothingTo(out: seq<Packet>, u: Key)
    requires forall p :: p in out ==> p.to != u
    ensures PacketsTo(out, u) == []
  {
    if out != [] {
      assert out[|out| - 1] in out;
      NothingTo(out[..|out| - 1], u);
    }
  }

  ghost predicate Can(e: Site, g: Gossip, s: Step) {
    match s
    case Pass(v, next, out) =>
      && v in e.tree && v in e.net
      && Maintained(g.tables(v), e.net[v].infos, v, e.probes(v), LinkedPeers(e.net[v]), next, out)
    case Arrive(v, u) => v in e.tree && u in e.tree && Neighbours(e.tree, u, v) && g.lanes(v, u) != []
  }

  function After(g: Gossip, s: Step): Gossip {
    match s
    case Pass(v, next, out) =>
      Gossip(With(g.tables, v, next),
             (x: Key, y: Key) => if x == v then g.lanes(x, y) + PacketsTo(out, y) else g.lanes(x, y))
    case Arrive(v, u) =>
      if g.lanes(v, u) == [] then g
      else
        Gossip(With(g.tables, u, Handled(g.tables(u), v, g.lanes(v, u)[0])),
               (x: Key, y: Key) => if x == v && y == u then g.lanes(x, y)[1..] else g.lanes(x, y))
  }

  ghost predicate IsRun(e: Site, g: Gossip, steps: seq<Step>)
    decreases |steps|
  {
    steps == [] || (Can(e, g, steps[0]) && IsRun(e, After(g, steps[0]), steps[1..]))
  }

  function End(g: Gossip, steps: seq<Step>): Gossip
    decreases |steps|
  {
    if steps == [] then g else End(After(g, steps[0]), steps[1..])
  }

  // ---------------------------------------------------------------- what every step keeps

  /** The newest word: the last packet under way, or what has been heard. */
  function Latest(lane: seq<seq<Byte>>, heard: Filter): Option<Filter> {
    if lane == [] then Some(heard) else Decode(lane[|lane| - 1])
  }

  /** The newest word from `v` to `u` is what `v` has on record as sent. */
  predicate InStep(tv: Tables, tu: Tables, lane: seq<seq<Byte>>, v: Key, u: Key) {
    v in tu.recv && u in tv.send && Latest(lane, tu.recv[v]) == Some(tv.send[u])
  }

  ghost predicate FixedAt(e: Site, tables: Key -> Tables, u: Key) {
    u in e.net && TablesFixed(e.net[u], tables(u), e.tree, u)
  }

  ghost predicate AllFixed(e: Site, tables: Key -> Tables) {
    forall u {:trigger FixedAt(e, tables, u)} :: u in e.tree ==> FixedAt(e, tables, u)
  }

  ghost predicate AllInStep(e: Site, g: Gossip) {
    forall u, v {:trigger Neighbours(e.tree, u, v)} :: u in e.tree && v in e.tree && Neighbours(e.tree, u, v) ==>
      InStep(g.tables(v), g.tables(u), g.lanes(v, u), v, u)
  }

  ghost predicate Inv(e: Site, g: Gossip) {
    IsTree(e.tree, e.root) && AllFixed(e, g.tables) && AllInStep(e, g)
  }

  /** So it is when flags are fixed, all that was sent has been heard and nothing is under
      way, as when all peers have just been added. */
  lemma StartsInStep(e: Site, g: Gossip)
    requires IsTree(e.tree, e.root) && AllFixed(e, g.tables) && AllHeard(g.tables, e.tree)
    requires forall u, v :: g.lanes(u, v) == []
    ensures Inv(e, g)
  {
  }

  lemma PassInStep(t: Tables, own: Probes, linked: set<Key>, next: Tables, out: seq<Packet>, tu: Tables,
                   lane: seq<seq<Byte>>, v: Key, u: Key)
    requires Advertised(t, own, linked, TreePeers(t), next.send, out) && OnTree(t, u) && u in linked
    requires InStep(t, tu, lane, v, u)
    ensures InStep(next, tu, lane + PacketsTo(out, u), v, u)
  {
    var more := PacketsTo(out, u);
    assert u in TreePeers(t);
    if SameAt(next.send, t.send, u) {
      NothingTo(out, u);
      assert lane + more == lane;
    } else {
      var p := Packet(u, Encode(next.send[u]));
      assert p in out;
      PacketsToMeans(out, u, p.bytes);
      PacketsToMeans(out, u, more[|more| - 1]);
      FilterRoundTrip(next.send[u]);
    }
  }

  lemma ArrivalInStep(tv: Tables, tu: Tables, lane: seq<seq<Byte>>, v: Key, u: Key)
    requires InStep(tv, tu, lane, v, u) && lane != []
    ensures InStep(tv, Handled(tu, v, lane[0]), lane[1..], v, u)
  {
  }

  /** Handling what `v` sent touches nothing else at `u`. */
  lemma ArrivalElsewhere(tu: Tables, v: Key, bs: seq<Byte>)
    ensures var t := Handled(tu, v, bs);
            && t.send == tu.send && t.onTree == tu.onTree && t.recv.Keys == tu.recv.Keys
            && (forall w :: w in tu.recv && w != v ==> t.recv[w] == tu.recv[w])
  {
  }

  lemma PassEdge(e: Site, g: Gossip, s: Step, u: Key, w: Key)
    requires Inv(e, g) && Can(e, g, s) && s.Pass? && u in e.tree && w in e.tree && Neighbours(e.tree, u, w)
    requires s.next.recv == g.tables(s.at).recv
    ensures var n := After(g, s); InStep(n.tables(w), n.tables(u), n.lanes(w, u), w, u)
  {
    assert InStep(g.tables(w), g.tables(u), g.lanes(w, u), w, u);
    if w == s.at {
      var t, view := g.tables(w), e.net[w];
      assert FixedAt(e, g.tables, w) && Neighbours(e.tree, w, u);
      FlagsAreNeighbours(view, t, e.tree, e.root, w, u);
      NeighbourIsLinked(view, e.tree, w, u);
      UpkeepAt(view, t, e.tree, e.probes(w), w, s.next, s.out);
      PassInStep(t, e.probes(w), LinkedPeers(view), s.next, s.out, g.tables(u), g.lanes(w, u), w, u);
    }
  }

  lemma PassKeeps(e: Site, g: Gossip, s: Step)
    requires Inv(e, g) && Can(e, g, s) && s.Pass?
    ensures Inv(e, After(g, s))
  {
    var n, v := After(g, s), s.at;
    assert FixedAt(e, g.tables, v);
    UpkeepAt(e.net[v], g.tables(v), e.tree, e.probes(v), v, s.next, s.out);
    forall u, w | u in e.tree && w in e.tree && Neighbours(e.tree, u, w)
      ensures InStep(n.tables(w), n.tables(u), n.lanes(w, u), w, u)
    {
      PassEdge(e, g, s, u, w);
    }
    forall u | u in e.tree ensures FixedAt(e, n.tables, u) { assert FixedAt(e, g.tables, u); }
  }

  lemma ArrivalEdge(e: Site, g: Gossip, s: Step, u: Key, w: Key)
    requires Inv(e, g) && Can(e, g, s) && s.Arrive? && u in e.tree && w in e.tree && Neighbours(e.tree, u, w)
    ensures var n := After(g, s); InStep(n.tables(w), n.tables(u), n.lanes(w, u), w, u)
  {
    assert InStep(g.tables(w), g.tables(u), g.lanes(w, u), w, u);
    ArrivalElsewhere(g.tables(s.to), s.from, g.lanes(s.from, s.to)[0]);
    if u == s.to && w == s.from { ArrivalInStep(g.tables(w), g.tables(u), g.lanes(w, u), w, u); }
  }

  lemma ArrivalKeeps(e: Site, g: Gossip, s: Step)
    requires Inv(e, g) && Can(e, g, s) && s.Arrive?
    ensures Inv(e, After(g, s))
  {
    var n := After(g, s);
    ArrivalElsewhere(g.tables(s.to), s.from, g.lanes(s.from, s.to)[0]);
    forall u, w | u in e.tree && w in e.tree && Neighbours(e.tree, u, w)
      ensures InStep(n.tables(w), n.tables(u), n.lanes(w, u), w, u)
    {
      ArrivalEdge(e, g, s, u, w);
    }
    forall u | u in e.tree ensures FixedAt(e, n.tables, u) { assert FixedAt(e, g.tables, u); }
  }

  // ---------------------------------------------------------------- how much is sent

  type Edges = seq<(Key, Key)>

  function RoomOn(tables: Key -> Tables, edges: Edges): nat {
    if edges == [] then 0 else Room(tables(edges[0].0), edges[0].1) + RoomOn(tables, edges[1..])
  }

  /** Does the pass send on one of these edges? */
  predicate SendsOn(s: Step, edges: Edges) {
    s.Pass? && exists i, j :: 0 <= i < |edges| && 0 <= j < |s.out| && edges[i] == (s.at, s.out[j].to)
  }

  function Sendings(steps: seq<Step>, edges: Edges): nat {
    if steps == [] then 0 else (if SendsOn(steps[0], edges) then 1 else 0) + Sendings(steps[1..], edges)
  }

  predicate Shrinks(before: Key -> Tables, after: Key -> Tables, e: (Key, Key)) {
    Room(after(e.0), e.1) < Room(before(e.0), e.1)
  }

  lemma {:induction false} RoomShrinks(before: Key -> Tables, after: Key -> Tables, edges: Edges)
    requires forall v, u :: Room(after(v), u) <= Room(before(v), u)
    ensures RoomOn(after, edges) <= RoomOn(before, edges)
    ensures (exists i :: 0 <= i < |edges| && Shrinks(before, after, edges[i])) ==>
              RoomOn(after, edges) < RoomOn(before, edges)
  {
    if edges != [] {
      RoomShrinks(before, after, edges[1..]);
      if i :| 0 <= i < |edges| && Shrinks(before, after, edges[i]) {
        if i > 0 { assert edges[1..][i - 1] == edges[i]; }
      }
    }
  }

  lemma PassRooms(tables: Key -> Tables, v: Key, own: Probes, linked: set<Key>, next: Tables, out: seq<Packet>,
                  edges: Edges)
    requires Advertised(tables(v), own, linked, TreePeers(tables(v)), next.send, out)
    ensures RoomOn(With(tables, v, next), edges) + (if SendsOn(Pass(v, next, out), edges) then 1 else 0)
            <= RoomOn(tables, edges)
  {
    var after, t := With(tables, v, next), tables(v);
    forall x, u ensures Room(after(x), u) <= Room(tables(x), u) { PassRoom(t, own, linked, next.send, out, next, u); }
    if SendsOn(Pass(v, next, out), edges) {
      var i, j :| 0 <= i < |edges| && 0 <= j < |out| && edges[i] == (v, out[j].to);
      assert out[j] in out;
      PassRoom(t, own, linked, next.send, out, next, out[j].to);
      assert Shrinks(tables, after, edges[i]);
    }
    RoomShrinks(tables, after, edges);
  }

  lemma StepRoom(e: Site, g: Gossip, s: Step, edges: Edges)
    requires Inv(e, g) && Can(e, g, s)
    ensures RoomOn(After(g, s).tables, edges) + (if SendsOn(s, edges) then 1 else 0) <= RoomOn(g.tables, edges)
  {
    match s
    case Arrive(v, u) =>
      ArrivalElsewhere(g.tables(u), v, g.lanes(v, u)[0]);
      RoomShrinks(g.tables, After(g, s).tables, edges);
    case Pass(v, next, out) =>
      assert FixedAt(e, g.tables, v);
      UpkeepAt(e.net[v], g.tables(v), e.tree, e.probes(v), v, next, out);
      PassRooms(g.tables, v, e.probes(v), LinkedPeers(e.net[v]), next, out, edges);
  }

  /** Over every run: filters sent on any set of edges use up their room, and the invariant
      is kept. */
  lemma {:induction false} RunUsesRoom(e: Site, g: Gossip, steps: seq<Step>, edges: Edges)
    requires Inv(e, g) && IsRun(e, g, steps)
    ensures Inv(e, End(g, steps))
    ensures Sendings(steps, edges) + RoomOn(End(g, steps).tables, edges) <= RoomOn(g.tables, edges)
    decreases |steps|
  {
    if steps != [] {
      StepRoom(e, g, steps[0], edges);
      if steps[0].Pass? { PassKeeps(e, g, steps[0]); } else { ArrivalKeeps(e, g, steps[0]); }
      RunUsesRoom(e, After(g, steps[0]), steps[1..], edges);
    }
  }

  lemma {:induction false} RoomIsBounded(e: Site, g: Gossip, edges: Edges)
    requires AllInStep(e, g)
    requires forall i :: 0 <= i < |edges| ==>
               edges[i].0 in e.tree && edges[i].1 in e.tree && Neighbours(e.tree, edges[i].1, edges[i].0)
    ensures RoomOn(g.tables, edges) <= BITS * |edges|
  {
    if edges != [] {
      var (v, u) := edges[0];
      assert InStep(g.tables(v), g.tables(u), g.lanes(v, u), v, u);
      RoomIsBounded(e, g, edges[1..]);
    }
  }

  // ---------------------------------------------------------------- at rest

  /** Nothing is under way on the tree, and maintenance at any node sends nothing. */
  ghost predicate AtRest(e: Site, g: Gossip) {
    && (forall u, v {:trigger Neighbours(e.tree, u, v)} :: u in e.tree && v in e.tree && Neighbours(e.tree, u, v) ==>
          g.lanes(v, u) == [])
    && (forall v {:trigger e.net[v]} :: v in e.tree && v in e.net ==>
          exists next :: Maintained(g.tables(v), e.net[v].infos, v, e.probes(v), LinkedPeers(e.net[v]), next, []))
  }

  /** Maintenance that sends nothing changes nothing. */
  lemma SilentIsStill(view: NodeView, t: Tables, tree: Infos, root: Key, own: Probes, v: Key, next: Tables)
    requires IsTree(tree, root) && v in tree && TablesFixed(view, t, tree, v)
    requires Maintained(t, view.infos, v, own, LinkedPeers(view), next, [])
    ensures next == t
  {
    UpkeepAt(view, t, tree, own, v, next, []);
    forall k
      ensures (k in next.send <==> k in t.send) && (k in t.send ==> next.send[k] == t.send[k])
    {
      if k in TreePeers(t) {
        FlagsAreNeighbours(view, t, tree, root, v, k);
        NeighbourIsLinked(view, tree, v, k);
        var p := Packet(k, Encode(next.send[k]));
        assert p !in [];
        assert SameAt(next.send, t.send, p.to);
      } else {
        assert SameAt(next.send, t.send, k);
      }
    }
    assert next.send == t.send;
  }

  lemma RestIsSettled(e: Site, g: Gossip)
    requires Settled(e.net, e.tree, e.root) && Inv(e, g) && AtRest(e, g)
    ensures BloomSettled(e.net, g.tables, e.tree, e.root, e.probes)
  {
    forall v | v in e.tree && v in e.net
      ensures exists out ::
                Maintained(g.tables(v), e.net[v].infos, v, e.probes(v), LinkedPeers(e.net[v]), g.tables(v), out)
    {
      assert FixedAt(e, g.tables, v);
      var next :| Maintained(g.tables(v), e.net[v].infos, v, e.probes(v), LinkedPeers(e.net[v]), next, []);
      SilentIsStill(e.net[v], g.tables(v), e.tree, e.root, e.probes(v), v, next);
    }
    forall u, v | u in e.tree && v in e.tree && Neighbours(e.tree, u, v)
      ensures v in g.tables(u).recv && u in g.tables(v).send && g.tables(u).recv[v] == g.tables(v).send[u]
    {
      assert InStep(g.tables(v), g.tables(u), g.lanes(v, u), v, u);
    }
    forall u | u in e.tree ensures u in e.net && TablesFixed(e.net[u], g.tables(u), e.tree, u) {
      assert FixedAt(e, g.tables, u);
    }
    QuietIsSettled(e.net, g.tables, e.tree, e.root, e.probes);
  }

  /** Filters settle. Start with fixed flags, nothing under way and everything sent heard,
      as when all peers have just been added. Over every run of maintenance and handling,
      in any order, at most 8192 passes send on any one directed edge of the tree, and at
      most 8192 times as many as there are edges send at all; and whenever the run has come
      to rest, the filters have settled. */
  lemma FiltersSettle(e: Site, g: Gossip, steps: seq<Step>, edges: Edges)
    requires Settled(e.net, e.tree, e.root) && Inv(e, g) && IsRun(e, g, steps)
    requires forall i :: 0 <= i < |edges| ==>
               edges[i].0 in e.tree && edges[i].1 in e.tree && Neighbours(e.tree, edges[i].1, edges[i].0)
    ensures Sendings(steps, edges) <= BITS * |edges|
    ensures AtRest(e, End(g, steps)) ==> BloomSettled(e.net, End(g, steps).tables, e.tree, e.root, e.probes)
  {
    RunUsesRoom(e, g, steps, edges);
    RoomIsBounded(e, g, edges);
    if AtRest(e, End(g, steps)) { RestIsSettled(e, End(g, steps)); }
  }
}

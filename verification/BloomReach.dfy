/** Bloom-guided lookups over a whole tree (`src/bloom.rs`, `src/pathfind.rs`): once the
    advertised filters have settled, a lookup visits no node twice, ends, and has then
    visited every node whose transformed key is the one looked for. */
module BloomReach {
  import opened Basics
  import opened ParentWalks
  import opened GreedyRouting
  import opened TreeDelivery
  import opened BloomFilters
  import opened BloomTables
  import BloomHash
  import opened Addresses
  import opened TrafficCodec
  import opened LookupCodec
  import opened WireDelivery
  import Frames

  // ---------------------------------------------------------------- a tree seen from one node

  /** `back` is each node's neighbour on the way to `start`. */
  datatype Shape = Shape(nodes: set<Key>, edge: (Key, Key) -> bool, start: Key, back: Key -> Key, depth: Key -> nat)
  {
    ghost predicate Valid() {
      && start in nodes
      && (forall v {:trigger back(v)} :: v in nodes && v != start ==>
            back(v) in nodes && edge(back(v), v) && edge(v, back(v)) && depth(back(v)) < depth(v))
      && (forall u, v :: u in nodes && v in nodes && edge(u, v) ==>
            (v != start && back(v) == u) || (u != start && back(u) == v))
    }
  }

  // ---------------------------------------------------------------- the mesh

  /** What a lookup meets on its way: each node's filter tables and linked peers, what a
      link makes of a message, and the probes a message asks for. */
  datatype Mesh<!M> = Mesh(tables: Key -> Tables, linked: Key -> set<Key>, wire: M -> Option<M>, want: M -> Probes)

  /** Every node's flags name its neighbours, each of them is linked, and what it heard
      from each is the filter that neighbour has for it. */
  ghost predicate FiltersSettled<M>(g: Shape, r: Mesh<M>, probes: Key -> Probes) {
    forall u, v {:trigger g.edge(u, v)} {:trigger OnTree(r.tables(u), v)} :: u in g.nodes ==>
      EdgeSettled(r.tables(u), r.tables(v), probes(v), u, v, v in g.nodes && g.edge(u, v), v in r.linked(u))
  }

  ghost predicate EdgeSettled(tu: Tables, tv: Tables, own: Probes, u: Key, v: Key, near: bool, linked: bool) {
    (OnTree(tu, v) <==> near) && (near ==> linked && v in tu.recv && IsAdvert(tu.recv[v], tv, own, u))
  }

  // ---------------------------------------------------------------- the flood

  /** A message on its way from one node to another. */
  datatype Copy<M> = Copy(from: Key, to: Key, msg: M)

  /** The copies on their way, and the nodes that have handled one, in order. */
  datatype Flood<M(==)> = Flood(flight: multiset<Copy<M>>, log: seq<Key>)

  /** Whom a node sends a message to: what `BloomTables.BloomState.Multicast` lists. */
  function Goals<M>(r: Mesh<M>, u: Key, from: Key, m: M): set<Key> {
    Targets(r.tables(u), from, r.want(m)) * r.linked(u)
  }

  ghost function Sends<M>(r: Mesh<M>, u: Key, from: Key, m: M): set<Copy<M>> {
    set w | w in Goals(r, u, from, m) :: Copy(u, w, m)
  }

  /** The node that starts a lookup handles it as its own. */
  ghost function Started<M>(r: Mesh<M>, m: M, start: Key): Flood<M> {
    Flood(multiset(Sends(r, start, start, m)), [start])
  }

  /** One copy arrives. If it can be read, the node sends what it read on to all
      interested peers but its sender; otherwise it is dropped. */
  ghost function Delivered<M>(r: Mesh<M>, f: Flood<M>, h: Copy<M>): Flood<M> {
    var got := r.wire(h.msg);
    if got.None? then f.(flight := f.flight - multiset{h})
    else Flood(f.flight - multiset{h} + multiset(Sends(r, h.to, h.from, got.value)), f.log + [h.to])
  }

  ghost predicate SomeArrival<M(!new)>(r: Mesh<M>, f: Flood<M>, n: Flood<M>) {
    exists h :: h in f.flight && n == Delivered(r, f, h)
  }

  ghost function ArrivalIn<M(!new)>(r: Mesh<M>): (Flood<M>, Flood<M>) -> bool {
    (f: Flood<M>, n: Flood<M>) => SomeArrival(r, f, n)
  }

  /** Copies arrive in any order. */
  ghost predicate IsRun<M(!new)>(r: Mesh<M>, m: M, start: Key, trace: seq<Flood<M>>) {
    |trace| > 0 && trace[0] == Started(r, m, start) && Steps(ArrivalIn(r), trace)
  }

  ghost predicate Steps<M>(next: (Flood<M>, Flood<M>) -> bool, trace: seq<Flood<M>>) {
    forall i {:trigger StepAt(next, trace, i)} :: 0 <= i < |trace| - 1 ==> StepAt(next, trace, i)
  }

  ghost predicate StepAt<M>(next: (Flood<M>, Flood<M>) -> bool, trace: seq<Flood<M>>, i: nat)
    requires i < |trace| - 1
  {
    next(trace[i], trace[i + 1])
  }

  /** What holds at the start and is kept by every step holds all along. */
  lemma {:induction false} KeptAllAlong<M(!new)>(next: (Flood<M>, Flood<M>) -> bool, trace: seq<Flood<M>>,
                                                 inv: (Flood<M>, nat) -> bool, i: nat)
    requires i < |trace| && inv(trace[0], 0) && Steps(next, trace)
    requires forall f, n, j: nat {:trigger inv(f, j), next(f, n)} :: inv(f, j) && next(f, n) ==> inv(n, j + 1)
    ensures inv(trace[i], i)
    decreases i
  {
    if i > 0 {
      KeptAllAlong(next, trace, inv, i - 1);
      assert StepAt(next, trace, i - 1);
    }
  }

  // ---------------------------------------------------------------- a message that gets over links

  /** The message as the starter sends it, and as everyone after the first link does. */
  datatype Cast<M> = Cast(first: M, later: M)

  ghost predicate GetsOver<M>(r: Mesh<M>, c: Cast<M>) {
    r.wire(c.first) == Some(c.later) && r.wire(c.later) == Some(c.later) && r.want(c.later) == r.want(c.first)
  }

  function Says<M>(g: Shape, c: Cast<M>, u: Key): M {
    if u == g.start then c.first else c.later
  }

  function Sender(g: Shape, u: Key): Key {
    if u == g.start then u else g.back(u)
  }

  ghost predicate InFlightOk<M>(g: Shape, c: Cast<M>, f: Flood<M>, h: Copy<M>) {
    && f.flight[h] == 1 && h.msg == Says(g, c, h.from)
    && h.to in g.nodes && h.to != g.start && g.back(h.to) == h.from && h.from in f.log && h.to !in f.log
  }

  ghost predicate LogOk(g: Shape, log: seq<Key>) {
    && Distinct(log) && g.start in log
    && (forall v :: v in log ==> v in g.nodes)
    && (forall v {:trigger g.back(v)} :: v in log && v != g.start ==> g.back(v) in log)
  }

  ghost predicate Complete<M>(g: Shape, r: Mesh<M>, c: Cast<M>, f: Flood<M>) {
    forall u, w :: u in f.log && w in Goals(r, u, Sender(g, u), Says(g, c, u)) ==>
                     w in f.log || Copy(u, w, Says(g, c, u)) in f.flight
  }

  ghost predicate Inv<M(!new)>(g: Shape, r: Mesh<M>, c: Cast<M>, f: Flood<M>) {
    && LogOk(g, f.log) && Complete(g, r, c, f) && Wanted(g, r, c, f)
    && (forall h :: h in f.flight ==> InFlightOk(g, c, f, h))
  }

  /** What `u` heard from `v` tests positive for the target. */
  predicate AskedFor<M>(r: Mesh<M>, c: Cast<M>, u: Key, v: Key) {
    v in r.tables(u).recv && Test(r.tables(u).recv[v], r.want(c.first))
  }

  /** Copies are under way, and have come, only over edges whose filter asks for them. */
  ghost predicate Wanted<M(!new)>(g: Shape, r: Mesh<M>, c: Cast<M>, f: Flood<M>) {
    && (forall h :: h in f.flight ==> AskedFor(r, c, h.from, h.to))
    && (forall v {:trigger g.back(v)} :: v in f.log && v != g.start ==> AskedFor(r, c, g.back(v), v))
  }

  /** A node sends only away from the start. */
  lemma SendsOutward<M>(g: Shape, r: Mesh<M>, probes: Key -> Probes, m: M, u: Key, w: Key)
    requires g.Valid() && FiltersSettled(g, r, probes) && u in g.nodes
    requires w in Goals(r, u, Sender(g, u), m)
    ensures w in g.nodes && w != g.start && g.back(w) == u && w != u
  {
    assert OnTree(r.tables(u), w);
    assert g.edge(u, w);
    assert u != g.start ==> g.depth(g.back(u)) < g.depth(u);
  }

  lemma StartIsWanted<M(!new)>(g: Shape, r: Mesh<M>, c: Cast<M>)
    ensures Wanted(g, r, c, Started(r, c.first, g.start)) && Complete(g, r, c, Started(r, c.first, g.start))
  {
    var f := Started(r, c.first, g.start);
    forall h | h in f.flight ensures AskedFor(r, c, h.from, h.to) {
      assert h.to in Goals(r, g.start, g.start, c.first);
    }
  }

  lemma StartIsInFlight<M(!new)>(g: Shape, r: Mesh<M>, probes: Key -> Probes, c: Cast<M>, h: Copy<M>)
    requires g.Valid() && FiltersSettled(g, r, probes) && h in Started(r, c.first, g.start).flight
    ensures InFlightOk(g, c, Started(r, c.first, g.start), h)
  {
    SendsOutward(g, r, probes, c.first, g.start, h.to);
  }

  lemma StartKeepsInv<M(!new)>(g: Shape, r: Mesh<M>, probes: Key -> Probes, c: Cast<M>)
    requires g.Valid() && FiltersSettled(g, r, probes)
    ensures Inv(g, r, c, Started(r, c.first, g.start))
  {
    var f := Started(r, c.first, g.start);
    StartIsWanted(g, r, c);
    forall h | h in f.flight ensures InFlightOk(g, c, f, h) { StartIsInFlight(g, r, probes, c, h); }
  }

  lemma DeliveryKeepsLog(g: Shape, log: seq<Key>, v: Key)
    requires LogOk(g, log) && v in g.nodes && v !in log && v != g.start && g.back(v) in log
    ensures LogOk(g, log + [v])
  {
  }

  lemma ReadAs<M>(g: Shape, r: Mesh<M>, c: Cast<M>, f: Flood<M>, h: Copy<M>)
    requires GetsOver(r, c) && InFlightOk(g, c, f, h)
    ensures Delivered(r, f, h)
            == Flood(f.flight - multiset{h} + multiset(Sends(r, h.to, h.from, c.later)), f.log + [h.to])
  {
  }

  /** A copy that stays in flight, and a copy that joins it. */
  lemma OldCopyOk<M>(g: Shape, r: Mesh<M>, c: Cast<M>, f: Flood<M>, h: Copy<M>, k: Copy<M>)
    requires GetsOver(r, c) && InFlightOk(g, c, f, h) && InFlightOk(g, c, f, k) && k.from != h.to && k != h
    ensures InFlightOk(g, c, Delivered(r, f, h), k)
  {
    ReadAs(g, r, c, f, h);
    var n := Delivered(r, f, h);
    assert k !in Sends(r, h.to, h.from, c.later);
    assert n.flight[k] == f.flight[k];
    assert k.to == h.to ==> k == h;
  }

  lemma NewCopyOk<M>(g: Shape, r: Mesh<M>, c: Cast<M>, f: Flood<M>, h: Copy<M>, k: Copy<M>)
    requires GetsOver(r, c) && LogOk(g, f.log) && InFlightOk(g, c, f, h) && k !in f.flight
    requires k in Sends(r, h.to, h.from, c.later)
    requires k.to in g.nodes && k.to != g.start && g.back(k.to) == h.to && k.to != h.to
    ensures InFlightOk(g, c, Delivered(r, f, h), k)
  {
    ReadAs(g, r, c, f, h);
  }

  lemma DeliveryKeepsFlight<M(!new)>(g: Shape, r: Mesh<M>, probes: Key -> Probes, c: Cast<M>, f: Flood<M>, h: Copy<M>,
                                     k: Copy<M>)
    requires g.Valid() && FiltersSettled(g, r, probes) && GetsOver(r, c) && Inv(g, r, c, f) && h in f.flight
    requires k in Delivered(r, f, h).flight
    ensures InFlightOk(g, c, Delivered(r, f, h), k)
  {
    assert InFlightOk(g, c, f, h);
    ReadAs(g, r, c, f, h);
    if k.from == h.to {
      assert k in f.flight ==> InFlightOk(g, c, f, k);
      SendsOutward(g, r, probes, c.later, h.to, k.to);
      NewCopyOk(g, r, c, f, h, k);
    } else {
      assert k in f.flight && InFlightOk(g, c, f, k);
      OldCopyOk(g, r, c, f, h, k);
    }
  }

  lemma DeliveryKeepsWanted<M(!new)>(g: Shape, r: Mesh<M>, c: Cast<M>, f: Flood<M>, h: Copy<M>)
    requires GetsOver(r, c) && Wanted(g, r, c, f) && h in f.flight && InFlightOk(g, c, f, h)
    ensures Wanted(g, r, c, Delivered(r, f, h))
  {
    ReadAs(g, r, c, f, h);
    var n := Delivered(r, f, h);
    forall k | k in n.flight ensures AskedFor(r, c, k.from, k.to) {
      if k !in f.flight {
        assert k in Sends(r, h.to, h.from, c.later);
        assert k.to in Goals(r, h.to, h.from, c.later);
      }
    }
    assert AskedFor(r, c, h.from, h.to);
  }

  lemma DeliveryKeepsComplete<M>(g: Shape, r: Mesh<M>, c: Cast<M>, f: Flood<M>, h: Copy<M>)
    requires GetsOver(r, c) && Complete(g, r, c, f) && h in f.flight && InFlightOk(g, c, f, h)
    ensures Complete(g, r, c, Delivered(r, f, h))
  {
    ReadAs(g, r, c, f, h);
    var n := Delivered(r, f, h);
    forall u, w | u in n.log && w in Goals(r, u, Sender(g, u), Says(g, c, u))
      ensures w in n.log || Copy(u, w, Says(g, c, u)) in n.flight
    {
      if u == h.to {
        assert Copy(u, w, c.later) in Sends(r, h.to, h.from, c.later);
      } else {
        assert u in f.log;
      }
    }
  }

  lemma StepKeepsInv<M(!new)>(g: Shape, r: Mesh<M>, probes: Key -> Probes, c: Cast<M>, f: Flood<M>, n: Flood<M>)
    requires g.Valid() && FiltersSettled(g, r, probes) && GetsOver(r, c) && Inv(g, r, c, f) && SomeArrival(r, f, n)
    ensures Inv(g, r, c, n) && |n.log| == |f.log| + 1
  {
    var h :| h in f.flight && n == Delivered(r, f, h);
    assert InFlightOk(g, c, f, h);
    ReadAs(g, r, c, f, h);
    DeliveryKeepsLog(g, f.log, h.to);
    DeliveryKeepsComplete(g, r, c, f, h);
    DeliveryKeepsWanted(g, r, c, f, h);
    forall k | k in n.flight ensures InFlightOk(g, c, n, k) { DeliveryKeepsFlight(g, r, probes, c, f, h, k); }
  }

  /** The invariant, and that every step so far has visited one more node. */
  ghost function InvOf<M(!new)>(g: Shape, r: Mesh<M>, c: Cast<M>): (Flood<M>, nat) -> bool {
    (f: Flood<M>, i: nat) => Inv(g, r, c, f) && |f.log| == i + 1
  }

  /** The hypotheses as a value, so that they stay folded. */
  ghost function Ready<M>(g: Shape, r: Mesh<M>, probes: Key -> Probes, c: Cast<M>): () -> bool {
    () => g.Valid() && FiltersSettled(g, r, probes) && GetsOver(r, c)
  }

  lemma ArrivalKeepsInv<M(!new)>(g: Shape, r: Mesh<M>, probes: Key -> Probes, c: Cast<M>, ready: () -> bool,
                                 inv: (Flood<M>, nat) -> bool, next: (Flood<M>, Flood<M>) -> bool, f: Flood<M>,
                                 n: Flood<M>, j: nat)
    requires ready == Ready(g, r, probes, c) && inv == InvOf(g, r, c) && next == ArrivalIn(r)
    requires ready() && inv(f, j) && next(f, n)
    ensures inv(n, j + 1)
  {
    StepKeepsInv(g, r, probes, c, f, n);
  }

  lemma ArrivalsKeepInv<M(!new)>(g: Shape, r: Mesh<M>, probes: Key -> Probes, c: Cast<M>, ready: () -> bool,
                                 inv: (Flood<M>, nat) -> bool, next: (Flood<M>, Flood<M>) -> bool)
    requires ready == Ready(g, r, probes, c) && inv == InvOf(g, r, c) && next == ArrivalIn(r) && ready()
    ensures forall f, n, j: nat {:trigger inv(f, j), next(f, n)} :: inv(f, j) && next(f, n) ==> inv(n, j + 1)
  {
    forall f, n, j: nat {:trigger inv(f, j), next(f, n)} | inv(f, j) && next(f, n) ensures inv(n, j + 1) {
      ArrivalKeepsInv(g, r, probes, c, ready, inv, next, f, n, j);
    }
  }

  /** Over every order of deliveries. */
  lemma RunKeepsInv<M(!new)>(g: Shape, r: Mesh<M>, probes: Key -> Probes, c: Cast<M>, trace: seq<Flood<M>>, i: nat)
    requires g.Valid() && FiltersSettled(g, r, probes) && GetsOver(r, c)
    requires IsRun(r, c.first, g.start, trace) && i < |trace|
    ensures InvOf(g, r, c)(trace[i], i)
  {
    var inv, next := InvOf(g, r, c), ArrivalIn(r);
    StartKeepsInv(g, r, probes, c);
    assert inv(trace[0], 0);
    ArrivalsKeepInv(g, r, probes, c, Ready(g, r, probes, c), inv, next);
    KeptAllAlong(next, trace, inv, i);
  }

  // ---------------------------------------------------------------- reach

  /** Once nothing is in flight, a node whose sender heard from it of the target was
      visited: its sender's sender heard of it too, and so on back to the start. */
  lemma {:induction false} HeardOfIsVisited<M(!new)>(g: Shape, r: Mesh<M>, probes: Key -> Probes, c: Cast<M>,
                                                     f: Flood<M>, v: Key)
    requires g.Valid() && FiltersSettled(g, r, probes) && GetsOver(r, c) && Inv(g, r, c, f) && f.flight == multiset{}
    requires v in g.nodes && v != g.start
    requires v in r.tables(g.back(v)).recv && Test(r.tables(g.back(v)).recv[v], r.want(c.first))
    ensures v in f.log
    decreases g.depth(v)
  {
    var u := g.back(v);
    assert OnTree(r.tables(u), v);
    if u != g.start {
      var p := g.back(u);
      assert g.edge(p, u) && OnTree(r.tables(p), u);
      assert p != v;
      assert PassedOn(r.tables(u), p, v);
      AdvertHolds(r.tables(p).recv[u], r.tables(u), probes(u), p, r.want(c.first));
      HeardOfIsVisited(g, r, probes, c, f, u);
    }
    assert v in Goals(r, u, Sender(g, u), Says(g, c, u));
  }

  /** Once nothing is in flight, every node with the wanted probes was visited. */
  lemma OwnersVisited<M(!new)>(g: Shape, r: Mesh<M>, probes: Key -> Probes, c: Cast<M>, f: Flood<M>, t: Key)
    requires g.Valid() && FiltersSettled(g, r, probes) && GetsOver(r, c) && Inv(g, r, c, f) && f.flight == multiset{}
    requires t in g.nodes && probes(t) == r.want(c.first)
    ensures t in f.log
  {
    if t != g.start {
      var u := g.back(t);
      assert g.edge(u, t) && OnTree(r.tables(u), t);
      AdvertHolds(r.tables(u).recv[t], r.tables(t), probes(t), u, r.want(c.first));
      HeardOfIsVisited(g, r, probes, c, f, t);
    }
  }

  lemma {:induction false} DistinctFits(log: seq<Key>, nodes: set<Key>)
    requires Distinct(log) && forall v :: v in log ==> v in nodes
    ensures |log| <= |nodes|
  {
    if log != [] {
      var rest := log[1..];
      assert forall v :: v in rest ==> v in log && v != log[0];
      DistinctFits(rest, nodes - {log[0]});
    }
  }

  /** Over every run of a message that gets over links: no node handles it twice, there
      are at most as many deliveries as nodes, and when none is left every owner has
      handled it. */
  lemma FloodReaches<M(!new)>(g: Shape, r: Mesh<M>, probes: Key -> Probes, c: Cast<M>, trace: seq<Flood<M>>)
    requires g.Valid() && FiltersSettled(g, r, probes) && GetsOver(r, c) && IsRun(r, c.first, g.start, trace)
    ensures var f := trace[|trace| - 1];
            && Distinct(f.log) && |trace| <= |g.nodes| && (forall v :: v in f.log ==> v in g.nodes)
            && (f.flight == multiset{} ==> forall t :: t in g.nodes && probes(t) == r.want(c.first) ==> t in f.log)
  {
    var f := trace[|trace| - 1];
    RunKeepsInv(g, r, probes, c, trace, |trace| - 1);
    DistinctFits(f.log, g.nodes);
    if f.flight == multiset{} {
      forall t | t in g.nodes && probes(t) == r.want(c.first) ensures t in f.log {
        OwnersVisited(g, r, probes, c, f, t);
      }
    }
  }

  // ---------------------------------------------------------------- nowhere else

  /** `w` lies behind `v`: its way back to the start leads through `v`. */
  ghost predicate Behind(g: Shape, v: Key, w: Key)
    requires g.Valid() && w in g.nodes
    decreases g.depth(w)
  {
    w == v || (w != g.start && Behind(g, v, g.back(w)))
  }

  lemma {:induction false} BehindChild(g: Shape, v: Key, k: Key, w: Key)
    requires g.Valid() && w in g.nodes && k in g.nodes && k != g.start && g.back(k) == v && Behind(g, k, w)
    ensures Behind(g, v, w)
    decreases g.depth(w)
  {
    if w != k { BehindChild(g, v, k, g.back(w)); }
  }

  /** `w` has this bit itself, or has it on record as sent towards the start. */
  predicate HasBit<M>(g: Shape, r: Mesh<M>, probes: Key -> Probes, w: Key, l: nat)
    requires l < 8192
  {
    l in probes(w) || (g.back(w) in r.tables(w).send && Bit(r.tables(w).send[g.back(w)], l))
  }

  /** Every bit heard from a node comes from a node behind it. */
  lemma {:induction false} HeardComesFromBehind<M>(g: Shape, r: Mesh<M>, probes: Key -> Probes, deepest: nat, v: Key,
                                                   l: nat) returns (w: Key)
    requires g.Valid() && FiltersSettled(g, r, probes) && forall u :: u in g.nodes ==> g.depth(u) <= deepest
    requires v in g.nodes && v != g.start && l < 8192
    requires v in r.tables(g.back(v)).recv && Bit(r.tables(g.back(v)).recv[v], l)
    ensures w in g.nodes && Behind(g, v, w) && HasBit(g, r, probes, w, l)
    decreases deepest - g.depth(v)
  {
    var u, t := g.back(v), r.tables(v);
    assert g.edge(u, v) && OnTree(r.tables(u), v);
    assert IsAdvert(r.tables(u).recv[v], t, probes(v), u);
    assert AdvertBit(t, probes(v), u, l);
    if l in probes(v) || (u in t.send && Bit(t.send[u], l)) {
      w := v;
    } else {
      var k :| PassedOn(t, u, k) && HeardBit(t, k, l);
      assert OnTree(t, k) && g.edge(v, k);
      assert k != g.start && g.back(k) == v;
      w := HeardComesFromBehind(g, r, probes, deepest, k, l);
      BehindChild(g, v, k, w);
    }
  }

  lemma {:induction false} DeepestExists(nodes: set<Key>, depth: Key -> nat) returns (deepest: nat)
    ensures forall u :: u in nodes ==> depth(u) <= deepest
  {
    if nodes == {} {
      deepest := 0;
    } else {
      var x :| x in nodes;
      var rest := DeepestExists(nodes - {x}, depth);
      deepest := if depth(x) > rest then depth(x) else rest;
      assert forall u :: u in nodes ==> u == x || u in nodes - {x};
    }
  }

  /** Some node behind `v` has this bit. */
  ghost predicate BitBehind<M>(g: Shape, r: Mesh<M>, probes: Key -> Probes, v: Key, l: nat)
    requires g.Valid() && l < 8192
  {
    exists w :: w in g.nodes && Behind(g, v, w) && HasBit(g, r, probes, w, l)
  }

  /** Over every run, a node is visited only if every bit of the target is behind it; so one
      with some bit of the target nowhere behind it never is. */
  lemma VisitedHasTarget<M(!new)>(g: Shape, r: Mesh<M>, probes: Key -> Probes, c: Cast<M>, trace: seq<Flood<M>>, v: Key,
                                  i: nat)
    requires g.Valid() && FiltersSettled(g, r, probes) && GetsOver(r, c) && IsRun(r, c.first, g.start, trace)
    requires v in trace[|trace| - 1].log && v != g.start && i < |r.want(c.first)|
    ensures BitBehind(g, r, probes, v, r.want(c.first)[i])
  {
    RunKeepsInv(g, r, probes, c, trace, |trace| - 1);
    var f, x := trace[|trace| - 1], r.want(c.first);
    assert v in g.nodes && AskedFor(r, c, g.back(v), v);
    var deepest := DeepestExists(g.nodes, g.depth);
    var w := HeardComesFromBehind(g, r, probes, deepest, v, x[i]);
  }

  // ---------------------------------------------------------------- a message that does not

  ghost function StillAt<M(!new)>(start: Key, m: M): (Flood<M>, nat) -> bool {
    (f: Flood<M>, i: nat) => f.log == [start] && forall h :: h in f.flight ==> h.msg == m
  }

  /** A message that no link carries is handled by its starter alone. */
  lemma StaysAtStart<M(!new)>(r: Mesh<M>, m: M, start: Key, trace: seq<Flood<M>>)
    requires r.wire(m).None? && IsRun(r, m, start, trace)
    ensures trace[|trace| - 1].log == [start]
  {
    var inv, next := StillAt(start, m), ArrivalIn(r);
    forall f, n, j: nat {:trigger inv(f, j), next(f, n)} | inv(f, j) && next(f, n) ensures inv(n, j + 1) {
      var h :| h in f.flight && n == Delivered(r, f, h);
    }
    KeptAllAlong(next, trace, inv, |trace| - 1);
  }

  // ---------------------------------------------------------------- the routing tree

  lemma BackExists(tree: Infos, root: Key, s: Key, v: Key) returns (u: Key)
    requires IsTree(tree, root) && s in tree && v in tree && s != v
    ensures Place(tree, s) != Place(tree, v)
    ensures u in tree && Neighbours(tree, u, v) && Place(tree, u) == Toward(Place(tree, s), Place(tree, v))
  {
    if Place(tree, s) == Place(tree, v) { CoordsInjective(tree, root, s, v); }
    if Place(tree, v) <= Place(tree, s) {
      u := ChildToward(tree, root, v, s);
    } else {
      ParentToward(tree, root, v, s);
      u := tree[v].parent;
    }
  }

  /** The node at some coordinates. */
  ghost function NodeAt(nodes: set<Key>, place: Key -> seq<Port>, c: seq<Port>): Key {
    if exists u :: u in nodes && place(u) == c then
      var u :| u in nodes && place(u) == c; u
    else 0
  }

  ghost function PlaceIn(tree: Infos): Key -> seq<Port> {
    (k: Key) => Place(tree, k)
  }

  ghost function Back(tree: Infos, s: Key, v: Key): Key {
    if Place(tree, s) == Place(tree, v) then v
    else NodeAt(tree.Keys, PlaceIn(tree), Toward(Place(tree, s), Place(tree, v)))
  }

  lemma BackIs(tree: Infos, root: Key, s: Key, v: Key, u: Key)
    requires IsTree(tree, root) && u in tree && Place(tree, s) != Place(tree, v)
    requires Place(tree, u) == Toward(Place(tree, s), Place(tree, v))
    ensures Back(tree, s, v) == u
  {
    assert PlaceIn(tree)(u) == Place(tree, u);
    var b := Back(tree, s, v);
    assert b in tree.Keys && PlaceIn(tree)(b) == Place(tree, b);
    CoordsInjective(tree, root, u, b);
  }

  lemma BackLeads(tree: Infos, root: Key, s: Key, v: Key)
    requires IsTree(tree, root) && s in tree && v in tree && s != v
    ensures var u := Back(tree, s, v);
            u in tree && Neighbours(tree, u, v) && TreeDist(tree, s, u) < TreeDist(tree, s, v)
  {
    var u := BackExists(tree, root, s, v);
    BackIs(tree, root, s, v, u);
    TowardIsCloser(Place(tree, s), Place(tree, v));
  }

  /** Of a parent and a child, one is toward any third place from the other. */
  lemma TowardEdge(s: seq<Port>, p: seq<Port>, c: seq<Port>)
    requires |c| == |p| + 1 && c[..|p|] == p
    ensures if c <= s then s != p && Toward(s, p) == c else s != c && Toward(s, c) == p
  {
    if c <= s {
      assert p <= s && s[..|p| + 1] == c;
    }
  }

  /** Of two neighbours, one lies on the other's way back to the start. */
  lemma ParentOrChildBack(tree: Infos, root: Key, s: Key, p: Key, c: Key)
    requires IsTree(tree, root) && s in tree && p in tree && ChildOf(tree, c, p)
    ensures (c != s && Back(tree, s, c) == p) || (p != s && Back(tree, s, p) == c)
  {
    CoordsStep(tree, c);
    var cs, cc, cp := Place(tree, s), Place(tree, c), Place(tree, p);
    TowardEdge(cs, cp, cc);
    if cc <= cs {
      BackIs(tree, root, s, p, c);
    } else {
      BackIs(tree, root, s, c, p);
    }
  }

  ghost function ShapeOf(tree: Infos, s: Key): Shape {
    Shape(tree.Keys, (u: Key, v: Key) => Neighbours(tree, u, v), s, (v: Key) => Back(tree, s, v),
          (v: Key) => TreeDist(tree, s, v))
  }

  lemma ShapeOfTree(tree: Infos, root: Key, s: Key)
    requires IsTree(tree, root) && s in tree
    ensures ShapeOf(tree, s).Valid()
  {
    var g := ShapeOf(tree, s);
    forall v | v in tree && v != s
      ensures var b := g.back(v); b in tree && g.edge(b, v) && g.edge(v, b) && g.depth(b) < g.depth(v)
    {
      BackLeads(tree, root, s, v);
    }
    forall u, v | u in tree && v in tree && g.edge(u, v)
      ensures (v != s && g.back(v) == u) || (u != s && g.back(u) == v)
    {
      if ChildOf(tree, u, v) {
        ParentOrChildBack(tree, root, s, v, u);
      } else {
        ParentOrChildBack(tree, root, s, u, v);
      }
    }
  }

  // ---------------------------------------------------------------- the whole network

  /** The filter probes of a node: of its transformed key. */
  function KeyProbes(key: KeyBytes): Probes {
    BloomHash.ProbesOf(XKey(key))
  }

  /** A node that knows its tree neighbours, holds their filters and has its flags
      recomputed from what it knows. */
  ghost predicate TablesFixed(view: NodeView, t: Tables, tree: Infos, u: Key) {
    && NodeSettled(view, tree, u) && u !in t.onTree && u in view.infos && FlagsFixed(t, view.infos, u)
    && (forall v {:trigger Neighbours(tree, u, v)} :: v in tree && Neighbours(tree, u, v) ==> v in t.onTree)
  }

  /** Then its flags name exactly its tree neighbours. */
  lemma FlagsAreNeighbours(view: NodeView, t: Tables, tree: Infos, root: Key, u: Key, v: Key)
    requires IsTree(tree, root) && u in tree && TablesFixed(view, t, tree, u)
    ensures OnTree(t, v) <==> v in tree && Neighbours(tree, u, v)
  {
    ParentKnown(tree, u);
    assert tree[u] == view.infos[u];
    if v in tree && Neighbours(tree, u, v) {
      assert IsRooted(view.infos, v);
      BeliefsAreTrue(view, tree, u, v);
      WalkKnown(view.infos, v, {});
      assert v in view.infos;
      assert tree[v] == view.infos[v];
    }
  }

  /** The peers a node has a recorded link to. */
  function LinkedPeers(view: NodeView): set<Key> {
    set e | e in view.entries && e.id in view.links :: e.peer
  }

  function LinksIn(net: map<Key, NodeView>): Key -> set<Key> {
    (u: Key) => if u in net then LinkedPeers(net[u]) else {}
  }

  /** A settled tree on which every node has its flags fixed and has heard from each tree
      neighbour the filter that neighbour has for it. */
  ghost predicate BloomSettled(net: map<Key, NodeView>, tables: Key -> Tables, tree: Infos, root: Key,
                               probes: Key -> Probes) {
    && Settled(net, tree, root)
    && (forall u {:trigger net[u]} :: u in tree ==> TablesFixed(net[u], tables(u), tree, u))
    && (forall u, v {:trigger Neighbours(tree, u, v)} :: u in tree && v in tree && Neighbours(tree, u, v) ==>
          v in tables(u).recv && IsAdvert(tables(u).recv[v], tables(v), probes(v), u))
  }

  lemma NeighbourIsLinked(view: NodeView, tree: Infos, u: Key, v: Key)
    requires NodeSettled(view, tree, u) && v in tree && Neighbours(tree, u, v)
    ensures v in LinkedPeers(view)
  {
    var id :| Linked(view, v, id);
    assert Entry(v, id) in view.entries;
  }

  lemma SettledEdge(net: map<Key, NodeView>, tables: Key -> Tables, tree: Infos, root: Key, probes: Key -> Probes,
                    u: Key, v: Key)
    requires BloomSettled(net, tables, tree, root, probes) && u in tree
    ensures EdgeSettled(tables(u), tables(v), probes(v), u, v, v in tree && Neighbours(tree, u, v),
                        v in LinksIn(net)(u))
  {
    assert u in net && TablesFixed(net[u], tables(u), tree, u);
    FlagsAreNeighbours(net[u], tables(u), tree, root, u, v);
    if v in tree && Neighbours(tree, u, v) { NeighbourIsLinked(net[u], tree, u, v); }
  }

  ghost predicate EdgesSettled(tables: Key -> Tables, tree: Infos, probes: Key -> Probes, linked: Key -> set<Key>) {
    forall u, v {:trigger Neighbours(tree, u, v)} {:trigger OnTree(tables(u), v)} :: u in tree ==>
      EdgeSettled(tables(u), tables(v), probes(v), u, v, v in tree && Neighbours(tree, u, v), v in linked(u))
  }

  lemma AllEdgesSettled(net: map<Key, NodeView>, tables: Key -> Tables, tree: Infos, root: Key, probes: Key -> Probes,
                        linked: Key -> set<Key>)
    requires BloomSettled(net, tables, tree, root, probes) && linked == LinksIn(net)
    ensures EdgesSettled(tables, tree, probes, linked)
  {
    forall u, v {:trigger Neighbours(tree, u, v)} {:trigger OnTree(tables(u), v)} | u in tree
      ensures EdgeSettled(tables(u), tables(v), probes(v), u, v, v in tree && Neighbours(tree, u, v), v in linked(u))
    {
      SettledEdge(net, tables, tree, root, probes, u, v);
    }
  }

  lemma SettledShape<M>(tree: Infos, probes: Key -> Probes, r: Mesh<M>, s: Key)
    requires EdgesSettled(r.tables, tree, probes, r.linked)
    ensures FiltersSettled(ShapeOf(tree, s), r, probes)
  {
    var g := ShapeOf(tree, s);
    forall u, v | u in g.nodes
      ensures EdgeSettled(r.tables(u), r.tables(v), probes(v), u, v, v in g.nodes && g.edge(u, v), v in r.linked(u))
    {
      assert g.edge(u, v) == Neighbours(tree, u, v);
    }
  }

  /** The tree, from any node, is a shape on which the flood theorem holds. */
  lemma SettledMesh<M>(net: map<Key, NodeView>, tree: Infos, root: Key, probes: Key -> Probes, r: Mesh<M>, s: Key)
    requires BloomSettled(net, r.tables, tree, root, probes) && r.linked == LinksIn(net) && s in tree
    ensures ShapeOf(tree, s).Valid() && FiltersSettled(ShapeOf(tree, s), r, probes)
  {
    ShapeOfTree(tree, root, s);
    AllEdgesSettled(net, r.tables, tree, root, probes, r.linked);
    SettledShape(tree, probes, r, s);
  }

  // ---------------------------------------------------------------- lookups

  function Visited(log: seq<Key>): set<Key> {
    set v | v in log
  }

  /** What a flood from `s` has come to: it was handled by no node twice and by known nodes
      only, and by no more nodes than there are if it gets over links; and when no copy is
      left, all `owners` have handled it if and only if it gets over links or there is no
      owner but `s`. */
  ghost predicate Reached<M>(nodes: set<Key>, s: Key, owners: set<Key>, passes: bool, trace: seq<Flood<M>>) {
    |trace| > 0 &&
    var f := trace[|trace| - 1];
    && Distinct(f.log) && Visited(f.log) <= nodes && (passes ==> |trace| <= |nodes|)
    && (f.flight == multiset{} ==> (owners <= Visited(f.log) <==> passes || owners <= {s}))
  }

  lemma ReachIff<M(!new)>(g: Shape, r: Mesh<M>, probes: Key -> Probes, c: Cast<M>, owners: set<Key>, passes: bool,
                          trace: seq<Flood<M>>)
    requires g.Valid() && FiltersSettled(g, r, probes) && IsRun(r, c.first, g.start, trace)
    requires if passes then GetsOver(r, c) else r.wire(c.first).None?
    requires owners <= g.nodes && forall t :: t in owners ==> probes(t) == r.want(c.first)
    ensures Reached(g.nodes, g.start, owners, passes, trace)
  {
    if passes {
      FloodReaches(g, r, probes, c, trace);
    } else {
      StaysAtStart(r, c.first, g.start, trace);
      assert Visited([g.start]) == {g.start};
    }
  }

  lemma ReachOne<M(!new)>(g: Shape, r: Mesh<M>, probes: Key -> Probes, c: Cast<M>, owner: Key, passes: bool,
                          trace: seq<Flood<M>>)
    requires g.Valid() && FiltersSettled(g, r, probes) && IsRun(r, c.first, g.start, trace)
    requires if passes then GetsOver(r, c) else r.wire(c.first).None?
    requires owner in g.nodes && owner != g.start && probes(owner) == r.want(c.first)
    requires trace[|trace| - 1].flight == multiset{}
    ensures owner in trace[|trace| - 1].log <==> passes
  {
    var owners := {owner};
    assert owner in owners;
    ReachIff(g, r, probes, c, owners, passes, trace);
  }

  /** The same on a settled network, from any node. */
  lemma SettledOutcome<M(!new)>(net: map<Key, NodeView>, tree: Infos, root: Key, probes: Key -> Probes, r: Mesh<M>,
                                c: Cast<M>, s: Key, owners: set<Key>, passes: bool, trace: seq<Flood<M>>)
    requires BloomSettled(net, r.tables, tree, root, probes) && r.linked == LinksIn(net) && s in tree
    requires IsRun(r, c.first, s, trace) && if passes then GetsOver(r, c) else r.wire(c.first).None?
    requires owners <= tree.Keys && forall t :: t in owners ==> probes(t) == r.want(c.first)
    ensures Reached(tree.Keys, s, owners, passes, trace)
  {
    SettledMesh(net, tree, root, probes, r, s);
    ReachIff(ShapeOf(tree, s), r, probes, c, owners, passes, trace);
  }

  /** On the tree seen from `s`, some node behind `v` has this bit. */
  ghost predicate TargetBehind<M>(tree: Infos, s: Key, r: Mesh<M>, probes: Key -> Probes, v: Key, l: nat) {
    ShapeOf(tree, s).Valid() && l < 8192 && BitBehind(ShapeOf(tree, s), r, probes, v, l)
  }

  lemma SettledVisits<M(!new)>(net: map<Key, NodeView>, tree: Infos, root: Key, probes: Key -> Probes, r: Mesh<M>,
                               c: Cast<M>, s: Key, passes: bool, trace: seq<Flood<M>>, v: Key, i: nat)
    requires BloomSettled(net, r.tables, tree, root, probes) && r.linked == LinksIn(net) && s in tree
    requires IsRun(r, c.first, s, trace) && if passes then GetsOver(r, c) else r.wire(c.first).None?
    requires v in trace[|trace| - 1].log && v != s && i < |r.want(c.first)|
    ensures TargetBehind(tree, s, r, probes, v, r.want(c.first)[i])
  {
    SettledMesh(net, tree, root, probes, r, s);
    ShapeVisits(ShapeOf(tree, s), r, probes, c, passes, trace, v, i);
  }

  lemma ShapeVisits<M(!new)>(g: Shape, r: Mesh<M>, probes: Key -> Probes, c: Cast<M>, passes: bool,
                             trace: seq<Flood<M>>, v: Key, i: nat)
    requires g.Valid() && FiltersSettled(g, r, probes) && IsRun(r, c.first, g.start, trace)
    requires if passes then GetsOver(r, c) else r.wire(c.first).None?
    requires v in trace[|trace| - 1].log && v != g.start && i < |r.want(c.first)|
    ensures BitBehind(g, r, probes, v, r.want(c.first)[i])
  {
    if passes {
      VisitedHasTarget(g, r, probes, c, trace, v, i);
    } else {
      StaysAtStart(r, c.first, g.start, trace);
    }
  }

  /** So one owner other than the starter has handled it in the end exactly if it passes. */
  lemma WantedIsFound<M(!new)>(net: map<Key, NodeView>, tree: Infos, root: Key, probes: Key -> Probes, r: Mesh<M>,
                               c: Cast<M>, s: Key, owner: Key, passes: bool, trace: seq<Flood<M>>)
    requires BloomSettled(net, r.tables, tree, root, probes) && r.linked == LinksIn(net) && s in tree
    requires IsRun(r, c.first, s, trace) && if passes then GetsOver(r, c) else r.wire(c.first).None?
    requires owner in tree && owner != s && probes(owner) == r.want(c.first)
    requires trace[|trace| - 1].flight == multiset{}
    ensures owner in trace[|trace| - 1].log <==> passes
  {
    SettledMesh(net, tree, root, probes, r, s);
    ReachOne(ShapeOf(tree, s), r, probes, c, owner, passes, trace);
  }

  /** The filter probes of a key: of its transform. */
  ghost function ProbesBy(keyOf: Key -> KeyBytes): Key -> Probes {
    (k: Key) => KeyProbes(keyOf(k))
  }

  /** What a lookup asks for; `asKey` reads the bytes of a key on the wire. */
  ghost function WantBy(asKey: KeyText -> KeyBytes): Lookup -> Probes {
    (l: Lookup) => KeyProbes(asKey(l.dest))
  }

  function LookupLinks(): Lookup -> Option<Lookup> {
    (l: Lookup) => LookupOverLink(l)
  }

  ghost function LookupMesh(net: map<Key, NodeView>, tables: Key -> Tables, asKey: KeyText -> KeyBytes): Mesh<Lookup> {
    Mesh(tables, LinksIn(net), LookupLinks(), WantBy(asKey))
  }

  function CastOf(l: Lookup): Cast<Lookup> {
    Cast(l, l.(from := BeforeZero(l.from)))
  }

  lemma LookupGetsOver(net: map<Key, NodeView>, tables: Key -> Tables, asKey: KeyText -> KeyBytes, l: Lookup)
    ensures var r := LookupMesh(net, tables, asKey);
            && (if Passes(l) then GetsOver(r, CastOf(l)) else r.wire(l).None?)
            && (r.wire(l).Some? <==> Passes(l))
  {
    LookupOverLinkIs(l);
    if Passes(l) { PassedPassesAgain(l); }
  }

  /** The nodes a lookup is for: those whose transformed key is the target's. */
  function OwnersIn(tree: Infos, keyOf: Key -> KeyBytes, target: KeyBytes): set<Key> {
    set t | t in tree && XKey(keyOf(t)) == XKey(target)
  }

  lemma OwnersWanted(tree: Infos, keyOf: Key -> KeyBytes, asKey: KeyText -> KeyBytes, l: Lookup, t: Key)
    requires t in OwnersIn(tree, keyOf, asKey(l.dest))
    ensures ProbesBy(keyOf)(t) == WantBy(asKey)(l)
  {
  }

  /** Multicast reach. A lookup from `s` is handled by no node twice and by nodes of the
      tree only, and if it gets over links it ends after fewer deliveries than there are
      nodes. When no copy is left, all nodes whose transformed key is the target's have
      handled it if and only if it gets over links or there is no such node but `s`. */
  lemma LookupReaches(net: map<Key, NodeView>, tables: Key -> Tables, tree: Infos, root: Key, keyOf: Key -> KeyBytes,
                      asKey: KeyText -> KeyBytes, s: Key, l: Lookup, trace: seq<Flood<Lookup>>)
    requires BloomSettled(net, tables, tree, root, ProbesBy(keyOf)) && s in tree
    requires IsRun(LookupMesh(net, tables, asKey), l, s, trace)
    ensures Reached(tree.Keys, s, OwnersIn(tree, keyOf, asKey(l.dest)), Passes(l), trace)
  {
    var owners := OwnersIn(tree, keyOf, asKey(l.dest));
    forall t | t in owners ensures ProbesBy(keyOf)(t) == WantBy(asKey)(l) { OwnersWanted(tree, keyOf, asKey, l, t); }
    LookupGetsOver(net, tables, asKey, l);
    SettledOutcome(net, tree, root, ProbesBy(keyOf), LookupMesh(net, tables, asKey), CastOf(l), s, owners, Passes(l),
                   trace);
  }

  /** And nowhere else: over every order of deliveries, a node other than the starter handles
      the lookup only if each bit of the target's transform belongs to some node behind it,
      seen from the starter, or was sent on from there. */
  lemma LookupVisits(net: map<Key, NodeView>, tables: Key -> Tables, tree: Infos, root: Key, probes: Key -> Probes,
                     asKey: KeyText -> KeyBytes, s: Key, l: Lookup, trace: seq<Flood<Lookup>>, v: Key, i: nat)
    requires BloomSettled(net, tables, tree, root, probes) && s in tree
    requires IsRun(LookupMesh(net, tables, asKey), l, s, trace)
    requires v in trace[|trace| - 1].log && v != s && i < |WantBy(asKey)(l)|
    ensures TargetBehind(tree, s, LookupMesh(net, tables, asKey), probes, v, WantBy(asKey)(l)[i])
  {
    LookupGetsOver(net, tables, asKey, l);
    SettledVisits(net, tree, root, probes, LookupMesh(net, tables, asKey), CastOf(l), s, Passes(l), trace, v, i);
  }

  /** With ports from the books, what counts is how deep the lookup starts. */
  lemma LookupPassesByDepth(tree: Infos, root: Key, s: Key, l: Lookup)
    requires IsTree(tree, root) && PortsGiven(tree) && s in tree && l.from == Place(tree, s)
    ensures Passes(l) <==> |Place(tree, s)| <= Frames.MAX_PATH
  {
    PlaceHasNoZero(tree, root, s);
    PassesByLength(l);
  }

  /** End to end: a lookup by an owner's address, or by any address in its /64, is in the
      end handled by the owner if and only if it was started no deeper than 128 hops; and
      the owner's transformed key is the one looked for. */
  lemma AddressLookupFindsOwner(net: map<Key, NodeView>, tables: Key -> Tables, tree: Infos, root: Key,
                                keyOf: Key -> KeyBytes, asKey: KeyText -> KeyBytes, s: Key, l: Lookup, a: Address,
                                owner: Key, trace: seq<Flood<Lookup>>)
    requires BloomSettled(net, tables, tree, root, ProbesBy(keyOf)) && PortsGiven(tree)
    requires s in tree && owner in tree && owner != s && l.from == Place(tree, s)
    requires IsAddress(a) && AddressedTo(a, keyOf(owner)) && asKey(l.dest) == LookupKeyForAddr(a)
    requires IsRun(LookupMesh(net, tables, asKey), l, s, trace) && trace[|trace| - 1].flight == multiset{}
    ensures owner in trace[|trace| - 1].log <==> |Place(tree, s)| <= Frames.MAX_PATH
    ensures XKey(asKey(l.dest)) == XKey(keyOf(owner))
  {
    AddressIsWanted(keyOf, asKey, l, a, owner);
    LookupGetsOver(net, tables, asKey, l);
    WantedIsFound(net, tree, root, ProbesBy(keyOf), LookupMesh(net, tables, asKey), CastOf(l), s, owner, Passes(l),
                  trace);
    LookupPassesByDepth(tree, root, s, l);
  }

  lemma AddressIsWanted(keyOf: Key -> KeyBytes, asKey: KeyText -> KeyBytes, l: Lookup, a: Address, owner: Key)
    requires IsAddress(a) && AddressedTo(a, keyOf(owner)) && asKey(l.dest) == LookupKeyForAddr(a)
    ensures XKey(asKey(l.dest)) == XKey(keyOf(owner)) && ProbesBy(keyOf)(owner) == WantBy(asKey)(l)
  {
    LookupMeetsOwner(keyOf(owner), a);
  }
}

/** Greedy delivery over the wire (`src/traffic.rs`, `src/frame.rs`, `src/driver.rs`):
    between two hops a packet is encoded, framed, read and decoded, and a frame that does
    not decode is dropped. */
module WireDelivery {
  import opened Basics
  import opened ParentWalks
  import opened GreedyRouting
  import opened TreeDelivery
  import opened Frames
  import opened TrafficCodec

  // ---------------------------------------------------------------- one link

  /** What the far end makes of a packet: the body of its frame, decoded. */
  function OverLink(p: Traffic): Option<Traffic> {
    var body := DecodeBody([TypeByte(TrafficFrame)] + Packed(p));
    if body.None? then None else Unpacked(body.value.1)
  }

  /** A packet a link can carry: both paths sendable, and within the message size. */
  predicate Carried(p: Traffic) {
    Sendable(p.path) && Sendable(p.from) && |Packed(p)| < MAX_MESSAGE_SIZE
  }

  lemma BodyBack(payload: Bytes)
    ensures DecodeBody([TypeByte(TrafficFrame)] + payload)
            == if |payload| < MAX_MESSAGE_SIZE then Some((TrafficFrame, payload)) else None
  {
    var body := [TypeByte(TrafficFrame)] + payload;
    assert body[1..] == payload;
  }

  lemma OverLinkIff(p: Traffic)
    ensures OverLink(p) == Some(p) <==> Carried(p)
  {
    BodyBack(Packed(p));
    RoundTripsIff(p);
  }

  /** Whatever comes over a link is sendable, and nothing comes of a packet too long. */
  lemma OverLinkSound(p: Traffic)
    ensures OverLink(p).Some? ==> Sendable(OverLink(p).value.path) && Sendable(OverLink(p).value.from)
    ensures |Packed(p)| >= MAX_MESSAGE_SIZE ==> OverLink(p).None?
  {
    BodyBack(Packed(p));
    if OverLink(p).Some? { UnpackedPaths(Packed(p)); }
  }

  /** A path with too many ports does not get over any link. */
  lemma LongPathIsDropped(p: Traffic)
    requires |p.path| > MAX_PATH && forall i :: 0 <= i < |p.path| ==> p.path[i] != 0
    ensures OverLink(p).None?
  {
    BodyBack(Packed(p));
    var rest := PathBytes(p.from) + (p.source + (p.dest + (Uvarint(p.watermark) + p.payload)));
    SplitRefuses(p.path, rest, 0);
  }

  /** 129 ports are too many. */
  lemma Port129IsDropped(p: Traffic)
    requires p.path == seq(129, _ => 1)
    ensures OverLink(p).None?
  {
    LongPathIsDropped(p);
  }

  /** A lower watermark never makes a packet longer. */
  lemma {:induction false} ShorterMark(v: nat, w: nat)
    requires v <= w
    ensures |Uvarint(v)| <= |Uvarint(w)|
    decreases w
  {
    if v >= 128 { ShorterMark(v / 128, w / 128); }
  }

  predicate Same(p: Traffic, q: Traffic) {
    q.(watermark := p.watermark) == p
  }

  lemma LowerIsCarried(p: Traffic, q: Traffic)
    requires Carried(p) && Same(p, q) && q.watermark <= p.watermark
    ensures Carried(q)
  {
    ShorterMark(q.watermark, p.watermark);
  }

  // ---------------------------------------------------------------- many links

  datatype Outcome = Arrived(at: Key, packet: Traffic, hops: nat) | Lost | Travelling

  function OneMoreHop(out: Outcome): Outcome {
    if out.Arrived? then out.(hops := out.hops + 1) else out
  }

  /** A packet handled at `at` and then relayed from node to node, over at most `budget`
      links. A node's choice depends on the path and the watermark it reads. */
  ghost function Relay(hop: (Key, seq<Port>, nat) -> Hop, link: Traffic -> Option<Traffic>, at: Key, p: Traffic,
                       budget: nat): Outcome
    decreases budget
  {
    match hop(at, p.path, p.watermark)
    case Stay => Arrived(at, p, 0)
    case Drop => Lost
    case Go(to, mark) =>
      if budget == 0 then Travelling
      else if mark > U64_MAX || link(p.(watermark := mark)).None? then Lost
      else OneMoreHop(Relay(hop, link, to, link(p.(watermark := mark)).value, budget - 1))
  }

  /** Each hop away from `dest` goes to a node strictly closer and marks the packet
      with the distance it left from; `dest` keeps it. */
  ghost predicate Guides(hop: (Key, seq<Port>, nat) -> Hop, path: seq<Port>, nodes: set<Key>, dest: Key,
                         dist: Key -> nat) {
    && (forall w :: hop(dest, path, w) == Stay)
    && (forall u, w :: u in nodes && u != dest && dist(u) < w ==>
          var h := hop(u, path, w);
          h.Go? && h.to in nodes && h.mark == dist(u) && dist(h.to) < dist(u))
  }

  ghost predicate Transparent(link: Traffic -> Option<Traffic>, p: Traffic, limit: nat) {
    forall q {:trigger link(q)} :: Same(p, q) && q.watermark <= limit ==> link(q) == Some(q)
  }

  lemma {:induction false} GuidedArrives(hop: (Key, seq<Port>, nat) -> Hop, link: Traffic -> Option<Traffic>,
                                         nodes: set<Key>, dest: Key, dist: Key -> nat, at: Key, p: Traffic,
                                         budget: nat)
    requires Guides(hop, p.path, nodes, dest, dist) && at in nodes && dist(at) < p.watermark && dist(at) <= budget
    requires at != dest ==> Transparent(link, p, dist(at))
    ensures var out := Relay(hop, link, at, p, budget);
            out.Arrived? && out.at == dest && Same(p, out.packet) && out.hops <= dist(at)
    decreases budget
  {
    if at != dest {
      var h := hop(at, p.path, p.watermark);
      var q := p.(watermark := h.mark);
      assert link(q) == Some(q);
      GuidedArrives(hop, link, nodes, dest, dist, h.to, q, budget - 1);
    }
  }

  /** What arrives after links that give only sendable packets is sendable. */
  lemma {:induction false} ArrivalsSendable(hop: (Key, seq<Port>, nat) -> Hop, link: Traffic -> Option<Traffic>,
                                            at: Key, p: Traffic, budget: nat)
    requires Sendable(p.path) && Sendable(p.from)
    requires forall q {:trigger link(q)} :: link(q).Some? ==>
               Sendable(link(q).value.path) && Sendable(link(q).value.from)
    ensures var out := Relay(hop, link, at, p, budget);
            out.Arrived? ==> Sendable(out.packet.path) && Sendable(out.packet.from)
    decreases budget
  {
    var h := hop(at, p.path, p.watermark);
    if h.Go? && budget > 0 && h.mark <= U64_MAX && link(p.(watermark := h.mark)).Some? {
      ArrivalsSendable(hop, link, h.to, link(p.(watermark := h.mark)).value, budget - 1);
    }
  }

  // ---------------------------------------------------------------- a settled tree

  ghost function HopsIn(net: map<Key, NodeView>): (Key, seq<Port>, nat) -> Hop {
    (u: Key, path: seq<Port>, w: nat) => HopOf(net, path, u, w)
  }

  ghost function DistTo(tree: Infos, dest: Key): Key -> nat {
    (u: Key) => TreeDist(tree, dest, u)
  }

  function Links(): Traffic -> Option<Traffic> {
    (p: Traffic) => OverLink(p)
  }

  lemma SettledGuides(net: map<Key, NodeView>, tree: Infos, root: Key, dest: Key)
    requires Settled(net, tree, root) && dest in tree
    ensures Guides(HopsIn(net), Place(tree, dest), tree.Keys, dest, DistTo(tree, dest))
  {
    var path := Place(tree, dest);
    forall w: nat ensures HopOf(net, path, dest, w) == Stay { HopStays(net, tree, root, dest, w); }
    forall u, w: nat | u in tree.Keys && u != dest && TreeDist(tree, dest, u) < w
      ensures Advancing(HopOf(net, path, u, w), tree, dest, TreeDist(tree, dest, u))
    {
      HopGoes(net, tree, root, u, dest, w);
    }
  }

  lemma LinksTransparent(p: Traffic, limit: U64)
    requires Carried(p.(watermark := limit))
    ensures Transparent(Links(), p, limit)
  {
    forall q | Same(p, q) && q.watermark <= limit
      ensures Links()(q) == Some(q)
    {
      LowerIsCarried(p.(watermark := limit), q);
      OverLinkIff(q);
    }
  }

  lemma LinksSound()
    ensures forall q {:trigger Links()(q)} :: Links()(q).Some? ==>
              Sendable(Links()(q).value.path) && Sendable(Links()(q).value.from)
  {
    forall q: Traffic ensures Links()(q).Some? ==> Sendable(Links()(q).value.path) && Sendable(Links()(q).value.from) {
      OverLinkSound(q);
    }
  }

  /** The packet is at `dest`, unchanged but for its watermark, after at most `d` links. */
  ghost predicate DeliveredTo(out: Outcome, dest: Key, p: Traffic, d: nat) {
    out.Arrived? && out.at == dest && Same(p, out.packet) && out.hops <= d
  }

  /** A packet that does not get over its first link unchanged is not delivered. */
  lemma StoppedAtFirstLink(hop: (Key, seq<Port>, nat) -> Hop, link: Traffic -> Option<Traffic>, nodes: set<Key>,
                           dest: Key, dist: Key -> nat, at: Key, p: Traffic, budget: nat)
    requires Guides(hop, p.path, nodes, dest, dist) && at in nodes && at != dest && dist(at) < p.watermark && budget > 0
    requires forall q {:trigger link(q)} :: link(q).Some? ==>
               Sendable(link(q).value.path) && Sendable(link(q).value.from)
    requires link(p.(watermark := dist(at))).None? || !Sendable(p.path) || !Sendable(p.from)
    ensures !DeliveredTo(Relay(hop, link, at, p, budget), dest, p, dist(at))
  {
    var h := hop(at, p.path, p.watermark);
    var q := p.(watermark := h.mark);
    if link(q).Some? { ArrivalsSendable(hop, link, h.to, link(q).value, budget - 1); }
  }

  /** Greedy delivery: on a settled tree a packet with the destination's coordinates,
      sent from any other node, stops at exactly the destination within the tree
      distance, if and only if the first link can carry it: no zero port and at most 128
      hops in both of its paths, and within the message size. */
  lemma Delivers(net: map<Key, NodeView>, tree: Infos, root: Key, at: Key, dest: Key, p: Traffic, budget: nat)
    requires Settled(net, tree, root) && at in tree && dest in tree && p.path == Place(tree, dest)
    requires TreeDist(tree, dest, at) < p.watermark && TreeDist(tree, dest, at) <= budget
    ensures var d := TreeDist(tree, dest, at);
            DeliveredTo(Relay(HopsIn(net), Links(), at, p, budget), dest, p, d)
            <==> at == dest || Carried(p.(watermark := d))
  {
    var d, dist := TreeDist(tree, dest, at), DistTo(tree, dest);
    SettledGuides(net, tree, root, dest);
    if at == dest || Carried(p.(watermark := d)) {
      if at != dest { LinksTransparent(p, d); }
      GuidedArrives(HopsIn(net), Links(), tree.Keys, dest, dist, at, p, budget);
    } else {
      ApartIsFar(tree, root, at, dest);
      LinksSound();
      OverLinkSound(p.(watermark := d));
      StoppedAtFirstLink(HopsIn(net), Links(), tree.Keys, dest, dist, at, p, budget);
    }
  }

  lemma ApartIsFar(tree: Infos, root: Key, at: Key, dest: Key)
    requires IsTree(tree, root) && at in tree && dest in tree && at != dest
    ensures TreeDist(tree, dest, at) > 0
  {
    DistZero(Place(tree, dest), Place(tree, at));
    if TreeDist(tree, dest, at) == 0 { CoordsInjective(tree, root, at, dest); }
  }

  // ---------------------------------------------------------------- depth

  /** Every child got its port from a book, where ports start at 1. */
  ghost predicate PortsGiven(tree: Infos) {
    forall k {:trigger tree[k]} :: k in tree && tree[k].parent != k ==> tree[k].port != 0
  }

  lemma {:induction false} PlaceHasNoZero(tree: Infos, root: Key, k: Key)
    requires IsTree(tree, root) && PortsGiven(tree) && k in tree
    ensures forall i :: 0 <= i < |Place(tree, k)| ==> Place(tree, k)[i] != 0
    decreases |Place(tree, k)|
  {
    TopIsRoot(tree, k);
    if tree[k].parent != k {
      CoordsStep(tree, k);
      ParentKnown(tree, k);
      PlaceHasNoZero(tree, root, tree[k].parent);
    }
  }

  /** On such a tree, what a caller has to look at is depth. */
  lemma SendableIsDepth(tree: Infos, root: Key, k: Key)
    requires IsTree(tree, root) && PortsGiven(tree) && k in tree
    ensures Sendable(Place(tree, k)) <==> |Place(tree, k)| <= MAX_PATH
  {
    PlaceHasNoZero(tree, root, k);
  }

  /** So with ports from the books, a packet from `at` to another node is delivered if and
      only if neither lies deeper than 128 hops and the packet is within the message size. */
  lemma DeliversByDepth(net: map<Key, NodeView>, tree: Infos, root: Key, at: Key, dest: Key, p: Traffic, budget: nat)
    requires Settled(net, tree, root) && PortsGiven(tree) && at in tree && dest in tree && at != dest
    requires p.path == Place(tree, dest) && p.from == Place(tree, at)
    requires TreeDist(tree, dest, at) < p.watermark && TreeDist(tree, dest, at) <= budget
    ensures var d := TreeDist(tree, dest, at);
            DeliveredTo(Relay(HopsIn(net), Links(), at, p, budget), dest, p, d)
            <==> |Place(tree, at)| <= MAX_PATH && |Place(tree, dest)| <= MAX_PATH
                 && |Packed(p.(watermark := d))| < MAX_MESSAGE_SIZE
  {
    Delivers(net, tree, root, at, dest, p, budget);
    SendableIsDepth(tree, root, at);
    SendableIsDepth(tree, root, dest);
  }

  /** A packet for a node deeper than that is lost on its first link, wherever it starts. */
  lemma DeepDestinationIsLost(net: map<Key, NodeView>, tree: Infos, root: Key, at: Key, dest: Key, p: Traffic,
                              budget: nat)
    requires Settled(net, tree, root) && PortsGiven(tree) && at in tree && dest in tree && at != dest
    requires p.path == Place(tree, dest) && |Place(tree, dest)| > MAX_PATH
    requires TreeDist(tree, dest, at) < p.watermark && budget > 0
    ensures Relay(HopsIn(net), Links(), at, p, budget) == Lost
  {
    HopGoes(net, tree, root, at, dest, p.watermark);
    PlaceHasNoZero(tree, root, dest);
    LongPathIsDropped(p.(watermark := TreeDist(tree, dest, at)));
  }
}

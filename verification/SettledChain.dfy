/** A settled chain of any length: node 0 is the root, and each other node is the child of
    the one before, behind port 1. So the delivery theorems have instances at every depth. */
module SettledChain {
  import opened Basics
  import opened ParentWalks
  import opened GreedyRouting
  import opened TreeDelivery
  import opened TrafficCodec
  import opened WireDelivery
  import Frames

  function Link(k: Key): Info {
    if k == 0 then Info(0, 1, 0, 0, 0) else Info(k - 1, 1, 0, 1, 0)
  }

  function Chain(n: nat): Infos {
    map k: nat | k < n :: Link(k)
  }

  /** A node of the chain knows all of it and is linked to both its neighbours. */
  function ViewAt(n: nat, k: Key): NodeView {
    var above := if k == 0 then [] else [Entry(k - 1, 0)];
    var below := if k + 1 < n then [Entry(k + 1, 1)] else [];
    NodeView(k, Chain(n), above + below,
             map[0 := LinkState(if k == 0 then 0 else k - 1, 0, 0, 1), 1 := LinkState(k + 1, 0, 1, 1)])
  }

  function Net(n: nat): map<Key, NodeView> {
    map k: nat | k < n :: ViewAt(n, k)
  }

  /** `k`, `k - 1`, down to 0. */
  function Down(k: nat): (w: seq<Key>)
    ensures |w| == k + 1 && w[0] == k && w[k] == 0
  {
    if k == 0 then [0] else [k] + Down(k - 1)
  }

  lemma {:induction false} ChainWalk(n: nat, k: Key, seen: set<Key>)
    requires k < n && forall x :: x in seen ==> x > k
    ensures WalkFrom(Chain(n), k, seen) == Down(k)
    decreases k
  {
    if k > 0 {
      ChainWalk(n, k - 1, seen + {k});
    } else {
      assert WalkFrom(Chain(n), 0, seen + {0}) == [];
    }
  }

  lemma ChainRooted(n: nat, k: Key)
    requires k < n
    ensures IsRooted(Chain(n), k) && Root(Chain(n), k) == 0 && |Place(Chain(n), k)| == k
  {
    ChainWalk(n, k, {});
  }

  lemma ChainIsTree(n: nat)
    requires n > 0
    ensures IsTree(Chain(n), 0) && PortsGiven(Chain(n))
  {
    forall k | k in Chain(n) ensures IsRooted(Chain(n), k) && Root(Chain(n), k) == 0 { ChainRooted(n, k); }
  }

  lemma ChainLinked(n: nat, u: Key, v: Key) returns (id: LinkId)
    requires u < n && v < n && (v == u + 1 || u == v + 1)
    ensures Linked(ViewAt(n, u), v, id)
  {
    var entries := ViewAt(n, u).entries;
    if v == u + 1 {
      id := 1;
      assert entries[|entries| - 1] == Entry(v, 1);
    } else {
      id := 0;
      assert entries[0] == Entry(v, 0);
    }
  }

  lemma ChainNeighbour(n: nat, u: Key, v: Key)
    requires u < n && v in Chain(n) && Neighbours(Chain(n), u, v)
    ensures v == u + 1 || u == v + 1
  {
  }

  lemma ChainIds(n: nat, u: Key)
    requires u < n
    ensures IdsUnique(ViewAt(n, u).entries)
  {
  }

  lemma ChainNodeSettled(n: nat, u: Key)
    requires u < n
    ensures NodeSettled(ViewAt(n, u), Chain(n), u)
  {
    var view, tree := ViewAt(n, u), Chain(n);
    ChainRooted(n, u);
    ChainIds(n, u);
    forall v {:trigger Neighbours(tree, u, v)} | v in tree && Neighbours(tree, u, v)
      ensures IsRooted(tree, v) && exists id :: Linked(view, v, id)
    {
      ChainRooted(n, v);
      ChainNeighbour(n, u, v);
      var id := ChainLinked(n, u, v);
    }
  }

  /** The chain has settled, for every length. */
  lemma ChainIsSettled(n: nat)
    requires n > 0
    ensures Settled(Net(n), Chain(n), 0) && PortsGiven(Chain(n))
  {
    ChainIsTree(n);
    forall u | u in Net(n) ensures NodeSettled(Net(n)[u], Chain(n), u) { ChainNodeSettled(n, u); }
  }

  lemma ChainDist(n: nat, k: Key)
    requires k < n
    ensures TreeDist(Chain(n), k, 0) == k
  {
    ChainRooted(n, k);
    ChainRooted(n, 0);
  }

  /** On a chain, a packet from the root to node `k` is delivered if `k` is at most 128 and
      the packet is within the message size, and lost on its first link if `k` is more. */
  lemma ChainDelivers(n: nat, k: Key, p: Traffic)
    requires 0 < k < n && p.path == Place(Chain(n), k) && p.from == [] && k < p.watermark
    ensures var out := Relay(HopsIn(Net(n)), Links(), 0, p, k);
            && (k <= Frames.MAX_PATH && |Packed(p.(watermark := k))| < Frames.MAX_MESSAGE_SIZE ==>
                  DeliveredTo(out, k, p, k))
            && (k > Frames.MAX_PATH ==> out == Lost)
  {
    ChainIsSettled(n);
    ChainRooted(n, k);
    ChainRooted(n, 0);
    ChainDist(n, k);
    DeliversByDepth(Net(n), Chain(n), 0, 0, k, p, k);
    if k > Frames.MAX_PATH { DeepDestinationIsLost(Net(n), Chain(n), 0, 0, k, p, k); }
  }
}

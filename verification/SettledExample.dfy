/** Filters that have settled, on the chain of two nodes, so that the reach theorems speak
    of something. */
module SettledExample {
  import opened Basics
  import opened ParentWalks
  import opened GreedyRouting
  import opened TreeDelivery
  import opened BloomFilters
  import opened BloomTables
  import opened BloomReach
  import opened SettledChain

  /** Each node has heard of exactly the other. */
  function Holding(peer: Key, heard: Probes): Tables {
    Tables(map[], map[peer := SetAll(Empty(), heard)], map[peer := true])
  }

  function Other(u: Key): Key {
    if u == 0 then 1 else 0
  }

  function TablesBy(probes: Key -> Probes): Key -> Tables {
    (u: Key) => Holding(Other(u), probes(Other(u)))
  }

  lemma OnlyOwnBits(heard: Probes, own: Probes, peer: Key)
    ensures IsAdvert(SetAll(Empty(), own), Holding(peer, heard), own, peer)
  {
    var t := Holding(peer, heard);
    forall l: nat | l < 8192
      ensures Bit(SetAll(Empty(), own), l) <==> AdvertBit(t, own, peer, l)
    {
      SetAllMeans(Empty(), own, l);
    }
  }

  lemma PairFixed(u: Key, heard: Probes)
    requires u < 2
    ensures TablesFixed(ViewAt(2, u), Holding(Other(u), heard), Chain(2), u)
  {
    ChainNodeSettled(2, u);
  }

  lemma PairHeard(probes: Key -> Probes, u: Key, v: Key)
    requires u < 2 && v < 2 && u != v
    ensures var t := TablesBy(probes)(u);
            v in t.recv && IsAdvert(t.recv[v], TablesBy(probes)(v), probes(v), u)
  {
    assert v == Other(u) && u == Other(v);
    OnlyOwnBits(probes(u), probes(v), u);
  }

  /** Whatever the two nodes' probes are. */
  lemma PairIsBloomSettled(probes: Key -> Probes)
    ensures BloomSettled(Net(2), TablesBy(probes), Chain(2), 0, probes)
  {
    ChainIsSettled(2);
    var tables := TablesBy(probes);
    forall u | u in Chain(2) ensures TablesFixed(Net(2)[u], tables(u), Chain(2), u) { PairFixed(u, probes(Other(u))); }
    forall u, v | u in Chain(2) && v in Chain(2) && Neighbours(Chain(2), u, v)
      ensures v in tables(u).recv && IsAdvert(tables(u).recv[v], tables(v), probes(v), u)
    {
      PairHeard(probes, u, v);
    }
  }
}

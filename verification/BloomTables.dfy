/** The multicast filter table of a node (`src/bloom.rs`): which peers are on the tree,
    what was heard from each, what is advertised to each, and who gets a lookup. */
module BloomTables {
  import opened Basics
  import opened Bits
  import opened ParentWalks
  import opened BloomFilters

  const TABLE_SIZE: nat := 64

  datatype Tables = Tables(send: map<Key, Filter>, recv: map<Key, Filter>, onTree: map<Key, bool>)

  // ---------------------------------------------------------------- what to advertise

  predicate OnTree(t: Tables, k: Key) {
    k in t.onTree && t.onTree[k]
  }

  function TreePeers(t: Tables): set<Key> {
    set k | k in t.onTree && t.onTree[k]
  }

  /** Is what `k` advertised passed on to `peer`? */
  predicate PassedOn(t: Tables, peer: Key, k: Key) {
    OnTree(t, k) && k != peer && k in t.recv
  }

  predicate HeardBit(t: Tables, k: Key, l: nat)
    requires l < 8192
  {
    k in t.recv && Bit(t.recv[k], l)
  }

  ghost predicate OthersBit(t: Tables, peer: Key, l: nat)
    requires l < 8192
  {
    exists k :: PassedOn(t, peer, k) && HeardBit(t, k, l)
  }

  ghost predicate AdvertBit(t: Tables, own: Probes, peer: Key, l: nat)
    requires l < 8192
  {
    l in own || OthersBit(t, peer, l) || (peer in t.send && Bit(t.send[peer], l))
  }

  /** `b` is the filter for `peer`: exactly the node's own bits, the bits heard from
      the other peers on the tree and the bits already sent to `peer`. */
  ghost predicate IsAdvert(b: Filter, t: Tables, own: Probes, peer: Key) {
    forall l: nat :: l < 8192 ==> (Bit(b, l) <==> AdvertBit(t, own, peer, l))
  }

  lemma MergeBit(f: Filter, g: Filter, l: nat)
    requires l < 8192
    ensures Bit(Merge(f, g), l) <==> Bit(f, l) || Bit(g, l)
  {
  }

  /** The bits of a filter are the filter. */
  lemma SameBits(f: Filter, g: Filter)
    requires forall l: nat :: l < 8192 ==> (Bit(f, l) <==> Bit(g, l))
    ensures f == g
  {
    forall k, i | 0 <= k < 128 && 0 <= i < 64
      ensures f[k][i] == g[k][i]
    {
      var l := 64 * k + i;
      assert l / 64 == k && l % 64 == i;
      assert Bit(f, l) <==> Bit(g, l);
    }
    forall k | 0 <= k < 128 ensures f[k] == g[k] { assert |f[k]| == |g[k]| == 64; }
  }

  /** There is one such filter, whatever order the peers are merged in. */
  lemma AdvertUnique(b: Filter, c: Filter, t: Tables, own: Probes, peer: Key)
    requires IsAdvert(b, t, own, peer) && IsAdvert(c, t, own, peer)
    ensures b == c
  {
    SameBits(b, c);
  }

  /** Once sent, the filter for a peer stays what it is until something new is heard:
      maintenance then has nothing to send. */
  lemma AdvertSettles(b: Filter, t: Tables, own: Probes, peer: Key)
    requires IsAdvert(b, t, own, peer)
    ensures IsAdvert(b, t.(send := t.send[peer := b]), own, peer)
  {
    var u := t.(send := t.send[peer := b]);
    forall l: nat | l < 8192
      ensures OthersBit(u, peer, l) == OthersBit(t, peer, l)
    {
      assert forall k :: PassedOn(u, peer, k) == PassedOn(t, peer, k) && HeardBit(u, k, l) == HeardBit(t, k, l);
    }
  }

  /** What goes to one peer does not depend on what was sent to the others. */
  lemma AdvertIsLocal(b: Filter, t: Tables, u: Tables, own: Probes, peer: Key)
    requires IsAdvert(b, u, own, peer)
    requires t.recv == u.recv && t.onTree == u.onTree && SameAt(t.send, u.send, peer)
    ensures IsAdvert(b, t, own, peer)
  {
    forall l: nat | l < 8192
      ensures OthersBit(u, peer, l) == OthersBit(t, peer, l)
    {
      assert forall k :: PassedOn(u, peer, k) == PassedOn(t, peer, k) && HeardBit(u, k, l) == HeardBit(t, k, l);
    }
  }

  predicate SameAt(a: map<Key, Filter>, b: map<Key, Filter>, k: Key) {
    (k in a <==> k in b) && (k in a ==> a[k] == b[k])
  }

  /** The filter has every bit of what it passes on. */
  lemma AdvertCovers(b: Filter, t: Tables, own: Probes, peer: Key, k: Key)
    requires IsAdvert(b, t, own, peer) && PassedOn(t, peer, k)
    ensures Covers(b, t.recv[k])
  {
    forall l: nat | l < 8192 && Bit(t.recv[k], l) ensures Bit(b, l) { assert HeardBit(t, k, l); }
  }

  /** No false negatives: the filter tests positive for the node itself and for all
      that an on-tree peer other than the receiver tested positive for. */
  lemma AdvertHolds(b: Filter, t: Tables, own: Probes, peer: Key, x: Probes)
    requires IsAdvert(b, t, own, peer)
    requires x == own || exists k :: PassedOn(t, peer, k) && Test(t.recv[k], x)
    ensures Test(b, x)
  {
    if x == own {
      AddKeeps(Empty(), own);
      forall l: nat | l < 8192 && Bit(SetAll(Empty(), own), l) ensures Bit(b, l) { SetAllMeans(Empty(), own, l); }
      CoversTest(b, SetAll(Empty(), own), own);
    } else {
      var k :| PassedOn(t, peer, k) && Test(t.recv[k], x);
      AdvertCovers(b, t, own, peer, k);
      CoversTest(b, t.recv[k], x);
    }
  }

  datatype Packet = Packet(to: Key, bytes: seq<Byte>)

  /** The peers `done` have been advertised their filters, the others are as in `t`, and
      the changed filters of linked peers are in `out`. */
  ghost predicate Advertised(t: Tables, own: Probes, linked: set<Key>, done: set<Key>, send: map<Key, Filter>,
                             out: seq<Packet>) {
    && (forall k :: k in done ==> k in send && IsAdvert(send[k], t, own, k))
    && (forall k {:trigger SameAt(send, t.send, k)} :: k !in done ==> SameAt(send, t.send, k))
    && (forall p :: p in out <==>
          p.to in done && p.to in linked && !SameAt(send, t.send, p.to) && p.bytes == Encode(send[p.to]))
  }

  lemma AdvertisesOneMore(t: Tables, own: Probes, linked: set<Key>, done: set<Key>, send: map<Key, Filter>,
                          out: seq<Packet>, pk: Key, b: Filter, more: seq<Packet>)
    requires Advertised(t, own, linked, done, send, out) && pk !in done && IsAdvert(b, t, own, pk)
    requires more == if pk in linked && !SameAt(send[pk := b], t.send, pk) then [Packet(pk, Encode(b))] else []
    ensures Advertised(t, own, linked, done + {pk}, send[pk := b], out + more)
  {
    var next := send[pk := b];
    forall k | k !in done + {pk} ensures SameAt(next, t.send, k) { assert SameAt(send, t.send, k); }
    forall k | k in done + {pk} ensures k in next && IsAdvert(next[k], t, own, k) { }
    forall p: Packet | p.to != pk ensures SameAt(next, t.send, p.to) == SameAt(send, t.send, p.to) { }
  }

  // ---------------------------------------------------------------- tree membership

  /** Is `pk` our parent or our child? */
  predicate IsTreeEdge(infos: Infos, self: Key, pk: Key)
    requires self in infos
  {
    infos[self].parent == pk || (pk in infos && infos[pk].parent == self)
  }

  predicate Forgets(t: Tables, infos: Infos, self: Key, pk: Key)
    requires self in infos
  {
    OnTree(t, pk) && !IsTreeEdge(infos, self, pk)
  }

  /** The flags of `done` recomputed; those of them that left the tree are advertised a
      blank filter. */
  function FixedOf(t: Tables, infos: Infos, self: Key, done: set<Key>): Tables
    requires self in infos
  {
    Tables(map k | k in t.send.Keys + done && (k in t.send || Forgets(t, infos, self, k)) ::
             if k in done && Forgets(t, infos, self, k) then Empty() else t.send[k],
           t.recv,
           map k | k in t.onTree :: if k in done then IsTreeEdge(infos, self, k) else t.onTree[k])
  }

  function Fixed(t: Tables, infos: Infos, self: Key): Tables {
    if self in infos then FixedOf(t, infos, self, t.onTree.Keys) else t
  }

  function FixOne(t: Tables, infos: Infos, self: Key, pk: Key): Tables
    requires self in infos
  {
    t.(send := if Forgets(t, infos, self, pk) then t.send[pk := Empty()] else t.send,
       onTree := t.onTree[pk := IsTreeEdge(infos, self, pk)])
  }

  lemma FixesOneMore(t: Tables, infos: Infos, self: Key, done: set<Key>, pk: Key)
    requires self in infos && done <= t.onTree.Keys && pk in t.onTree && pk !in done
    ensures FixOne(FixedOf(t, infos, self, done), infos, self, pk) == FixedOf(t, infos, self, done + {pk})
  {
    var a, b := FixOne(FixedOf(t, infos, self, done), infos, self, pk), FixedOf(t, infos, self, done + {pk});
    assert a.onTree == b.onTree;
    assert a.send == b.send;
  }

  /** A peer that leaves the tree has a blank filter on record, so that when it comes back it
      is advertised none of the old bits: just our own and those heard from the others. */
  lemma LeaverIsBlanked(t: Tables, infos: Infos, self: Key, k: Key, own: Probes, b: Filter, l: nat)
    requires self in infos && OnTree(t, k) && !IsTreeEdge(infos, self, k) && l < 8192
    requires IsAdvert(b, Fixed(t, infos, self), own, k)
    ensures Fixed(t, infos, self).send[k] == Empty() && !OnTree(Fixed(t, infos, self), k)
    ensures Bit(b, l) <==> l in own || OthersBit(Fixed(t, infos, self), k, l)
  {
    assert !Bit(Empty(), l);
  }

  function FixAll(t: Tables, infos: Infos, self: Key, keys: seq<Key>): Tables
    requires self in infos
    decreases |keys|
  {
    if keys == [] then t else FixAll(FixOne(t, infos, self, keys[0]), infos, self, keys[1..])
  }

  /** One peer after the other is all of them at once. */
  lemma {:induction false} FixAllIs(t: Tables, infos: Infos, self: Key, done: set<Key>, keys: seq<Key>)
    requires self in infos && Rises(keys) && forall k :: k in t.onTree <==> k in done || k in keys
    requires forall k :: k in keys ==> k !in done
    ensures FixAll(FixedOf(t, infos, self, done), infos, self, keys) == Fixed(t, infos, self)
    decreases keys
  {
    if keys == [] {
      assert done == t.onTree.Keys;
    } else {
      assert keys == [keys[0]] + keys[1..];
      FixesOneMore(t, infos, self, done, keys[0]);
      FixAllIs(t, infos, self, done + {keys[0]}, keys[1..]);
    }
  }

  lemma FixedOfNone(t: Tables, infos: Infos, self: Key)
    requires self in infos
    ensures FixedOf(t, infos, self, {}) == t
  {
    var u := FixedOf(t, infos, self, {});
    assert u.send == t.send && u.onTree == t.onTree;
  }

  lemma FixAllSorted(t: Tables, infos: Infos, self: Key, keys: seq<Key>)
    requires self in infos && keys == Sorted(t.onTree.Keys)
    ensures FixAll(t, infos, self, keys) == Fixed(t, infos, self)
  {
    FixedOfNone(t, infos, self);
    FixAllIs(t, infos, self, {}, keys);
  }

  /** The peers a packet from `from` about `x` goes to. */
  predicate Interested(t: Tables, from: Key, x: Probes, k: Key) {
    OnTree(t, k) && k != from && k in t.recv && Test(t.recv[k], x)
  }

  function Targets(t: Tables, from: Key, x: Probes): set<Key> {
    set k | k in t.onTree && Interested(t, from, x, k)
  }

  // ---------------------------------------------------------------- upkeep

  /** What `bloom_maintenance` leaves and sends. */
  ghost predicate Maintained(t: Tables, infos: Infos, self: Key, own: Probes, linked: set<Key>, next: Tables,
                             out: seq<Packet>) {
    var fixed := Fixed(t, infos, self);
    && next.recv == fixed.recv && next.onTree == fixed.onTree
    && Advertised(fixed, own, linked, TreePeers(fixed), next.send, out)
  }

  /** What `bloom_handle` leaves. */
  function Handled(t: Tables, from: Key, payload: seq<Byte>): Tables {
    var b := Decode(payload);
    if b.Some? && from in t.recv then t.(recv := t.recv[from := b.value]) else t
  }

  ghost predicate FlagsFixed(t: Tables, infos: Infos, self: Key)
    requires self in infos
  {
    forall k :: k in t.onTree ==> t.onTree[k] == IsTreeEdge(infos, self, k)
  }

  /** Fixing what is fixed changes nothing. */
  lemma FixedStays(t: Tables, infos: Infos, self: Key)
    requires self in infos && FlagsFixed(t, infos, self)
    ensures Fixed(t, infos, self) == t
  {
    var f := Fixed(t, infos, self);
    assert f.onTree == t.onTree;
    assert f.send == t.send;
  }

  /** A filter on its way out tests positive wherever the last one sent to that peer did,
      and is not that one: it has gained bits. */
  lemma SentGains(t: Tables, own: Probes, linked: set<Key>, done: set<Key>, send: map<Key, Filter>, out: seq<Packet>,
                  p: Packet)
    requires Advertised(t, own, linked, done, send, out) && p in out
    ensures p.to in send && Decode(p.bytes) == Some(send[p.to])
    ensures p.to in t.send ==> Covers(send[p.to], t.send[p.to]) && send[p.to] != t.send[p.to]
  {
    FilterRoundTrip(send[p.to]);
    assert IsAdvert(send[p.to], t, own, p.to);
  }

  // ---------------------------------------------------------------- the state

  class BloomState {
    var send: map<Key, Filter>
    var recv: map<Key, Filter>
    var onTree: map<Key, bool>

    ghost function View(): Tables
      reads this
    {
      Tables(send, recv, onTree)
    }

    constructor ()
      ensures View() == Tables(map[], map[], map[])
    {
      send, recv, onTree := map[], map[], map[];
    }

    /** `bloom_add_peer`: nothing known about a peer is lost by adding it again, and a
        full table takes no new flag. */
    method AddPeer(peer: Key)
      modifies this
      ensures send == (if peer in old(send) then old(send) else old(send)[peer := Empty()])
      ensures recv == (if peer in old(recv) then old(recv) else old(recv)[peer := Empty()])
      ensures onTree == (if peer in old(onTree) || |old(onTree)| >= TABLE_SIZE then old(onTree)
                         else old(onTree)[peer := false])
    {
      if peer !in send { send := send[peer := Empty()]; }
      if peer !in recv { recv := recv[peer := Empty()]; }
      if peer !in onTree && |onTree| < TABLE_SIZE { onTree := onTree[peer := false]; }
    }

    /** `bloom_fix` */
    method Fix(infos: Infos, self: Key)
      modifies this
      ensures View() == Fixed(old(View()), infos, self)
    {
      if self !in infos { return; }
      var keys := SortKeys(onTree.Keys);
      ghost var was := View();
      for i := 0 to |keys|
        invariant onTree.Keys == was.onTree.Keys
        invariant FixAll(View(), infos, self, keys[i..]) == FixAll(was, infos, self, keys)
      {
        assert keys[i..][0] == keys[i] && keys[i..][1..] == keys[i + 1..];
        FixPeer(infos, self, keys[i]);
      }
      FixAllSorted(was, infos, self, keys);
    }

    method FixPeer(infos: Infos, self: Key, pk: Key)
      requires self in infos && pk in onTree
      modifies this
      ensures View() == FixOne(old(View()), infos, self, pk)
    {
      var on := IsTreeEdge(infos, self, pk);
      var before := onTree[pk];
      onTree := onTree[pk := on];
      if before && !on { send := send[pk := Empty()]; }
    }

    /** `bloom_for` */
    method BloomFor(own: Probes, peer: Key) returns (b: Filter)
      ensures IsAdvert(b, View(), own, peer)
    {
      b := Add(Empty(), own);
      var others := SortKeys(set k | k in onTree && onTree[k] && k != peer);
      ghost var t := View();
      forall l: nat | l < 8192 ensures Bit(b, l) <==> l in own { SetAllMeans(Empty(), own, l); }
      for i := 0 to |others|
        invariant forall l: nat :: l < 8192 ==>
                    (Bit(b, l) <==> l in own || exists j :: 0 <= j < i && HeardBit(t, others[j], l))
      {
        if others[i] in recv {
          forall l: nat | l < 8192
            ensures Bit(Merge(b, recv[others[i]]), l) <==> Bit(b, l) || HeardBit(t, others[i], l)
          {
            MergeBit(b, recv[others[i]], l);
          }
          b := Merge(b, recv[others[i]]);
        }
      }
      forall l: nat | l < 8192
        ensures OthersBit(t, peer, l) <==> exists j :: 0 <= j < |others| && HeardBit(t, others[j], l)
      {
        if OthersBit(t, peer, l) {
          var k :| PassedOn(t, peer, k) && HeardBit(t, k, l);
          assert k in others;
        }
        if j :| 0 <= j < |others| && HeardBit(t, others[j], l) {
          assert PassedOn(t, peer, others[j]);
        }
      }
      if peer in send {
        forall l: nat | l < 8192
          ensures Bit(Merge(b, send[peer]), l) <==> Bit(b, l) || Bit(send[peer], l)
        {
          MergeBit(b, send[peer], l);
        }
        b := Merge(b, send[peer]);
      }
    }

    /** One peer's turn in `bloom_maintenance`: a filter that changed is recorded and
        sent to the peer's links. */
    method Advertise(own: Probes, pk: Key, linked: set<Key>) returns (out: seq<Packet>)
      modifies this
      ensures recv == old(recv) && onTree == old(onTree)
      ensures pk in send && IsAdvert(send[pk], old(View()), own, pk)
      ensures send == old(send)[pk := send[pk]]
      ensures out == if pk in linked && !SameAt(send, old(send), pk) then [Packet(pk, Encode(send[pk]))] else []
    {
      var b := BloomFor(own, pk);
      out := [];
      if !(pk in send && send[pk] == b) {
        send := send[pk := b];
        if pk in linked { out := [Packet(pk, Encode(b))]; }
      }
    }

    /** `bloom_maintenance`: afterwards every peer on the tree has been advertised
        exactly its filter, and the filters that changed went out. */
    method Maintain(infos: Infos, self: Key, own: Probes, linked: set<Key>) returns (out: seq<Packet>)
      modifies this
      ensures Maintained(old(View()), infos, self, own, linked, View(), out)
    {
      Fix(infos, self);
      ghost var t := View();
      var peers := SortKeys(set k | k in onTree && onTree[k]);
      out := [];
      ghost var done: set<Key> := {};
      for i := 0 to |peers|
        invariant recv == t.recv && onTree == t.onTree
        invariant done == set k | k in peers[..i]
        invariant Advertised(t, own, linked, done, send, out)
      {
        var pk := peers[i];
        assert peers[..i + 1] == peers[..i] + [pk];
        ghost var before := View();
        assert SameAt(send, t.send, pk);
        var more := Advertise(own, pk, linked);
        AdvertIsLocal(send[pk], t, before, own, pk);
        AdvertisesOneMore(t, own, linked, done, before.send, out, pk, send[pk], more);
        out := out + more;
        done := done + {pk};
      }
      assert peers[..|peers|] == peers;
      assert done == TreePeers(t);
    }

    /** `bloom_handle` */
    method Handle(from: Key, payload: seq<Byte>) returns (ok: bool)
      modifies this
      ensures ok == Decode(payload).Some?
      ensures View() == Handled(old(View()), from, payload)
    {
      var b := Decode(payload);
      ok := b.Some?;
      if ok && from in recv { recv := recv[from := b.value]; }
    }

    /** `multicast`: one copy to each interested peer that has a link, in key order. */
    method Multicast(from: Key, x: Probes, linked: set<Key>) returns (out: seq<Key>)
      ensures out == Sorted(Targets(View(), from, x) * linked)
    {
      var keys := SortKeys(set k | k in onTree && onTree[k]);
      out := [];
      ghost var t := View();
      for i := 0 to |keys|
        invariant Orders(out, set k | k in keys[..i] && Interested(t, from, x, k) && k in linked)
        invariant forall j :: 0 <= j < |out| ==> out[j] in keys[..i]
      {
        var k := keys[i];
        assert keys[..i + 1] == keys[..i] + [k];
        assert forall j :: 0 <= j < |out| ==> out[j] < k;
        if k != from && k in recv && Test(recv[k], x) && k in linked {
          out := out + [k];
        }
      }
      assert keys[..|keys|] == keys;
      var all := set k | k in keys && Interested(t, from, x, k) && k in linked;
      assert all == Targets(t, from, x) * linked;
      OrdersUnique(out, Sorted(all), all);
    }
  }
}

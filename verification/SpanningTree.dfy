/** Announce precedence and parent selection (`src/tree.rs`). */
module SpanningTree {
  import opened Basics
  import opened ParentWalks

  // ---------------------------------------------------------------- announces

  datatype Announce = Announce(key: Key, info: Info)

  /** Higher sequence number, then lower parent, then lower nonce. */
  predicate Beats(a: Info, b: Info) {
    a.seq_ > b.seq_ || (a.seq_ == b.seq_ && (a.parent < b.parent || (a.parent == b.parent && a.nonce < b.nonce)))
  }

  predicate SameRank(a: Info, b: Info) {
    a.seq_ == b.seq_ && a.parent == b.parent && a.nonce == b.nonce
  }

  predicate Adopts(infos: Infos, ann: Announce) {
    ann.key !in infos || Beats(ann.info, infos[ann.key])
  }

  function Merge(infos: Infos, ann: Announce): Infos {
    if Adopts(infos, ann) then infos[ann.key := ann.info] else infos
  }

  /** The "here is better" answer to an announce that was not adopted. */
  function Reply(infos: Infos, ann: Announce): Option<Announce> {
    if Adopts(infos, ann) || infos[ann.key] == ann.info then None else Some(Announce(ann.key, infos[ann.key]))
  }

  function MergeAll(infos: Infos, anns: seq<Announce>): Infos {
    if anns == [] then infos else Merge(MergeAll(infos, anns[..|anns| - 1]), anns[|anns| - 1])
  }

  /** `x` was known for `k` at the start or is among the announces. */
  predicate Offered(infos: Infos, anns: seq<Announce>, k: Key, x: Info) {
    (k in infos && infos[k] == x) || Announce(k, x) in anns
  }

  ghost predicate RankDetermines(infos: Infos, anns: seq<Announce>) {
    forall k, x, y :: Offered(infos, anns, k, x) && Offered(infos, anns, k, y) && SameRank(x, y) ==> x == y
  }

  /** Merging leaves each key at something that was offered for it and that nothing
      offered for it beats. */
  lemma {:induction false} MergeAllTakesBest(infos: Infos, anns: seq<Announce>, k: Key)
    ensures var r := MergeAll(infos, anns);
            && (k in r <==> exists x :: Offered(infos, anns, k, x))
            && (k in r ==> Offered(infos, anns, k, r[k])
                           && forall x :: Offered(infos, anns, k, x) ==> !Beats(x, r[k]))
  {
    if anns == [] {
      if k in infos { assert Offered(infos, anns, k, infos[k]); }
    } else {
      var init, last := anns[..|anns| - 1], anns[|anns| - 1];
      MergeAllTakesBest(infos, init, k);
      assert forall x :: Offered(infos, anns, k, x) <==> Offered(infos, init, k, x) || last == Announce(k, x) by {
        assert anns == init + [last];
      }
      if last.key == k { assert Offered(infos, anns, k, last.info); }
    }
  }

  /** In so many words: the highest sequence number offered, then the lowest parent offered
      with it, then the lowest nonce offered with both. */
  lemma MergeAllIsLatest(infos: Infos, anns: seq<Announce>, k: Key, x: Info)
    requires Offered(infos, anns, k, x)
    ensures var r := MergeAll(infos, anns);
            && k in r && r[k].seq_ >= x.seq_
            && (r[k].seq_ == x.seq_ ==> r[k].parent <= x.parent)
            && (r[k].seq_ == x.seq_ && r[k].parent == x.parent ==> r[k].nonce <= x.nonce)
  {
    MergeAllTakesBest(infos, anns, k);
  }

  /** Order and repetition do not matter: two sequences with the same announces leave
      the same map, when rank determines the announce. */
  lemma MergeIsOrderFree(infos: Infos, one: seq<Announce>, two: seq<Announce>)
    requires forall a :: a in one <==> a in two
    requires RankDetermines(infos, one)
    ensures MergeAll(infos, one) == MergeAll(infos, two)
  {
    forall k
      ensures k in MergeAll(infos, one) <==> k in MergeAll(infos, two)
      ensures k in MergeAll(infos, one) ==> MergeAll(infos, one)[k] == MergeAll(infos, two)[k]
    {
      MergeAllTakesBest(infos, one, k);
      MergeAllTakesBest(infos, two, k);
      assert forall x :: Offered(infos, one, k, x) <==> Offered(infos, two, k, x);
    }
  }

  /** Node A tells node B what it knows of `k`; B answers if it holds better; A handles
      the answer, and would answer it in turn. */
  function Exchange(a: Infos, b: Infos, k: Key): (Infos, Infos, Option<Announce>)
    requires k in a
  {
    var ann := Announce(k, a[k]);
    var reply := Reply(b, ann);
    (if reply.Some? then Merge(a, reply.value) else a, Merge(b, ann),
     if reply.Some? then Reply(a, reply.value) else None)
  }

  /** One announce and at most one answer make two nodes agree on a key, with nothing
      left to say, exactly when equal rank means equal announce. */
  lemma ExchangeReconciles(a: Infos, b: Infos, k: Key)
    requires k in a
    ensures var (a', b', more) := Exchange(a, b, k);
            && k in a' && k in b'
            && ((a'[k] == b'[k] && more.None?) <==> (k in b && SameRank(a[k], b[k]) ==> a[k] == b[k]))
            && (a'[k] == b'[k] ==> a'[k] == MergeAll(a, if k in b then [Announce(k, b[k])] else [])[k])
  {
    if k in b {
      var anns := [Announce(k, b[k])];
      assert anns[..0] == [];
      assert MergeAll(a, anns) == Merge(MergeAll(a, anns[..0]), anns[0]);
    }
  }

  /** What `n` deliveries make of an announce and the answers to it: `to` handles it, and
      its answer goes the other way. */
  function Volley(from: Infos, to: Infos, ann: Option<Announce>, n: nat): (Infos, Infos, Option<Announce>)
    decreases n
  {
    if n == 0 || ann.None? then (from, to, ann)
    else Volley(Merge(to, ann.value), from, Reply(to, ann.value), n - 1)
  }

  /** Two announces of equal rank that differ are answered for ever: after any number of
      deliveries an answer is under way and neither side has changed. */
  lemma {:induction false} EqualRankNeverSettles(a: Infos, b: Infos, k: Key, n: nat)
    requires k in a && k in b && SameRank(a[k], b[k]) && a[k] != b[k]
    ensures var (x, y, ann) := Volley(a, b, Some(Announce(k, a[k])), n);
            ann.Some? && ((x, y) == (a, b) || (x, y) == (b, a))
    decreases n
  {
    if n > 0 { EqualRankNeverSettles(b, a, k, n - 1); }
  }

  /** For instance two infos that differ in their port alone. */
  lemma PortsAloneNeverSettle(n: nat)
    ensures var a, b := map[7 := Info(0, 1, 0, 1, 0)], map[7 := Info(0, 1, 0, 2, 0)];
            Volley(a, b, Some(Announce(7, a[7])), n).2.Some?
  {
    var a: Infos, b: Infos := map[7 := Info(0, 1, 0, 1, 0)], map[7 := Info(0, 1, 0, 2, 0)];
    EqualRankNeverSettles(a, b, 7, n);
  }

  // ---------------------------------------------------------------- parent selection

  datatype Res = Res(seq_: U64, nonce: U64, port: Port)

  /** Live links: the costs of the connections to each peer key. */
  type Links = map<Key, seq<U64>>

  predicate HasPeer(links: Links, k: Key) {
    k in links && links[k] != []
  }

  function MinCost(costs: seq<U64>): U64 {
    if costs == [] then U64_MAX
    else var rest := MinCost(costs[1..]); if costs[0] < rest then costs[0] else rest
  }

  /** The cheapest live link; a key with none costs the maximum. */
  function Cost(links: Links, k: Key): U64 {
    if k in links then MinCost(links[k]) else U64_MAX
  }

  /** No live link of a key is cheaper, and one costs just that; without one, nothing does. */
  lemma {:induction false} MinCostIsLeast(costs: seq<U64>)
    ensures costs != [] ==> MinCost(costs) in costs
    ensures forall c :: c in costs ==> MinCost(costs) <= c
    ensures costs == [] ==> MinCost(costs) == U64_MAX
  {
    if costs != [] {
      MinCostIsLeast(costs[1..]);
      assert costs == [costs[0]] + costs[1..];
    }
  }

  datatype Choice = Choice(root: Key, parent: Key, cost: U64)

  /** The tree table: what parent selection reads and writes. */
  datatype Table = Table(self: Key, infos: Infos, responses: map<Key, Res>,
                         refresh: bool, doRoot1: bool, doRoot2: bool)

  function CurrentParent(t: Table): Option<Key> {
    if t.self in t.infos then Some(t.infos[t.self].parent) else None
  }

  predicate LiveParent(t: Table, links: Links) {
    CurrentParent(t).Some? && HasPeer(links, CurrentParent(t).value)
  }

  /** A path cost: hops to the root times the cost of the first link. */
  function PathCost(infos: Infos, k: Key, link: U64): U64 {
    var hops := |Walk(infos, k)| - 1;
    SatMul(if 0 <= hops <= U64_MAX then hops else U64_MAX, link)
  }

  function FirstChoice(t: Table, links: Links): Choice {
    if LiveParent(t, links) && Root(t.infos, t.self) < t.self then
      var p := CurrentParent(t).value;
      Choice(Root(t.infos, t.self), p, PathCost(t.infos, t.self, Cost(links, p)))
    else Choice(t.self, t.self, U64_MAX)
  }

  /** For a node with coordinates: its depth times the cost, up to the highest number. */
  lemma PathCostIs(infos: Infos, k: Key, link: U64)
    requires IsRooted(infos, k) && |Coords(infos, k)| <= U64_MAX
    ensures PathCost(infos, k, link)
            == if |Coords(infos, k)| * link <= U64_MAX then |Coords(infos, k)| * link else U64_MAX
  {
  }

  /** A candidate whose own walk does not come through us. */
  predicate Eligible(t: Table, pk: Key) {
    pk in t.infos && t.self !in Walk(t.infos, pk)
  }

  function Consider(t: Table, links: Links, best: Choice, pk: Key): Choice {
    if !Eligible(t, pk) then best
    else
      var root := Root(t.infos, pk);
      var cost := PathCost(t.infos, pk, Cost(links, pk));
      if root > best.root then best
      else
        var b := if root < best.root then Choice(root, pk, cost) else best;
        if (t.refresh && SatMul(cost, 2) < b.cost) || (Some(b.parent) != CurrentParent(t) && cost < b.cost)
        then Choice(root, pk, cost) else b
  }

  function ConsiderAll(t: Table, links: Links, keys: seq<Key>): Choice {
    if keys == [] then FirstChoice(t, links)
    else Consider(t, links, ConsiderAll(t, links, keys[..|keys| - 1]), keys[|keys| - 1])
  }

  ghost function Select(t: Table, links: Links): Choice {
    ConsiderAll(t, links, Sorted(t.responses.Keys))
  }

  /** `use_response`: the announce we would make, refused without a port or when it
      is not fresher than what we hold. */
  function Response(res: Res, parent: Key, sig: int): Info {
    Info(parent, res.seq_, res.nonce, res.port, sig)
  }

  predicate UsesResponse(t: Table, parent: Key, res: Res, sig: int) {
    && !(res.port == 0 && t.self != parent)
    && Adopts(t.infos, Announce(t.self, Response(res, parent, sig)))
  }

  function NextSeq(t: Table): U64 {
    if t.self !in t.infos then 1
    else if t.infos[t.self].seq_ == U64_MAX then 0 else t.infos[t.self].seq_ + 1
  }

  function SelfRoot(t: Table, nonce: U64, sig: int): Info {
    Info(t.self, NextSeq(t), nonce, 0, sig)
  }

  predicate FixDue(t: Table, best: Choice) {
    t.refresh || t.doRoot1 || t.doRoot2 || CurrentParent(t) != Some(best.parent)
  }

  predicate Switches(t: Table, best: Choice, sig: int) {
    best.root != t.self && best.parent in t.responses && UsesResponse(t, best.parent, t.responses[best.parent], sig)
  }

  /** One pass of `fix`. */
  ghost function Fix(t: Table, links: Links, nonce: U64, sig: int): Table {
    var best := Select(t, links);
    if !FixDue(t, best) then t
    else if Switches(t, best, sig) then
      t.(infos := t.infos[t.self := Response(t.responses[best.parent], best.parent, sig)],
         responses := map[], refresh := false, doRoot1 := false, doRoot2 := false)
    else if t.doRoot2 then
      t.(infos := Merge(t.infos, Announce(t.self, SelfRoot(t, nonce, sig))),
         responses := map[], refresh := false, doRoot1 := false, doRoot2 := false)
    else t.(doRoot1 := true)
  }

  // ---------------------------------------------------------------- what the choice means

  /** Ourselves, our live parent when its root is below us, or an eligible candidate
      whose root is below us. */
  predicate Sound(t: Table, links: Links, keys: seq<Key>, best: Choice) {
    || (best.root == t.self && best.parent == t.self)
    || (best.root < t.self && LiveParent(t, links) && best.root == Root(t.infos, t.self)
        && Some(best.parent) == CurrentParent(t))
    || (best.root < t.self && best.parent in keys && Eligible(t, best.parent)
        && best.root == Root(t.infos, best.parent))
  }

  predicate Least(t: Table, links: Links, keys: seq<Key>, best: Choice) {
    && best.root <= t.self
    && (LiveParent(t, links) ==> best.root <= Root(t.infos, t.self))
    && (forall k :: k in keys && Eligible(t, k) ==> best.root <= Root(t.infos, k))
  }

  lemma RootIsMet(infos: Infos, k: Key)
    requires k in infos
    ensures Root(infos, k) in Walk(infos, k)
  {
  }

  lemma {:induction false} ConsiderAllSound(t: Table, links: Links, keys: seq<Key>)
    ensures Sound(t, links, keys, ConsiderAll(t, links, keys)) && Least(t, links, keys, ConsiderAll(t, links, keys))
  {
    if keys != [] {
      var init, pk := keys[..|keys| - 1], keys[|keys| - 1];
      ConsiderAllSound(t, links, init);
      assert forall k :: k in keys <==> k in init || k == pk by { assert keys == init + [pk]; }
      if Eligible(t, pk) { RootIsMet(t.infos, pk); }
    }
  }

  /** No flapping: a live parent whose root is below us is kept, unless a refresh is due
      or a candidate offers a strictly lower root. */
  lemma {:induction false} ParentIsKept(t: Table, links: Links, keys: seq<Key>)
    requires !t.refresh && LiveParent(t, links) && Root(t.infos, t.self) < t.self
    requires forall k :: k in keys && Eligible(t, k) ==> Root(t.infos, t.self) <= Root(t.infos, k)
    ensures Some(ConsiderAll(t, links, keys).parent) == CurrentParent(t)
    ensures ConsiderAll(t, links, keys) == FirstChoice(t, links)
  {
    if keys != [] {
      var init := keys[..|keys| - 1];
      assert keys == init + [keys[|keys| - 1]];
      ParentIsKept(t, links, init);
    }
  }

  /** A node without a parent joins the lowest root by the cheapest path to it: the cost
      on record is that of the chosen parent, and no candidate for that root costs less. */
  lemma {:induction false} JoinsCheapest(t: Table, links: Links, keys: seq<Key>)
    requires CurrentParent(t).None?
    ensures var best := ConsiderAll(t, links, keys);
            && (best.parent == t.self || best.cost == PathCost(t.infos, best.parent, Cost(links, best.parent)))
            && (forall k :: k in keys && Eligible(t, k) ==>
                  Root(t.infos, k) > best.root
                  || (Root(t.infos, k) == best.root && PathCost(t.infos, k, Cost(links, k)) >= best.cost))
  {
    if keys != [] {
      var init, pk := keys[..|keys| - 1], keys[|keys| - 1];
      JoinsCheapest(t, links, init);
      ConsiderAllSound(t, links, init);
      assert forall k :: k in keys <==> k in init || k == pk by { assert keys == init + [pk]; }
      if Eligible(t, pk) { RootIsMet(t.infos, pk); }
    }
  }

  /** Rewriting our own entry does not disturb a walk that avoids us. */
  lemma {:induction false} WalkAvoids(infos: Infos, self: Key, info: Info, k: Key, seen: set<Key>)
    requires self in infos && self !in WalkFrom(infos, k, seen)
    ensures WalkFrom(infos[self := info], k, seen + {self}) == WalkFrom(infos, k, seen)
    decreases |infos.Keys - seen|
  {
    if k !in seen && k in infos {
      assert infos.Keys - (seen + {k}) == infos.Keys - seen - {k};
      WalkAvoids(infos, self, info, infos[k].parent, seen + {k});
      assert seen + {self} + {k} == seen + {k} + {self};
    }
  }

  /** A switch is acyclic and minimal. When we hold our own info and `fix` gives us
      another parent than ourselves and the one we had, the new parent's walk never
      reaches us, our new walk is that walk below us, and the new root is below our
      key, our live parent's root and every eligible candidate's root. */
  lemma SwitchIsAcyclicAndMinimal(t: Table, links: Links, nonce: U64, sig: int)
    requires t.self in t.infos
    requires var t' := Fix(t, links, nonce, sig);
             t'.infos[t.self].parent != t.infos[t.self].parent && t'.infos[t.self].parent != t.self
    ensures var t' := Fix(t, links, nonce, sig); var p := t'.infos[t.self].parent;
            && Eligible(t, p) && p in t.responses
            && Walk(t'.infos, t.self) == [t.self] + Walk(t.infos, p)
            && Root(t'.infos, t.self) == Root(t.infos, p) < t.self
            && (LiveParent(t, links) ==> Root(t.infos, p) <= Root(t.infos, t.self))
            && (forall k :: k in t.responses && Eligible(t, k) ==> Root(t.infos, p) <= Root(t.infos, k))
  {
    var keys := Sorted(t.responses.Keys);
    ConsiderAllSound(t, links, keys);
    var t' := Fix(t, links, nonce, sig);
    var p := t'.infos[t.self].parent;
    assert p == Select(t, links).parent;
    WalkAvoids(t.infos, t.self, t'.infos[t.self], p, {});
    assert {} + {t.self} == {t.self};
    assert Walk(t'.infos, t.self) == [t.self] + WalkFrom(t'.infos, p, {t.self});
  }

  /** Without our own info the promise fails: a candidate whose walk leads to us ends
      its walk just below us, is chosen, and closes a cycle. */
  lemma SwitchWithoutOwnInfoCanClose()
    ensures var t := Table(1, map[0 := Info(1, 1, 0, 1, 0)], map[0 := Res(1, 0, 1)], false, false, true);
            var t' := Fix(t, map[0 := [1]], 0, 0);
            t'.infos[1].parent == 0 && t'.infos[0].parent == 1
  {
    var t := Table(1, map[0 := Info(1, 1, 0, 1, 0)], map[0 := Res(1, 0, 1)], false, false, true);
    assert t.responses.Keys == {0};
    assert Sorted({0}) == [0] by {
      assert Orders([0], {0});
      OrdersUnique(Sorted({0}), [0], {0});
    }
    assert [0][..0] == [];
    var infos := t.infos;
    assert Walk(infos, 0) == [0] + WalkFrom(infos, 1, {0}) == [0];
  }

  predicate EndsBelow(infos: Infos, w: seq<Key>, self: Key) {
    w != [] && w[|w| - 1] in infos && infos[w[|w| - 1]].parent == self
  }

  /** A walk that did not know us reaches us, once we have an entry, exactly when it
      ended at a node whose parent we are. */
  lemma {:induction false} ReachesUsIff(infos: Infos, self: Key, info: Info, k: Key, seen: set<Key>)
    requires self !in infos && self !in seen && k != self
    ensures self in WalkFrom(infos[self := info], k, seen) <==> EndsBelow(infos, WalkFrom(infos, k, seen), self)
    decreases |infos.Keys - seen|
  {
    var more := infos[self := info];
    if k !in seen && k in infos {
      assert infos.Keys - (seen + {k}) == infos.Keys - seen - {k};
      var next := infos[k].parent;
      var rest := WalkFrom(infos, next, seen + {k});
      assert WalkFrom(infos, k, seen) == [k] + rest;
      assert WalkFrom(more, k, seen) == [k] + WalkFrom(more, next, seen + {k});
      if next == self {
        assert rest == [];
        assert WalkFrom(more, self, seen + {k})[0] == self;
      } else {
        ReachesUsIff(infos, self, info, next, seen + {k});
      }
    }
  }

  // ---------------------------------------------------------------- when a pass acts

  predicate NoFlag(t: Table) {
    !t.refresh && !t.doRoot1 && !t.doRoot2
  }

  /** Every response could be used: it carries a port and is newer than our own entry. */
  predicate Usable(t: Table) {
    t.self in t.infos && forall k :: k in t.responses ==>
      t.responses[k].port != 0 && t.responses[k].seq_ > t.infos[t.self].seq_
  }

  /** Where we stand: at the root of our live parent if it is below us, else our own. */
  function OwnRoot(t: Table, links: Links): Key {
    if LiveParent(t, links) && Root(t.infos, t.self) < t.self then Root(t.infos, t.self) else t.self
  }

  predicate Offers(t: Table, links: Links, k: Key) {
    k in t.responses && Eligible(t, k) && Root(t.infos, k) < OwnRoot(t, links)
  }

  /** Above a parent whose walk avoids us, our walk is that walk. */
  lemma WalkAbove(infos: Infos, self: Key)
    requires self in infos && self !in Walk(infos, infos[self].parent) && infos[self].parent in infos
    ensures Walk(infos, self) == [self] + Walk(infos, infos[self].parent)
    ensures Root(infos, self) == Root(infos, infos[self].parent)
  {
    WalkAvoids(infos, self, infos[self], infos[self].parent, {});
    assert infos[self := infos[self]] == infos && {} + {self} == {self};
  }

  /** What is chosen when a lower root is offered: a responder, at the lowest root. */
  lemma LowerRootIsChosen(t: Table, links: Links, k: Key)
    requires Offers(t, links, k)
    ensures var best := Select(t, links);
            && best.parent in t.responses && Eligible(t, best.parent) && best.root == Root(t.infos, best.parent)
            && best.root <= Root(t.infos, k) && best.root != t.self
  {
    ConsiderAllSound(t, links, Sorted(t.responses.Keys));
    FirstRootIs(t, links, Sorted(t.responses.Keys));
  }

  lemma {:induction false} FirstRootIs(t: Table, links: Links, keys: seq<Key>)
    ensures ConsiderAll(t, links, keys).root <= OwnRoot(t, links)
  {
    if keys != [] { FirstRootIs(t, links, keys[..|keys| - 1]); }
  }

  /** A lower root that is offered is joined, whatever the flags: after the pass our root is
      at most any root offered. */
  lemma JoinsLowerRoot(t: Table, links: Links, nonce: U64, sig: int, k: Key)
    requires Usable(t) && Offers(t, links, k)
    ensures var t' := Fix(t, links, nonce, sig);
            t.self in t'.infos && Root(t'.infos, t.self) <= Root(t.infos, k)
  {
    LowerRootIsChosen(t, links, k);
    var best, t' := Select(t, links), Fix(t, links, nonce, sig);
    if FixDue(t, best) {
      var info := Response(t.responses[best.parent], best.parent, sig);
      assert Switches(t, best, sig);
      WalkAvoids(t.infos, t.self, info, best.parent, {});
      assert {} + {t.self} == {t.self};
      assert Walk(t'.infos, t.self) == [t.self] + WalkFrom(t'.infos, best.parent, {t.self});
    } else {
      WalkAbove(t.infos, t.self);
    }
  }

  /** A node in its place: below a live parent whose root is below it, or its own root. */
  predicate InPlace(t: Table, links: Links) {
    && t.self in t.infos
    && ((LiveParent(t, links) && Root(t.infos, t.self) < t.self)
        || (t.infos[t.self].parent == t.self && !HasPeer(links, t.self)))
  }

  lemma {:induction false} NoLowerRoot(t: Table, links: Links, keys: seq<Key>)
    requires InPlace(t, links) && !t.refresh
    requires forall k :: k in keys && Eligible(t, k) ==> Root(t.infos, k) >= OwnRoot(t, links)
    ensures Some(ConsiderAll(t, links, keys).parent) == CurrentParent(t)
    ensures ConsiderAll(t, links, keys) == FirstChoice(t, links)
  {
    if keys != [] {
      var init, pk := keys[..|keys| - 1], keys[|keys| - 1];
      assert keys == init + [pk];
      NoLowerRoot(t, links, init);
      if Eligible(t, pk) { RootIsMet(t.infos, pk); }
    }
  }

  /** With no flag set, a node in its place whose responses could all be used acts if and
      only if a lower root is offered; it then joins, and otherwise the pass does nothing. */
  lemma ActsIff(t: Table, links: Links, nonce: U64, sig: int)
    requires NoFlag(t) && Usable(t) && InPlace(t, links)
    ensures Fix(t, links, nonce, sig) != t <==> exists k :: Offers(t, links, k)
  {
    if k :| Offers(t, links, k) {
      JoinsLowerRoot(t, links, nonce, sig, k);
      if Fix(t, links, nonce, sig) == t { OwnRootIs(t, links); }
    } else {
      var keys := Sorted(t.responses.Keys);
      forall k | k in keys && Eligible(t, k) ensures Root(t.infos, k) >= OwnRoot(t, links) {
        assert !Offers(t, links, k);
      }
      NoLowerRoot(t, links, keys);
    }
  }

  lemma OwnRootIs(t: Table, links: Links)
    requires InPlace(t, links)
    ensures OwnRoot(t, links) == Root(t.infos, t.self)
  {
    if t.infos[t.self].parent == t.self {
      assert {} + {t.self} == {t.self} && WalkFrom(t.infos, t.self, {t.self}) == [];
      assert Walk(t.infos, t.self) == [t.self] + WalkFrom(t.infos, t.self, {t.self});
    }
  }

  /** On a refresh a live parent at the lowest root is left for another path to that root if
      and only if one costs less than half. */
  lemma {:induction false} RefreshLeavesIff(t: Table, links: Links, keys: seq<Key>)
    requires t.refresh && LiveParent(t, links) && Root(t.infos, t.self) < t.self
    requires forall k :: k in keys && Eligible(t, k) ==> Root(t.infos, t.self) <= Root(t.infos, k)
    ensures ConsiderAll(t, links, keys).root == Root(t.infos, t.self)
    ensures ConsiderAll(t, links, keys) == FirstChoice(t, links)
            || ConsiderAll(t, links, keys).cost < FirstChoice(t, links).cost
    ensures ConsiderAll(t, links, keys) == FirstChoice(t, links) <==>
              !exists k :: k in keys && HalvesCost(t, links, k)
  {
    if keys != [] {
      var init, pk := keys[..|keys| - 1], keys[|keys| - 1];
      assert keys == init + [pk];
      RefreshLeavesIff(t, links, init);
      assert (exists k :: k in keys && HalvesCost(t, links, k))
             <==> (exists k :: k in init && HalvesCost(t, links, k)) || HalvesCost(t, links, pk);
    }
  }

  /** A path to our own root at less than half of what ours costs. */
  predicate HalvesCost(t: Table, links: Links, k: Key) {
    && Eligible(t, k) && Root(t.infos, k) == Root(t.infos, t.self)
    && 2 * PathCost(t.infos, k, Cost(links, k)) < FirstChoice(t, links).cost
  }

  /** With the second root flag set and no usable response, a pass makes us our own root,
      unless our sequence number is the highest there is. */
  lemma RootsItselfIff(t: Table, links: Links, nonce: U64, sig: int)
    requires t.doRoot2 && !Switches(t, Select(t, links), sig)
    ensures var t' := Fix(t, links, nonce, sig);
            && NoFlag(t') && t'.responses == map[]
            && (t.self in t'.infos && t'.infos[t.self] == SelfRoot(t, nonce, sig) && t'.infos[t.self].parent == t.self
                <==> t.self !in t.infos || t.infos[t.self].seq_ != U64_MAX)
  {
  }

  /** Our new parent's chain leads back to us. */
  predicate ClosesCycle(t: Table) {
    t.self in t.infos && t.infos[t.self].parent != t.self && t.self in Walk(t.infos, t.infos[t.self].parent)
  }

  /** The exact condition without our own info, on the table before the pass: `fix`
      closes a cycle if and only if it chooses a parent that answered with a port and
      whose walk ends at a node that names us as its parent. */
  lemma SwitchWithoutOwnInfoIff(t: Table, links: Links, nonce: U64, sig: int)
    requires t.self !in t.infos
    ensures var best := Select(t, links);
            ClosesCycle(Fix(t, links, nonce, sig)) <==>
              (best.root != t.self && best.parent in t.responses && t.responses[best.parent].port != 0
               && EndsBelow(t.infos, Walk(t.infos, best.parent), t.self))
  {
    ConsiderAllSound(t, links, Sorted(t.responses.Keys));
    var best := Select(t, links);
    if Switches(t, best, sig) {
      ReachesUsIff(t.infos, t.self, Response(t.responses[best.parent], best.parent, sig), best.parent, {});
    }
  }

  /** The guard a caller can see: no cycle closes while no entry names us as parent. */
  lemma UnnamedClosesNoCycle(t: Table, links: Links, nonce: U64, sig: int)
    requires t.self !in t.infos && forall k :: k in t.infos ==> t.infos[k].parent != t.self
    ensures !ClosesCycle(Fix(t, links, nonce, sig))
  {
    SwitchWithoutOwnInfoIff(t, links, nonce, sig);
  }

  // ---------------------------------------------------------------- the table as an object

  /** Nobody has been sent the new info of `k` yet. */
  function Unsent(sent: map<Key, set<Key>>, k: Key): map<Key, set<Key>> {
    map p | p in sent :: sent[p] - {k}
  }

  class TreeState {
    const self: Key
    var infos: Infos
    var responses: map<Key, Res>
    var sent: map<Key, set<Key>>
    var refresh: bool
    var doRoot1: bool
    var doRoot2: bool
    var announcesRecv: nat

    ghost function View(): Table
      reads this
    {
      Table(self, infos, responses, refresh, doRoot1, doRoot2)
    }

    constructor (self: Key)
      ensures View() == Table(self, map[], map[], false, false, true) && sent == map[]
    {
      this.self := self;
      infos, responses, sent := map[], map[], map[];
      refresh, doRoot1, doRoot2, announcesRecv := false, false, true, 0;
    }

    /** Insert an announce under the precedence rules; an adopted one must be sent
        again to everyone. */
    method Update(ann: Announce) returns (adopted: bool)
      modifies `infos, `sent
      ensures adopted <==> Adopts(old(infos), ann)
      ensures infos == Merge(old(infos), ann)
      ensures sent == if adopted then Unsent(old(sent), ann.key) else old(sent)
    {
      if ann.key in infos {
        var info := infos[ann.key];
        if !Beats(ann.info, info) {
          return false;
        }
      }
      sent := Unsent(sent, ann.key);
      infos := infos[ann.key := ann.info];
      return true;
    }

    method HandleAnnounce(from: Key, ann: Announce) returns (reply: Option<Announce>)
      modifies this
      ensures reply == Reply(old(infos), ann)
      ensures View() == old(View()).(infos := Merge(old(infos), ann),
                                     refresh := old(refresh) || (Adopts(old(infos), ann) && ann.key == self))
      ensures var kept := if Adopts(old(infos), ann) then Unsent(old(sent), ann.key) else old(sent);
              sent == kept[from := (if from in kept then kept[from] else {}) + {ann.key}]
    {
      announcesRecv := announcesRecv + 1;
      var adopted := Update(ann);
      var before := if from in sent then sent[from] else {};
      sent := sent[from := before + {ann.key}];
      if adopted {
        if ann.key == self {
          refresh := true;
        }
        return None;
      }
      if infos[ann.key] != ann.info {
        return Some(Announce(ann.key, infos[ann.key]));
      }
      return None;
    }

    method CurrentChoice(links: Links) returns (best: Choice)
      ensures best == FirstChoice(View(), links)
    {
      if self !in infos || infos[self].parent !in links || links[infos[self].parent] == [] {
        return Choice(self, self, U64_MAX);
      }
      var root, dists := RootAndDists(infos, self);
      if root < self && root in dists {
        var dist := if dists[root] <= U64_MAX then dists[root] else U64_MAX;
        return Choice(root, infos[self].parent, SatMul(dist, Cost(links, infos[self].parent)));
      }
      return Choice(self, self, U64_MAX);
    }

    method SelectParent(links: Links) returns (best: Choice)
      ensures best == Select(View(), links)
    {
      ghost var t := View();
      best := CurrentChoice(links);
      var candidates := SortKeys(responses.Keys);
      for i := 0 to |candidates|
        invariant best == ConsiderAll(t, links, candidates[..i])
      {
        assert candidates[..i + 1][..i] == candidates[..i];
        best := ConsiderOne(links, best, candidates[i]);
      }
      assert candidates[..|candidates|] == candidates;
    }

    method ConsiderOne(links: Links, best: Choice, pk: Key) returns (better: Choice)
      ensures better == Consider(View(), links, best, pk)
    {
      better := best;
      if pk !in infos { return; }
      var root, dists := RootAndDists(infos, pk);
      if self in dists { return; }
      var dist := if root in dists && dists[root] <= U64_MAX then dists[root] else U64_MAX;
      var cost := SatMul(dist, Cost(links, pk));
      if root < better.root {
        better := Choice(root, pk, cost);
      } else if root != better.root {
        return;
      }
      var current := if self in infos then Some(infos[self].parent) else None;
      if (refresh && SatMul(cost, 2) < better.cost) || (Some(better.parent) != current && cost < better.cost) {
        better := Choice(root, pk, cost);
      }
    }

    method UseResponse(parent: Key, res: Res, sig: int) returns (used: bool)
      modifies `infos, `sent
      ensures used <==> UsesResponse(old(View()), parent, res, sig)
      ensures infos == if used then old(infos)[self := Response(res, parent, sig)] else old(infos)
      ensures sent == if used then Unsent(old(sent), self) else old(sent)
    {
      if res.port == 0 && self != parent {
        return false;
      }
      used := Update(Announce(self, Info(parent, res.seq_, res.nonce, res.port, sig)));
    }

    /** The chosen parent's response, if there is one and it is another's. */
    method TrySwitch(best: Choice, sig: int) returns (used: bool)
      modifies `infos, `sent
      ensures used <==> Switches(old(View()), best, sig)
      ensures infos == if used then old(infos)[self := Response(responses[best.parent], best.parent, sig)]
                       else old(infos)
      ensures sent == if infos == old(infos) then old(sent) else Unsent(old(sent), self)
    {
      used := false;
      if best.root != self && best.parent in responses {
        used := UseResponse(best.parent, responses[best.parent], sig);
      }
    }

    method BecomeRoot(nonce: U64, sig: int)
      modifies `infos, `sent
      ensures infos == Merge(old(infos), Announce(self, SelfRoot(old(View()), nonce, sig)))
      ensures sent == if infos == old(infos) then old(sent) else Unsent(old(sent), self)
    {
      var seq_ := if self in infos then (if infos[self].seq_ == U64_MAX then 0 else infos[self].seq_ + 1) else 1;
      var _ := Update(Announce(self, Info(self, seq_, nonce, 0, sig)));
    }

    /** New requests go out, so the old responses and the pending flags go. */
    method Refreshed()
      modifies `responses, `refresh, `doRoot1, `doRoot2
      ensures View() == old(View()).(refresh := false, doRoot1 := false, doRoot2 := false, responses := map[])
    {
      refresh, doRoot1, doRoot2, responses := false, false, false, map[];
    }

    /** `fix`, with the sending of requests reduced to clearing the responses. */
    method FixParent(links: Links, nonce: U64, sig: int)
      modifies `infos, `sent, `responses, `refresh, `doRoot1, `doRoot2
      ensures View() == Fix(old(View()), links, nonce, sig)
      ensures sent == if infos == old(infos) then old(sent) else Unsent(old(sent), self)
    {
      var best := SelectParent(links);
      var current := if self in infos then Some(infos[self].parent) else None;
      if !(refresh || doRoot1 || doRoot2 || current != Some(best.parent)) {
        return;
      }
      var used := TrySwitch(best, sig);
      if used {
        Refreshed();
      } else if doRoot2 {
        BecomeRoot(nonce, sig);
        Refreshed();
      } else if !doRoot1 {
        doRoot1 := true;
      }
    }
  }
}

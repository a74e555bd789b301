/** The four walks up the parent pointers of the info map (`src/pathfind.rs`,
    `src/tree.rs`, `src/views.rs`). The map may be partial and may hold cycles.

    `Walk(infos, k)` is the reference: the nodes met from `k` upwards until the next
    one is unknown or has been met before. Each method is a loop of its own, with its
    own memory of where it has been, and is proved to compute a view of it. */
module ParentWalks {
  import opened Basics

  /** Node keys, ordered as the source orders the 32 bytes. */
  type Key = nat
  type Port = U64

  datatype Info = Info(parent: Key, seq_: U64, nonce: U64, port: Port, sig: int)

  type Infos = map<Key, Info>

  // ---------------------------------------------------------------- the walk

  function WalkFrom(infos: Infos, k: Key, seen: set<Key>): (w: seq<Key>)
    ensures w == [] <==> k in seen || k !in infos
    ensures w != [] ==> w[0] == k
    decreases |infos.Keys - seen|
  {
    if k in seen || k !in infos then []
    else
      assert infos.Keys - (seen + {k}) == infos.Keys - seen - {k};
      [k] + WalkFrom(infos, infos[k].parent, seen + {k})
  }

  function Walk(infos: Infos, k: Key): (w: seq<Key>)
    ensures w == [] <==> k !in infos
    ensures w != [] ==> w[0] == k
  {
    WalkFrom(infos, k, {})
  }

  predicate EndsAtRoot(infos: Infos, w: seq<Key>) {
    w != [] && w[|w| - 1] in infos && infos[w[|w| - 1]].parent == w[|w| - 1]
  }

  /** The walk from `k` ends at a node that is its own parent. */
  predicate IsRooted(infos: Infos, k: Key) {
    EndsAtRoot(infos, Walk(infos, k))
  }

  /** The last node the walk meets. */
  function Root(infos: Infos, k: Key): Key {
    var w := Walk(infos, k);
    if w == [] then k else w[|w| - 1]
  }

  function PortsOf(infos: Infos, w: seq<Key>): (ports: seq<Port>)
    requires forall i :: 0 <= i < |w| ==> w[i] in infos
  {
    seq(|w|, i requires 0 <= i < |w| => infos[w[i]].port)
  }

  /** Tree coordinates: the ports from the root down to `k`. */
  function Coords(infos: Infos, k: Key): (c: seq<Port>)
    requires IsRooted(infos, k)
    ensures |c| == |Walk(infos, k)| - 1
  {
    var w := Walk(infos, k);
    WalkKnown(infos, k, {});
    Reversed(PortsOf(infos, w[..|w| - 1]))
  }

  function Reversed<T>(s: seq<T>): (r: seq<T>)
    ensures |r| == |s| && forall i :: 0 <= i < |s| ==> r[i] == s[|s| - 1 - i]
  {
    if s == [] then [] else Reversed(s[1..]) + [s[0]]
  }

  // ---------------------------------------------------------------- facts about the walk

  lemma {:induction false} WalkKnown(infos: Infos, k: Key, seen: set<Key>)
    ensures forall x :: x in WalkFrom(infos, k, seen) ==> x in infos && x !in seen
    decreases |infos.Keys - seen|
  {
    if !(k in seen || k !in infos) {
      assert infos.Keys - (seen + {k}) == infos.Keys - seen - {k};
      WalkKnown(infos, infos[k].parent, seen + {k});
    }
  }

  lemma {:induction false} WalkDistinct(infos: Infos, k: Key, seen: set<Key>)
    ensures Distinct(WalkFrom(infos, k, seen))
    decreases |infos.Keys - seen|
  {
    if !(k in seen || k !in infos) {
      assert infos.Keys - (seen + {k}) == infos.Keys - seen - {k};
      WalkDistinct(infos, infos[k].parent, seen + {k});
      WalkKnown(infos, infos[k].parent, seen + {k});
      var rest := WalkFrom(infos, infos[k].parent, seen + {k});
      assert forall i :: 0 <= i < |rest| ==> rest[i] in rest;
    }
  }

  /** Each node of the walk is followed by its parent. */
  lemma {:induction false} WalkLinked(infos: Infos, k: Key, seen: set<Key>, i: nat)
    requires i + 1 < |WalkFrom(infos, k, seen)|
    ensures var w := WalkFrom(infos, k, seen); w[i] in infos && infos[w[i]].parent == w[i + 1]
    decreases |infos.Keys - seen|
  {
    assert infos.Keys - (seen + {k}) == infos.Keys - seen - {k};
    if i > 0 { WalkLinked(infos, infos[k].parent, seen + {k}, i - 1); }
  }

  /** The walk stops because the next node is unknown or has been met. */
  lemma {:induction false} WalkStops(infos: Infos, k: Key, seen: set<Key>)
    requires WalkFrom(infos, k, seen) != []
    ensures var w := WalkFrom(infos, k, seen);
            w[|w| - 1] in infos && var p := infos[w[|w| - 1]].parent; p !in infos || p in w || p in seen
    decreases |infos.Keys - seen|
  {
    assert infos.Keys - (seen + {k}) == infos.Keys - seen - {k};
    if WalkFrom(infos, infos[k].parent, seen + {k}) != [] { WalkStops(infos, infos[k].parent, seen + {k}); }
  }

  /** A walk that ends at a root does not depend on what was already seen, nor on the
      rest of the map. */
  lemma {:induction false} RootedWalkStable(infos: Infos, k: Key, seen: set<Key>, bigger: Infos, fewer: set<Key>)
    requires EndsAtRoot(infos, WalkFrom(infos, k, seen)) && fewer <= seen
    requires forall x :: x in infos ==> x in bigger && bigger[x] == infos[x]
    ensures WalkFrom(bigger, k, fewer) == WalkFrom(infos, k, seen)
    decreases |infos.Keys - seen|
  {
    assert infos.Keys - (seen + {k}) == infos.Keys - seen - {k};
    var p := infos[k].parent;
    if p != k {
      var rest := WalkFrom(infos, p, seen + {k});
      assert rest != [];
      assert rest[|rest| - 1] == WalkFrom(infos, k, seen)[|rest|];
      RootedWalkStable(infos, p, seen + {k}, bigger, fewer + {k});
    }
  }

  /** Coordinates of a node are its parent's plus its own port. */
  lemma CoordsStep(infos: Infos, k: Key)
    requires IsRooted(infos, k) && infos[k].parent != k
    ensures var p := infos[k].parent;
            && Walk(infos, k) == [k] + Walk(infos, p)
            && IsRooted(infos, p) && Root(infos, p) == Root(infos, k)
            && Coords(infos, k) == Coords(infos, p) + [infos[k].port]
  {
    var p := infos[k].parent;
    var rest := WalkFrom(infos, p, {k});
    assert {} + {k} == {k};
    WalkKnown(infos, p, {});
    assert Walk(infos, k) == [k] + rest;
    assert rest != [] && rest[|rest| - 1] == Walk(infos, k)[|rest|];
    RootedWalkStable(infos, p, {k}, infos, {});
    var w := Walk(infos, k);
    assert PortsOf(infos, w[..|w| - 1])[1..] == PortsOf(infos, rest[..|rest| - 1]);
  }

  // ---------------------------------------------------------------- the four methods

  /** The walk from `dest` has met `met`, and goes on from `next` avoiding `seen`. */
  ghost predicate Underway(infos: Infos, dest: Key, met: seq<Key>, next: Key, seen: set<Key>) {
    Walk(infos, dest) == met + WalkFrom(infos, next, seen)
  }

  lemma Starts(infos: Infos, dest: Key)
    ensures Underway(infos, dest, [], dest, {})
  {
    assert Walk(infos, dest) == [] + WalkFrom(infos, dest, {});
  }

  lemma Advances(infos: Infos, dest: Key, met: seq<Key>, next: Key, seen: set<Key>)
    requires Underway(infos, dest, met, next, seen) && next in infos && next !in seen
    ensures Underway(infos, dest, met + [next], infos[next].parent, seen + {next})
    ensures |infos.Keys - (seen + {next})| < |infos.Keys - seen|
  {
    assert infos.Keys - (seen + {next}) == infos.Keys - seen - {next};
    var rest := WalkFrom(infos, infos[next].parent, seen + {next});
    assert met + ([next] + rest) == (met + [next]) + rest;
  }

  lemma Ends(infos: Infos, dest: Key, met: seq<Key>, next: Key, seen: set<Key>)
    requires Underway(infos, dest, met, next, seen) && (next in seen || next !in infos)
    ensures Walk(infos, dest) == met
  {
  }

  lemma EndsRooted(infos: Infos, dest: Key, met: seq<Key>, next: Key, seen: set<Key>)
    requires Underway(infos, dest, met, next, seen) && next in infos && next !in seen && infos[next].parent == next
    requires forall i :: 0 <= i < |met| ==> met[i] in infos
    ensures Walk(infos, dest) == met + [next] && IsRooted(infos, dest) && Root(infos, dest) == next
    ensures Coords(infos, dest) == Reversed(PortsOf(infos, met))
  {
    Advances(infos, dest, met, next, seen);
    Ends(infos, dest, met + [next], next, seen + {next});
    assert (met + [next])[..|met|] == met;
  }

  /** A walk that has met no self-parent is longer than what it has met, or not rooted. */
  lemma NotRootedYet(infos: Infos, dest: Key, met: seq<Key>, next: Key, seen: set<Key>)
    requires Underway(infos, dest, met, next, seen)
    requires forall i :: 0 <= i < |met| ==> met[i] in infos && infos[met[i]].parent != met[i]
    ensures IsRooted(infos, dest) ==> |Walk(infos, dest)| > |met| && next in infos && next !in seen
  {
    if next in seen || next !in infos { Ends(infos, dest, met, next, seen); }
  }

  /** `dists` numbers the nodes met, in order. */
  predicate Numbers(dists: map<Key, nat>, met: seq<Key>) {
    && (forall i :: 0 <= i < |met| ==> met[i] in dists && dists[met[i]] == i)
    && (forall k :: k in dists ==> dists[k] < |met| && met[dists[k]] == k)
  }

  ghost predicate Numbering(infos: Infos, dest: Key, met: seq<Key>, next: Key, dists: map<Key, nat>) {
    Underway(infos, dest, met, next, dists.Keys) && Numbers(dists, met)
  }

  lemma NumbersSnoc(dists: map<Key, nat>, met: seq<Key>, k: Key)
    requires Numbers(dists, met) && k !in dists
    ensures Numbers(dists[k := |met|], met + [k]) && dists[k := |met|].Keys == dists.Keys + {k}
  {
  }

  lemma NumbersNext(infos: Infos, dest: Key, met: seq<Key>, next: Key, dists: map<Key, nat>)
    requires Numbering(infos, dest, met, next, dists) && next in infos && next !in dists
    ensures Numbering(infos, dest, met + [next], infos[next].parent, dists[next := |met|])
    ensures |infos.Keys - dists[next := |met|].Keys| < |infos.Keys - dists.Keys|
  {
    NumbersSnoc(dists, met, next);
    Advances(infos, dest, met, next, dists.Keys);
  }

  method RootPathFor(infos: Infos, dest: Key) returns (path: Option<seq<Port>>)
    ensures path.Some? <==> IsRooted(infos, dest)
    ensures path.Some? ==> path.value == Coords(infos, dest)
  {
    var ports: seq<Port> := [];
    var seen: set<Key> := {};
    var next := dest;
    ghost var met: seq<Key> := [];
    Starts(infos, dest);
    while true
      invariant Underway(infos, dest, met, next, seen)
      invariant forall i :: 0 <= i < |met| ==> met[i] in infos && infos[met[i]].parent != met[i]
      invariant ports == PortsOf(infos, met)
      decreases |infos.Keys - seen|
    {
      if next in seen || next !in infos {
        NotRootedYet(infos, dest, met, next, seen);
        return None;
      }
      var info := infos[next];
      if next == info.parent {
        EndsRooted(infos, dest, met, next, seen);
        return Some(Reversed(ports));
      }
      Advances(infos, dest, met, next, seen);
      seen := seen + {next};
      ports := ports + [info.port];
      met := met + [next];
      next := info.parent;
    }
  }

  method RootAndDists(infos: Infos, dest: Key) returns (root: Key, dists: map<Key, nat>)
    ensures root == Root(infos, dest)
    ensures Numbers(dists, Walk(infos, dest))
  {
    dists := map[];
    var next := dest;
    root := dest;
    var dist := 0;
    ghost var met: seq<Key> := [];
    Starts(infos, dest);
    while next !in dists && next in infos
      invariant Numbering(infos, dest, met, next, dists)
      invariant dist == |met| && root == if met == [] then dest else met[|met| - 1]
      decreases |infos.Keys - dists.Keys|
    {
      NumbersNext(infos, dest, met, next, dists);
      root := next;
      dists := dists[next := dist];
      dist := dist + 1;
      met := met + [next];
      next := infos[next].parent;
    }
    Ends(infos, dest, met, next, dists.Keys);
  }

  /** The nodes pushed so far are the nodes met and then `here`. */
  ghost predicate Pushing(infos: Infos, key: Key, anc: seq<Key>, here: Key, seen: set<Key>) {
    && anc != [] && anc[|anc| - 1] == here && here !in seen
    && Holds(anc[..|anc| - 1], seen)
    && Underway(infos, key, anc[..|anc| - 1], here, seen)
  }

  predicate Holds(s: seq<Key>, elems: set<Key>) {
    (forall i :: 0 <= i < |s| ==> s[i] in elems) && (forall x :: x in elems ==> x in s)
  }

  lemma HoldsSnoc(s: seq<Key>, elems: set<Key>, k: Key)
    requires Holds(s, elems)
    ensures Holds(s + [k], elems + {k})
    ensures forall x :: x in s + [k] <==> x in elems + {k}
  {
  }

  lemma Pushes(infos: Infos, key: Key, anc: seq<Key>, here: Key, seen: set<Key>)
    requires Pushing(infos, key, anc, here, seen) && here in infos
    ensures |infos.Keys - (seen + {here})| < |infos.Keys - seen|
    ensures var p := infos[here].parent;
            if p in anc then Walk(infos, key) == anc
            else Pushing(infos, key, anc + [p], p, seen + {here})
  {
    Advances(infos, key, anc[..|anc| - 1], here, seen);
    assert anc == anc[..|anc| - 1] + [here];
    HoldsSnoc(anc[..|anc| - 1], seen, here);
    var p := infos[here].parent;
    if p in anc {
      Ends(infos, key, anc, p, seen + {here});
    } else {
      assert (anc + [p])[..|anc|] == anc;
    }
  }

  method Ancestry(infos: Infos, key: Key) returns (anc: seq<Key>)
    ensures anc == Reversed(Walk(infos, key))
  {
    anc := [key];
    var here := key;
    ghost var seen: set<Key> := {};
    Starts(infos, key);
    while true
      invariant Pushing(infos, key, anc, here, seen)
      decreases |infos.Keys - seen|
    {
      if here in infos {
        Pushes(infos, key, anc, here, seen);
        if infos[here].parent in anc {
          break;
        }
        seen := seen + {here};
        anc := anc + [infos[here].parent];
        here := infos[here].parent;
      } else {
        anc := anc[..|anc| - 1];
        Ends(infos, key, anc, here, seen);
        break;
      }
    }
    anc := Reversed(anc);
  }

  /** A walk without a memory has made `depth` steps and met no self-parent: it is
      still underway, or it has been going round a cycle. */
  ghost predicate Climbing(infos: Infos, self: Key, met: seq<Key>, next: Key, seen: set<Key>, depth: nat) {
    && Underway(infos, self, met, next, seen)
    && (next !in seen ==> |met| == depth)
    && (forall i :: 0 <= i < |met| ==> met[i] in infos && infos[met[i]].parent != met[i])
    && (forall x :: x in seen ==> x in infos && infos[x].parent != x && infos[x].parent in seen + {next})
  }

  lemma Climbs(infos: Infos, self: Key, met: seq<Key>, next: Key, seen: set<Key>, depth: nat)
    returns (met': seq<Key>, seen': set<Key>)
    requires Climbing(infos, self, met, next, seen, depth) && next in infos && infos[next].parent != next
    ensures Climbing(infos, self, met', infos[next].parent, seen', depth + 1)
  {
    if next !in seen {
      Advances(infos, self, met, next, seen);
      met', seen' := met + [next], seen + {next};
    } else {
      Ends(infos, self, met, next, seen);
      assert met + [] == met;
      met', seen' := met, seen;
    }
  }

  const MAX_DEPTH: nat := 1024

  /** The view's walk has no memory: a cycle runs into the depth limit. */
  method RootAndDepth(infos: Infos, self: Key) returns (r: Option<(Key, nat)>)
    ensures r == if IsRooted(infos, self) && |Walk(infos, self)| - 1 <= MAX_DEPTH
                 then Some((Root(infos, self), |Walk(infos, self)| - 1)) else None
  {
    var next := self;
    var depth := 0;
    ghost var met: seq<Key> := [];
    ghost var seen: set<Key> := {};
    Starts(infos, self);
    while true
      invariant depth <= MAX_DEPTH && Climbing(infos, self, met, next, seen, depth)
      decreases MAX_DEPTH - depth
    {
      if next !in infos {
        NotRootedYet(infos, self, met, next, seen);
        return None;
      }
      if infos[next].parent == next {
        EndsRooted(infos, self, met, next, seen);
        return Some((next, depth));
      }
      depth := depth + 1;
      met, seen := Climbs(infos, self, met, next, seen, depth - 1);
      if depth > MAX_DEPTH {
        NotRootedYet(infos, self, met, infos[next].parent, seen);
        return None;
      }
      next := infos[next].parent;
    }
  }

  /** The walks agree. A path means: a self-parented root at distance |path|, an
      ancestry without repetition that starts at the root and has |path| + 1 nodes,
      and the same root and depth in the view exactly when |path| is at most 1024. */
  method WalksAgree(infos: Infos, k: Key)
    returns (path: Option<seq<Port>>, root: Key, dists: map<Key, nat>, anc: seq<Key>, view: Option<(Key, nat)>)
    ensures path.Some? ==>
      && root in infos && infos[root].parent == root && root in dists && dists[root] == |path.value|
      && |anc| == |path.value| + 1 && Distinct(anc) && anc[0] == root && anc[|anc| - 1] == k
      && (view == Some((root, |path.value|)) <==> |path.value| <= MAX_DEPTH)
    ensures path.None? ==> view.None? && (root !in infos || infos[root].parent != root)
  {
    path := RootPathFor(infos, k);
    root, dists := RootAndDists(infos, k);
    anc := Ancestry(infos, k);
    view := RootAndDepth(infos, k);
    WalkDistinct(infos, k, {});
  }
}

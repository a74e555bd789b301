/** The two directions of a session never share a secret, whatever the network does
    (`src/session.rs`). A shared DH pair would need a message of one side to carry the
    labels of a message of the other, swapped. */
module SessionSecrets {
  import opened Basics
  import opened Sessions
  import opened SessionWorld

  // ---------------------------------------------------------------- labels

  predicate Labelled(m: Traffic, s: State) {
    m.senderSeq == s.localKeySeq && m.receiverSeq == s.remoteKeySeq
  }

  /** Nothing `peer` says of `me` goes past `me`'s published keys, and whatever names
      `me`'s current position was sent from beyond what `me` knows of `peer`. */
  predicate Faces(me: Node, peer: Node) {
    && (forall m :: m in me.traffic ==> m.receiverSeq + 1 < |peer.keys|)
    && (me.session.Some? ==>
          var s := me.session.value;
          && (forall m :: m in peer.traffic && m.receiverSeq == s.localKeySeq ==> m.senderSeq > s.remoteKeySeq)
          && (peer.session.Some? && peer.session.value.remoteKeySeq == s.localKeySeq ==>
                peer.session.value.localKeySeq > s.remoteKeySeq))
  }

  predicate Swapped(x: Traffic, y: Traffic) {
    x.senderSeq == y.receiverSeq && x.receiverSeq == y.senderSeq
  }

  predicate NoneSwapped(me: Node, peer: Node) {
    forall x, y :: x in me.traffic && y in peer.traffic ==> !Swapped(x, y)
  }

  predicate LabelsOk(me: Node, peer: Node) {
    Faces(me, peer) && Faces(peer, me) && NoneSwapped(me, peer)
  }

  predicate SamePlace(me: Node, next: Node) {
    && me.session.Some? && next.session.Some?
    && me.session.value.localKeySeq == next.session.value.localKeySeq
    && me.session.value.remoteKeySeq == next.session.value.remoteKeySeq
  }

  /** A session stays in its place, or moves on to a position that nothing of the peer
      names yet; at most one message is sent, under the labels of the place reached. */
  ghost predicate Moves(me: Node, next: Node) {
    && me.keys <= next.keys && (next.session.None? ==> me.session.None?)
    && (next.session.Some? ==> SamePlace(me, next) || next.session.value.localKeySeq + 1 >= |me.keys|)
    && (next.traffic == me.traffic
        || (next.session.Some? && exists m :: Labelled(m, next.session.value) && next.traffic == me.traffic + {m}))
  }

  /** The move without its message. */
  lemma PlaceKeeps(me: Node, next: Node, peer: Node)
    requires NodeOk(me, peer) && NodeOk(peer, me) && LabelsOk(me, peer)
    requires Moves(me, next) && next.traffic == me.traffic
    ensures LabelsOk(next, peer)
  {
  }

  /** A message under the session's own labels. */
  lemma MessageKeeps(me: Node, next: Node, peer: Node, m: Traffic)
    requires LabelsOk(me, peer) && me.session.Some? && Labelled(m, me.session.value)
    requires me.session.value.remoteKeySeq + 1 < |peer.keys|
    requires next.session == me.session && next.keys == me.keys && next.traffic == me.traffic + {m}
    ensures LabelsOk(next, peer)
  {
  }

  lemma MoveKeeps(me: Node, next: Node, peer: Node)
    requires NodeOk(me, peer) && NodeOk(peer, me) && NodeOk(next, peer) && LabelsOk(me, peer) && Moves(me, next)
    ensures LabelsOk(next, peer)
  {
    var mid := next.(traffic := me.traffic);
    PlaceKeeps(me, mid, peer);
    if next.traffic != me.traffic {
      var m :| Labelled(m, next.session.value) && next.traffic == me.traffic + {m};
      MessageKeeps(mid, next, peer, m);
    }
  }

  // ---------------------------------------------------------------- every action is such a move

  lemma SealMoves(me: Node, s: State, payload: seq<int>, k: KeyId)
    requires Owns(s, me.keys) && me.session == Some(s)
    ensures Moves(me, Seal(me, s, payload, k))
  {
    var (t, m) := Encrypt(s, payload, k);
    assert Labelled(m, t);
  }

  lemma AnswerMoves(me: Node, s: State, init: Init, ackSeq: InitSeq, k: KeyId)
    requires Owns(s, me.keys) && me.session == Some(s)
    ensures Moves(me, Answer(me, s, init, ackSeq, k))
  {
  }

  lemma FirstInitMoves(me: Node, peer: Node, init: Init, ackSeq: InitSeq, k: KeyId)
    requires NodeOk(me, peer) && me.session.None? && init.seq_ > 0
    ensures Moves(me, OnFirstInit(me, init, ackSeq, k))
  {
    if me.buffer.Some? {
      var buf := me.buffer.value;
      var s := AdoptBuffered(ForInit(init, k, k + 1, k + 2), buf.send, buf.next);
      var o := Answer(me.(buffer := None), s, init, ackSeq, k + 3);
      var (t, m) := Encrypt(o.session.value, buf.data, k + 4);
      assert Labelled(m, t);
    }
  }

  lemma InitMessageMoves(me: Node, peer: Node, init: Init, isAck: bool, ackSeq: InitSeq, k: KeyId)
    requires NodeOk(me, peer) && init.seq_ > 0
    ensures Moves(me, OnInitMessage(me, init, isAck, ackSeq, k))
  {
    if me.session.None? {
      FirstInitMoves(me, peer, init, ackSeq, k);
    } else if !isAck {
      AnswerMoves(me, me.session.value, init, ackSeq, k);
    }
  }

  lemma StepMoves(me: Node, peer: Node, act: Action, k: KeyId)
    requires NodeOk(me, peer) && NodeOk(peer, me)
    ensures Moves(me, NodeStep(me, peer, act, k))
  {
    match act
    case Submit(payload, seq_) =>
      if me.session.Some? { SealMoves(me, me.session.value, payload, k); }
    case DeliverInit(init, isAck, ackSeq) =>
      if init in peer.inits { InitMessageMoves(me, peer, init, isAck, ackSeq, k); }
    case DeliverTraffic(m, now, reinitSeq) =>
  }

  // ---------------------------------------------------------------- keys

  predicate KeysApart(ka: seq<KeyId>, kb: seq<KeyId>, supply: KeyId) {
    && Distinct(ka) && Distinct(kb)
    && (forall i :: 0 <= i < |ka| ==> ka[i] < supply)
    && (forall i :: 0 <= i < |kb| ==> kb[i] < supply)
    && (forall i, j :: 0 <= i < |ka| && 0 <= j < |kb| ==> ka[i] != kb[j])
  }

  /** What joins a key sequence in one step comes from the step's supply of five. */
  predicate Drawn(keys: seq<KeyId>, next: seq<KeyId>, k: KeyId) {
    && keys <= next
    && (forall i :: |keys| <= i < |next| ==> k <= next[i] < k + 5)
    && (forall i, j :: |keys| <= i < j < |next| ==> next[i] < next[j])
  }

  lemma DrawnStaysApart(ka: seq<KeyId>, kb: seq<KeyId>, supply: KeyId, next: seq<KeyId>)
    requires KeysApart(ka, kb, supply) && Drawn(ka, next, supply)
    ensures KeysApart(next, kb, supply + 5)
  {
    assert forall i :: 0 <= i < |ka| ==> next[i] == ka[i];
  }

  lemma DrawsOne(keys: seq<KeyId>, next: seq<KeyId>, k: KeyId, j: nat)
    requires next == keys || next == keys + [k + j]
    requires j < 5
    ensures Drawn(keys, next, k)
  {
  }

  lemma FirstInitDraws(me: Node, peer: Node, init: Init, ackSeq: InitSeq, k: KeyId)
    requires NodeOk(me, peer) && me.session.None?
    ensures Drawn(me.keys, OnFirstInit(me, init, ackSeq, k).keys, k)
  {
  }

  lemma StepDraws(me: Node, peer: Node, act: Action, k: KeyId)
    requires NodeOk(me, peer) && NodeOk(peer, me)
    ensures Drawn(me.keys, NodeStep(me, peer, act, k).keys, k)
  {
    var next := NodeStep(me, peer, act, k);
    if me.session.Some? {
      DrawsOne(me.keys, next.keys, k, 0);
    } else if act.DeliverInit? && act.init in peer.inits {
      FirstInitDraws(me, peer, act.init, act.ackSeq, k);
    }
  }

  // ---------------------------------------------------------------- every run

  predicate Apart(me: Node, peer: Node, supply: KeyId) {
    NodeOk(me, peer) && NodeOk(peer, me) && LabelsOk(me, peer) && KeysApart(me.keys, peer.keys, supply)
  }

  lemma ApartEitherWay(me: Node, peer: Node, supply: KeyId)
    requires Apart(me, peer, supply)
    ensures Apart(peer, me, supply)
  {
    forall x, y | x in peer.traffic && y in me.traffic ensures !Swapped(x, y) { assert !Swapped(y, x); }
  }

  lemma StepKeepsApart(me: Node, peer: Node, act: Action, k: KeyId)
    requires Apart(me, peer, k)
    ensures Apart(NodeStep(me, peer, act, k), peer, k + 5)
  {
    var next := NodeStep(me, peer, act, k);
    NodeStepOk(me, peer, act, k);
    PeerKept(peer, me, next);
    StepMoves(me, peer, act, k);
    MoveKeeps(me, next, peer);
    StepDraws(me, peer, act, k);
    DrawnStaysApart(me.keys, peer.keys, k, next.keys);
  }

  lemma WorldStepKeepsApart(w: World, atA: bool, act: Action)
    requires Apart(w.a, w.b, w.supply)
    ensures var n := Step(w, atA, act); Apart(n.a, n.b, n.supply)
  {
    if atA {
      StepKeepsApart(w.a, w.b, act, w.supply);
    } else {
      ApartEitherWay(w.a, w.b, w.supply);
      StepKeepsApart(w.b, w.a, act, w.supply);
      ApartEitherWay(NodeStep(w.b, w.a, act, w.supply), w.a, w.supply + 5);
    }
  }

  lemma {:induction false} RunKeepsApart(actions: seq<(bool, Action)>)
    ensures var w := Run(actions); Apart(w.a, w.b, w.supply)
  {
    if actions != [] {
      var before, last := actions[..|actions| - 1], actions[|actions| - 1];
      RunKeepsApart(before);
      WorldStepKeepsApart(Run(before), last.0, last.1);
    }
  }

  lemma SecretsDiffer(ka: seq<KeyId>, kb: seq<KeyId>, supply: KeyId, x: Traffic, y: Traffic)
    requires KeysApart(ka, kb, supply) && GenuineTraffic(x, ka, kb) && GenuineTraffic(y, kb, ka) && !Swapped(x, y)
    ensures x.box.secret != y.box.secret
  {
    var p, q, s, r := x.senderSeq, x.receiverSeq, y.senderSeq, y.receiverSeq;
    assert ka[p] != kb[s] && ka[r] != kb[q];
    if p == r { assert kb[q] != kb[s]; } else { assert ka[p] != ka[r]; }
  }

  /** The two directions never seal under one DH pair: over every run from two idle nodes,
      with any inits, acks and re-inits, nonce wraps, loss, duplication and reordering. */
  lemma DirectionsNeverShareASecret(actions: seq<(bool, Action)>, x: Traffic, y: Traffic)
    requires x in Run(actions).a.traffic && y in Run(actions).b.traffic
    ensures x.box.secret != y.box.secret
  {
    RunKeepsApart(actions);
    var w := Run(actions);
    SecretsDiffer(w.a.keys, w.b.keys, w.supply, x, y);
  }
}

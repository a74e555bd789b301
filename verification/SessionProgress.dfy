/** What sessions get done (`src/session.rs`): an ack is taken, keys rotate when they are
    due, the first payload arrives, and two sessions that have lost each other find each
    other again through one init and its ack. */
module SessionProgress {
  import opened Basics
  import opened Sessions
  import SessionRuns
  import opened SessionWorld

  // ---------------------------------------------------------------- one operation

  /** A newer ack of the peer's positions `keySeq` and the next moves the session there, and
      its own ratchet on by one; any other changes nothing. */
  lemma AckTakenIff(s: State, ack: Init, k: KeyId, keys: seq<KeyId>, peerKeys: seq<KeyId>)
    requires Owns(s, keys) && GenuineInit(ack, peerKeys)
    ensures var t := HandleAck(s, ack, k);
            if ack.seq_ > s.seq_ then
              && t.remoteKeySeq == ack.keySeq && t.current == peerKeys[ack.keySeq] && t.next == peerKeys[ack.keySeq + 1]
              && t.localKeySeq == s.localKeySeq + 1 && t.seq_ == ack.seq_ && t.sendNonce == s.sendNonce
              && t.recvNonce == 0 && t.nextSendNonce == 0 && t.nextRecvNonce == 0
            else t == s
  {
  }

  /** The same of an init, which is then answered with our keys after the move. */
  lemma InitTakenIff(s: State, init: Init, ackSeq: U64, k: KeyId, keys: seq<KeyId>, peerKeys: seq<KeyId>)
    requires Owns(s, keys) && GenuineInit(init, peerKeys)
    ensures var (t, answer) := HandleInit(s, init, ackSeq, k);
            if init.seq_ > s.seq_ then
              && t == HandleAck(s, init, k)
              && answer == Some(Init(keys[t.localKeySeq], k, t.localKeySeq, ackSeq))
            else t == s && answer.None?
  {
  }

  /** The three pairs of labels a session reads. */
  predicate InWindow(s: State, m: Traffic) {
    || (m.senderSeq == s.remoteKeySeq && m.receiverSeq + 1 == s.localKeySeq)
    || (m.senderSeq == s.remoteKeySeq + 1 && (m.receiverSeq == s.localKeySeq || m.receiverSeq + 1 == s.localKeySeq))
  }

  /** The nonce a message with such labels must be above. */
  function Floor(s: State, m: Traffic): U64 {
    if m.senderSeq == s.remoteKeySeq then s.recvNonce
    else if m.receiverSeq == s.localKeySeq then s.nextSendNonce
    else s.nextRecvNonce
  }

  /** Over every run a genuine message opens, to its own payload, exactly when its labels
      are in the window and its nonce is above the floor. */
  lemma OpensInWindow(actions: seq<(bool, Action)>, atA: bool, m: Traffic, now: nat, k: KeyId)
    requires var w := Run(actions);
             var me, peer := if atA then w.a else w.b, if atA then w.b else w.a;
             me.session.Some? && m in peer.traffic
    ensures var w := Run(actions);
            var s := (if atA then w.a else w.b).session.value;
            Decrypt(s, m, now, k).1 == if InWindow(s, m) && Floor(s, m) < m.nonce then Some(m.box.payload) else None
  {
    LabelsNameTheKey(actions, atA, m, now, k);
  }

  /** A message opened from a key ahead of the peer's current one moves both key sequences
      on by one, with the key inside the box as the peer's next, if and only if no rotation
      happened in the last 60 seconds; otherwise no key changes. */
  lemma RotatesIff(s: State, m: Traffic, now: nat, k: KeyId)
    requires Decrypt(s, m, now, k).1.Some?
    ensures var t := Decrypt(s, m, now, k).0;
            if m.senderSeq == s.remoteKeySeq + 1 && (s.rotatedAt.None? || now > s.rotatedAt.value + 60) then
              && t.localKeySeq == s.localKeySeq + 1 && t.remoteKeySeq == s.remoteKeySeq + 1
              && t.current == s.next && t.next == m.box.inner && t.nextKey == k && t.rotatedAt == Some(now)
              && t.recvNonce == m.nonce && t.sendNonce == 0 && t.nextSendNonce == 0 && t.nextRecvNonce == 0
            else
              && t.localKeySeq == s.localKeySeq && t.remoteKeySeq == s.remoteKeySeq
              && t.current == s.current && t.next == s.next && t.nextKey == s.nextKey && t.rotatedAt == s.rotatedAt
  {
  }

  /** A nonce that wraps moves the local key sequence on by one before its message is sealed,
      with nonce 0; any other is one above the last, under the same keys. */
  lemma WrapsIff(s: State, payload: seq<int>, k: KeyId)
    ensures var (t, m) := Encrypt(s, payload, k);
            && m.senderSeq == t.localKeySeq && m.receiverSeq == s.remoteKeySeq == t.remoteKeySeq
            && m.nonce == t.sendNonce
            && (if s.sendNonce == U64_MAX then
                  t.localKeySeq == s.localKeySeq + 1 && m.nonce == 0 && t.sendKey == s.nextKey && t.nextKey == k
                else t == s.(sendNonce := s.sendNonce + 1))
  {
  }

  // ---------------------------------------------------------------- in the world

  /** The node an action happens at, and its peer. */
  function Me(w: World, atA: bool): Node {
    if atA then w.a else w.b
  }

  function Peer(w: World, atA: bool): Node {
    Me(w, !atA)
  }

  /** Over every run: delivering an ack of the peer that is newer than anything the session
      has taken leaves it at the ack's positions of the peer's key sequence. */
  lemma AckIsTaken(actions: seq<(bool, Action)>, atA: bool, ack: Init, ackSeq: InitSeq, k: KeyId)
    requires var w := Run(actions);
             && Me(w, atA).session.Some? && ack in Peer(w, atA).inits && ack.seq_ > Me(w, atA).session.value.seq_
    ensures var w := Run(actions);
            var me, peer := Me(w, atA), Peer(w, atA);
            var n := NodeStep(me, peer, DeliverInit(ack, true, ackSeq), k);
            && n.session.Some? && n.session.value.remoteKeySeq == ack.keySeq && ack.keySeq + 1 < |peer.keys|
            && n.session.value.current == peer.keys[ack.keySeq] && n.session.value.next == peer.keys[ack.keySeq + 1]
            && n.session.value.localKeySeq == me.session.value.localKeySeq + 1
  {
    RunKeepsInv(actions);
    var w := Run(actions);
    assert GenuineInit(ack, Peer(w, atA).keys);
    AckTakenIff(Me(w, atA).session.value, ack, k, Me(w, atA).keys, Peer(w, atA).keys);
  }

  // ---------------------------------------------------------------- finding each other again

  /** Two sessions after an init of `b`'s and the ack to it. */
  predicate Together(a: State, b: State, ka: seq<KeyId>, kb: seq<KeyId>) {
    && Owns(a, ka) && Follows(a, kb) && Owns(b, kb) && Follows(b, ka)
    && b.remoteKeySeq == a.localKeySeq && b.localKeySeq == a.remoteKeySeq + 1
    && a.nextSendNonce == 0 && b.recvNonce == 0
  }

  lemma ExchangeBringsTogether(a: State, b: State, ka: seq<KeyId>, kb: seq<KeyId>, r: InitSeq, q: InitSeq,
                               i: KeyId, j: KeyId)
    requires Owns(a, ka) && Follows(a, kb) && Owns(b, kb) && Follows(b, ka) && r > a.seq_ && q > b.seq_
    ensures var (a', ack) := HandleInit(a, MakeInit(b, r), q, i);
            ack.Some? && Together(a', HandleAck(b, ack.value, j), ka + [i], kb + [j])
  {
    var init := MakeInit(b, r);
    SessionRuns.UpdateKeeps(a, ka, init, i);
    UpdateFollows(a, init, i, kb);
    var a' := HandleInit(a, init, q, i).0;
    var ack := MakeInit(a', q);
    SessionRuns.UpdateKeeps(b, kb, ack, j);
    UpdateFollows(b, ack, j, ka + [i]);
    assert kb <= kb + [j] && a'.current == kb[b.localKeySeq] && a'.next == kb[b.localKeySeq + 1];
  }

  lemma SealedIsGenuine(s: State, keys: seq<KeyId>, peerKeys: seq<KeyId>, payload: seq<int>, k: KeyId)
    requires Owns(s, keys) && Follows(s, peerKeys) && s.sendNonce != U64_MAX
    ensures var m := Encrypt(s, payload, k).1;
            && GenuineTraffic(m, keys, peerKeys) && m.nonce == s.sendNonce + 1 && m.box.payload == payload
            && m.senderSeq == s.localKeySeq && m.receiverSeq == s.remoteKeySeq
  {
  }

  /** Then the next message in either direction opens, if and only if its sender is not
      about to wrap its nonce. */
  lemma TogetherOpens(a: State, b: State, ka: seq<KeyId>, kb: seq<KeyId>, p: seq<int>, now: nat, k: KeyId, k': KeyId)
    requires Together(a, b, ka, kb)
    ensures Decrypt(b, Encrypt(a, p, k).1, now, k').1 == Some(p) <==> a.sendNonce != U64_MAX
    ensures Decrypt(a, Encrypt(b, p, k).1, now, k').1 == Some(p) <==> b.sendNonce != U64_MAX
  {
    if a.sendNonce != U64_MAX {
      SealedIsGenuine(a, ka, kb, p, k);
      SlotHoldsSecret(b, kb, ka, Encrypt(a, p, k).1);
    }
    if b.sendNonce != U64_MAX {
      SealedIsGenuine(b, kb, ka, p, k);
      SlotHoldsSecret(a, ka, kb, Encrypt(b, p, k).1);
    }
  }

  /** `peer` refuses a message and sends an init, `me` takes it and sends an ack, `peer`
      takes that. */
  function Recovery(me: Node, peer: Node, m: Traffic, now: nat, r: InitSeq, q: InitSeq, k: KeyId): (Node, Node)
    requires peer.session.Some?
  {
    var peer1 := NodeStep(peer, me, DeliverTraffic(m, now, r), k);
    var me1 := NodeStep(me, peer1, DeliverInit(MakeInit(peer.session.value, r), false, q), k + 5);
    if me1.session.None? then (me1, peer1)
    else (me1, NodeStep(peer1, me1, DeliverInit(MakeInit(me1.session.value, q), true, q), k + 10))
  }

  lemma RecoveryIs(me: Node, peer: Node, m: Traffic, now: nat, r: InitSeq, q: InitSeq, k: KeyId)
    requires me.session.Some? && peer.session.Some? && m in me.traffic
    requires Decrypt(peer.session.value, m, now, k).1.None? && r > me.session.value.seq_
    ensures var (s, ack) := HandleInit(me.session.value, MakeInit(peer.session.value, r), q, k + 5);
            var (me', peer') := Recovery(me, peer, m, now, r, q, k);
            && ack.Some? && me'.session == Some(s)
            && peer'.session == Some(HandleAck(peer.session.value, ack.value, k + 10))
  {
    var b := peer.session.value;
    var peer1 := NodeStep(peer, me, DeliverTraffic(m, now, r), k);
    assert MakeInit(b, r) in peer1.inits && peer1.session == Some(b);
    var me1 := NodeStep(me, peer1, DeliverInit(MakeInit(b, r), false, q), k + 5);
    assert MakeInit(me1.session.value, q) in me1.inits;
  }

  /** The next message in either direction opens, if and only if its sender is not about to
      wrap its nonce. */
  ghost predicate Talking(a: State, b: State) {
    forall p, now, k, k' ::
      && (Decrypt(b, Encrypt(a, p, k).1, now, k').1 == Some(p) <==> a.sendNonce != U64_MAX)
      && (Decrypt(a, Encrypt(b, p, k).1, now, k').1 == Some(p) <==> b.sendNonce != U64_MAX)
  }

  /** Recovery, from every state of every run: whatever two open sessions have come to, when
      one refuses a message of the other, its init and the ack to it, both newer than what
      the sessions have taken, bring them back to talking. */
  lemma Recovers(actions: seq<(bool, Action)>, atA: bool, m: Traffic, now: nat, r: InitSeq, q: InitSeq)
    requires var w := Run(actions);
             var me, peer := Me(w, atA), Peer(w, atA);
             && me.session.Some? && peer.session.Some? && m in me.traffic
             && Decrypt(peer.session.value, m, now, w.supply).1.None?
             && r > me.session.value.seq_ && q > peer.session.value.seq_
    ensures var w := Run(actions);
            var (me, peer) := Recovery(Me(w, atA), Peer(w, atA), m, now, r, q, w.supply);
            me.session.Some? && peer.session.Some? && Talking(me.session.value, peer.session.value)
  {
    RunKeepsInv(actions);
    var w := Run(actions);
    var me, peer := Me(w, atA), Peer(w, atA);
    var a, b, i, j := me.session.value, peer.session.value, w.supply + 5, w.supply + 10;
    ExchangeBringsTogether(a, b, me.keys, peer.keys, r, q, i, j);
    RecoveryIs(me, peer, m, now, r, q, w.supply);
    var (a', ack) := HandleInit(a, MakeInit(b, r), q, i);
    TogetherTalks(a', HandleAck(b, ack.value, j), me.keys + [i], peer.keys + [j]);
  }

  lemma TogetherTalks(a: State, b: State, ka: seq<KeyId>, kb: seq<KeyId>)
    requires Together(a, b, ka, kb)
    ensures Talking(a, b)
  {
    forall p, now, k, k'
      ensures Decrypt(b, Encrypt(a, p, k).1, now, k').1 == Some(p) <==> a.sendNonce != U64_MAX
      ensures Decrypt(a, Encrypt(b, p, k).1, now, k').1 == Some(p) <==> b.sendNonce != U64_MAX
    {
      TogetherOpens(a, b, ka, kb, p, now, k, k');
    }
  }

  // ---------------------------------------------------------------- first contact

  /** Without a session the last payload waits, behind the keys and the init of the first. */
  lemma LastPayloadWaits(me: Node, p: seq<int>, i: InitSeq, k: KeyId, p': seq<int>, i': InitSeq, k': KeyId)
    requires me.session.None? && me.buffer.None?
    ensures var once := OnSubmit(me, p, i, k);
            var twice := OnSubmit(once, p', i', k');
            && twice.session.None? && twice.buffer == Some(Buffer(k, k + 1, i, p'))
            && twice.keys == once.keys == [k, k + 1]
            && twice.inits == once.inits == me.inits + {Init(k, k + 1, 0, i)}
  {
  }

  /** `a` has a payload for `b`, `b` gets the init, `a` gets the ack. */
  function Contact(p: seq<int>, i: InitSeq, r: InitSeq, q: InitSeq, isAck: bool): World {
    var w1 := Step(World(IDLE, IDLE, 0), true, Submit(p, i));
    var w2 := Step(w1, false, DeliverInit(Init(0, 1, 0, i), false, r));
    Step(w2, true, DeliverInit(Init(7, 8, 1, r), isAck, q))
  }

  /** First contact: one init and the ack to it, whatever its type byte says, and the payload
      that waited is sent and opens. */
  lemma FirstPayloadArrives(p: seq<int>, i: InitSeq, r: InitSeq, q: InitSeq, isAck: bool, now: nat, k: KeyId)
    ensures var w := Contact(p, i, r, q, isAck);
            && w.a.session.Some? && w.b.session.Some? && w.a.buffer.None?
            && exists m :: m in w.a.traffic && Decrypt(w.b.session.value, m, now, k).1 == Some(p)
  {
    var w1 := Step(World(IDLE, IDLE, 0), true, Submit(p, i));
    assert w1.a.inits == {Init(0, 1, 0, i)} && w1.a.buffer == Some(Buffer(0, 1, i, p));
    var w2 := Step(w1, false, DeliverInit(Init(0, 1, 0, i), false, r));
    assert Init(7, 8, 1, r) in w2.b.inits;
    var w := Contact(p, i, r, q, isAck);
    var m := Traffic(1, 1, 1, Box(Dh(7, 1), 1, 13, p));
    assert m in w.a.traffic;
    assert Decrypt(w.b.session.value, m, now, k).1 == Some(p);
  }
}

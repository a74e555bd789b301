/** Two nodes that may open sessions with each other over a network that loses,
    duplicates and reorders everything (`src/session.rs`, `handle_session_bytes`,
    `session_send_kind`).

    Everything a node ever sent stays deliverable, any number of times and in any
    order. The leading type byte of an init or ack is outside its signature, so
    either may be delivered as the other. */
module SessionWorld {
  import opened Basics
  import opened Sessions
  import opened SessionRuns

  /** Sequence numbers of inits: `next_init_seq` is at least 1. */
  type InitSeq = x: int | 1 <= x < U64_LIMIT witness 1

  /** A pending outbound session: its keys, the init's sequence number, one payload. */
  datatype Buffer = Buffer(send: KeyId, next: KeyId, seq_: InitSeq, data: seq<int>)

  datatype Node = Node(
    session: Option<State>, buffer: Option<Buffer>,
    keys: seq<KeyId>, inits: set<Init>, traffic: set<Traffic>)

  datatype World = World(a: Node, b: Node, supply: KeyId)

  datatype Action =
    | Submit(payload: seq<int>, seq_: InitSeq)
    | DeliverInit(init: Init, isAck: bool, ackSeq: InitSeq)
    | DeliverTraffic(m: Traffic, now: nat, reinitSeq: InitSeq)

  function Seal(n: Node, s: State, payload: seq<int>, k: KeyId): Node {
    var (t, m) := Encrypt(s, payload, k);
    n.(session := Some(t), keys := Grow(n.keys, s, t, k), traffic := n.traffic + {m})
  }

  /** `session_send_kind`: seal on the open session, or hold the payload behind an init. */
  function OnSubmit(n: Node, payload: seq<int>, seq_: InitSeq, k: KeyId): Node {
    if n.session.Some? then Seal(n, n.session.value, payload, k)
    else
      var buf := if n.buffer.Some? then n.buffer.value.(data := payload) else Buffer(k, k + 1, seq_, payload);
      n.(buffer := Some(buf), inits := n.inits + {Init(buf.send, buf.next, 0, buf.seq_)},
         keys := [buf.send, buf.next])
  }

  /** An accepted update is answered with an ack. */
  function Answer(n: Node, s: State, init: Init, ackSeq: InitSeq, k: KeyId): Node {
    var (t, ack) := HandleInit(s, init, ackSeq, k);
    n.(session := Some(t), keys := Grow(n.keys, s, t, k),
       inits := n.inits + if ack.Some? then {ack.value} else {})
  }

  /** The new-session path: open, adopt a buffered initiator's keys, answer as an
      init whatever the type byte said, and flush the held payload. */
  function OnFirstInit(n: Node, init: Init, ackSeq: InitSeq, k: KeyId): Node
    requires n.session.None?
  {
    var s := ForInit(init, k, k + 1, k + 2);
    if n.buffer.None? then
      Answer(n.(keys := [k + 1, k + 2]), s, init, ackSeq, k + 3)
    else
      var buf := n.buffer.value;
      var o := Answer(n.(buffer := None), AdoptBuffered(s, buf.send, buf.next), init, ackSeq, k + 3);
      Seal(o, o.session.value, buf.data, k + 4)
  }

  function OnInitMessage(n: Node, init: Init, isAck: bool, ackSeq: InitSeq, k: KeyId): Node {
    if n.session.None? then OnFirstInit(n, init, ackSeq, k)
    else
      var s := n.session.value;
      if isAck then
        var t := HandleAck(s, init, k);
        n.(session := Some(t), keys := Grow(n.keys, s, t, k))
      else Answer(n, s, init, ackSeq, k)
  }

  /** A refused message is answered with a fresh init of the same keys. */
  function OnTraffic(n: Node, m: Traffic, now: nat, reinitSeq: InitSeq, k: KeyId): Node {
    if n.session.None? then n
    else
      var s := n.session.value;
      var (t, payload) := Decrypt(s, m, now, k);
      if payload.None? then n.(inits := n.inits + {MakeInit(s, reinitSeq)})
      else n.(session := Some(t), keys := Grow(n.keys, s, t, k))
  }

  /** One action at `me`; only what `peer` sent can be delivered. */
  function NodeStep(me: Node, peer: Node, act: Action, k: KeyId): Node {
    match act
    case Submit(payload, seq_) => OnSubmit(me, payload, seq_, k)
    case DeliverInit(init, isAck, ackSeq) =>
      if init in peer.inits then OnInitMessage(me, init, isAck, ackSeq, k) else me
    case DeliverTraffic(m, now, reinitSeq) =>
      if m in peer.traffic then OnTraffic(me, m, now, reinitSeq, k) else me
  }

  function Step(w: World, atA: bool, act: Action): World {
    if atA then World(NodeStep(w.a, w.b, act, w.supply), w.b, w.supply + 5)
    else World(w.a, NodeStep(w.b, w.a, act, w.supply), w.supply + 5)
  }

  const IDLE := Node(None, None, [], {}, {})

  function Run(actions: seq<(bool, Action)>): World {
    if actions == [] then World(IDLE, IDLE, 0)
    else Step(Run(actions[..|actions| - 1]), actions[|actions| - 1].0, actions[|actions| - 1].1)
  }

  // ---------------------------------------------------------------- the invariant

  /** An init says: here are positions `keySeq` and the next of my key sequence. */
  predicate GenuineInit(i: Init, keys: seq<KeyId>) {
    i.seq_ > 0 && i.keySeq + 1 < |keys| && i.current == keys[i.keySeq] && i.next == keys[i.keySeq + 1]
  }

  /** The labels of a traffic message name the DH pair it was sealed under, and the
      key inside it is the sender's next one. */
  predicate GenuineTraffic(m: Traffic, keys: seq<KeyId>, peerKeys: seq<KeyId>) {
    && m.senderSeq + 1 < |keys| && m.receiverSeq < |peerKeys|
    && m.box.secret == Dh(peerKeys[m.receiverSeq], keys[m.senderSeq])
    && m.box.nonce == m.nonce
    && m.box.inner == keys[m.senderSeq + 1]
  }

  predicate NodeOk(me: Node, peer: Node) {
    && (me.session.Some? ==>
          (me.buffer.None? && Owns(me.session.value, me.keys) && Follows(me.session.value, peer.keys)))
    && (me.session.None? ==>
          (me.keys == if me.buffer.Some? then [me.buffer.value.send, me.buffer.value.next] else []))
    && (forall i :: i in me.inits ==> GenuineInit(i, me.keys))
    && (forall m :: m in me.traffic ==> GenuineTraffic(m, me.keys, peer.keys))
  }

  predicate Inv(w: World) {
    NodeOk(w.a, w.b) && NodeOk(w.b, w.a)
  }

  /** What a genuine message says stays true as key sequences grow. */
  lemma PeerKept(peer: Node, me: Node, me': Node)
    requires NodeOk(peer, me) && me.keys <= me'.keys
    ensures NodeOk(peer, me')
  {
  }

  lemma SealOk(me: Node, peer: Node, s: State, payload: seq<int>, k: KeyId)
    requires me.buffer.None? && Owns(s, me.keys) && Follows(s, peer.keys)
    requires NodeOk(me.(session := Some(s)), peer)
    ensures NodeOk(Seal(me, s, payload, k), peer)
    ensures me.keys <= Seal(me, s, payload, k).keys
  {
    EncryptKeeps(s, me.keys, payload, k);
  }

  lemma UpdateFollows(s: State, init: Init, k: KeyId, peerKeys: seq<KeyId>)
    requires GenuineInit(init, peerKeys)
    ensures Follows(ApplyUpdate(s, init, k), peerKeys)
  {
  }

  lemma AnswerOk(me: Node, peer: Node, s: State, init: Init, ackSeq: InitSeq, k: KeyId)
    requires me.buffer.None? && Owns(s, me.keys) && GenuineInit(init, peer.keys)
    requires init.seq_ <= s.seq_ ==> Follows(s, peer.keys)
    requires forall i :: i in me.inits ==> GenuineInit(i, me.keys)
    requires forall m :: m in me.traffic ==> GenuineTraffic(m, me.keys, peer.keys)
    ensures NodeOk(Answer(me, s, init, ackSeq, k), peer)
    ensures me.keys <= Answer(me, s, init, ackSeq, k).keys
  {
    if s.seq_ < init.seq_ {
      UpdateKeeps(s, me.keys, init, k);
      UpdateFollows(s, init, k, peer.keys);
    }
  }

  lemma FirstInitOk(me: Node, peer: Node, init: Init, ackSeq: InitSeq, k: KeyId)
    requires NodeOk(me, peer) && me.session.None? && GenuineInit(init, peer.keys)
    ensures NodeOk(OnFirstInit(me, init, ackSeq, k), peer)
    ensures me.keys <= OnFirstInit(me, init, ackSeq, k).keys
  {
    var s := ForInit(init, k, k + 1, k + 2);
    if me.buffer.None? {
      AnswerOk(me.(keys := [k + 1, k + 2]), peer, s, init, ackSeq, k + 3);
    } else {
      var buf := me.buffer.value;
      var s' := AdoptBuffered(s, buf.send, buf.next);
      AnswerOk(me.(buffer := None), peer, s', init, ackSeq, k + 3);
      var o := Answer(me.(buffer := None), s', init, ackSeq, k + 3);
      SealOk(o, peer, o.session.value, buf.data, k + 4);
    }
  }

  /** A selected slot holds the secret a genuine message was sealed under. */
  lemma SlotHoldsSecret(s: State, keys: seq<KeyId>, peerKeys: seq<KeyId>, m: Traffic)
    requires Owns(s, keys) && Follows(s, peerKeys) && GenuineTraffic(m, peerKeys, keys)
    ensures SlotFor(s, m).Some? ==> SlotSecret(s, SlotFor(s, m).value) == m.box.secret
  {
  }

  lemma DecryptFollows(s: State, keys: seq<KeyId>, peerKeys: seq<KeyId>, m: Traffic, now: nat, k: KeyId)
    requires Owns(s, keys) && Follows(s, peerKeys) && GenuineTraffic(m, peerKeys, keys)
    ensures Follows(Decrypt(s, m, now, k).0, peerKeys)
  {
    SlotHoldsSecret(s, keys, peerKeys, m);
  }

  lemma InitMessageOk(me: Node, peer: Node, init: Init, isAck: bool, ackSeq: InitSeq, k: KeyId)
    requires NodeOk(me, peer) && GenuineInit(init, peer.keys)
    ensures NodeOk(OnInitMessage(me, init, isAck, ackSeq, k), peer)
    ensures me.keys <= OnInitMessage(me, init, isAck, ackSeq, k).keys
  {
    if me.session.None? {
      FirstInitOk(me, peer, init, ackSeq, k);
    } else if isAck {
      var s := me.session.value;
      if s.seq_ < init.seq_ {
        UpdateKeeps(s, me.keys, init, k);
        UpdateFollows(s, init, k, peer.keys);
      }
    } else {
      AnswerOk(me, peer, me.session.value, init, ackSeq, k);
    }
  }

  lemma TrafficOk(me: Node, peer: Node, m: Traffic, now: nat, reinitSeq: InitSeq, k: KeyId)
    requires NodeOk(me, peer) && GenuineTraffic(m, peer.keys, me.keys)
    ensures NodeOk(OnTraffic(me, m, now, reinitSeq, k), peer)
    ensures me.keys <= OnTraffic(me, m, now, reinitSeq, k).keys
  {
    if me.session.Some? {
      DecryptKeeps(me.session.value, me.keys, m, now, k);
      DecryptFollows(me.session.value, me.keys, peer.keys, m, now, k);
    }
  }

  lemma NodeStepOk(me: Node, peer: Node, act: Action, k: KeyId)
    requires NodeOk(me, peer) && NodeOk(peer, me)
    ensures NodeOk(NodeStep(me, peer, act, k), peer)
    ensures me.keys <= NodeStep(me, peer, act, k).keys
  {
    match act
    case Submit(payload, seq_) =>
      if me.session.Some? { SealOk(me, peer, me.session.value, payload, k); }
    case DeliverInit(init, isAck, ackSeq) =>
      if init in peer.inits { InitMessageOk(me, peer, init, isAck, ackSeq, k); }
    case DeliverTraffic(m, now, reinitSeq) =>
      if m in peer.traffic { TrafficOk(me, peer, m, now, reinitSeq, k); }
  }

  lemma {:induction false} RunKeepsInv(actions: seq<(bool, Action)>)
    ensures Inv(Run(actions))
  {
    if actions != [] {
      var w := Run(actions[..|actions| - 1]);
      RunKeepsInv(actions[..|actions| - 1]);
      var (atA, act) := actions[|actions| - 1];
      var me, peer := if atA then w.a else w.b, if atA then w.b else w.a;
      NodeStepOk(me, peer, act, w.supply);
      PeerKept(peer, me, NodeStep(me, peer, act, w.supply));
    }
  }

  /** Label/key agreement, over every run: when one side's session is handed a
      message the other side sealed, the slot its labels select holds exactly the
      DH pair it was sealed under. So it opens to its own payload unless the labels
      are outside the window or the nonce is not above the slot's. */
  lemma LabelsNameTheKey(actions: seq<(bool, Action)>, atA: bool, m: Traffic, now: nat, k: KeyId)
    requires var w := Run(actions);
             var me, peer := if atA then w.a else w.b, if atA then w.b else w.a;
             me.session.Some? && m in peer.traffic
    ensures var w := Run(actions);
            var s := (if atA then w.a else w.b).session.value;
            && (SlotFor(s, m).Some? ==> SlotSecret(s, SlotFor(s, m).value) == m.box.secret)
            && Decrypt(s, m, now, k).1 ==
                 if SlotFor(s, m).Some? && SlotNonce(s, SlotFor(s, m).value) < m.nonce
                 then Some(m.box.payload) else None
  {
    RunKeepsInv(actions);
    var w := Run(actions);
    var me, peer := if atA then w.a else w.b, if atA then w.b else w.a;
    SlotHoldsSecret(me.session.value, me.keys, peer.keys, m);
  }
}

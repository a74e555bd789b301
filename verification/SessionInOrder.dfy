/** Two sessions just after a handshake, over channels that lose but do not reorder.

    The initiator has sent its init, the responder has answered with an ack, and the
    initiator has taken the ack and sent its own. From there no side needs another
    init: every message that arrives opens. */
module SessionInOrder {
  import opened Basics
  import opened Sessions
  import opened SessionRuns
  import opened SessionWorld

  datatype Net = Net(
    a: State, b: State, ka: seq<KeyId>, kb: seq<KeyId>, supply: KeyId,
    ack: Option<Init>,                       // the initiator's ack, ahead of all its traffic
    ab: seq<Traffic>, ba: seq<Traffic>,      // in flight, oldest first
    sentA: seq<Traffic>, sentB: seq<Traffic>,
    arrived: seq<(Traffic, Option<seq<int>>)>)

  datatype Act =
    | SealA(payload: seq<int>) | SealB(payload: seq<int>)
    | DeliverAB(now: nat) | DeliverBA(now: nat)
    | LoseAck | LoseAB(i: nat) | LoseBA(i: nat)

  function Without<T>(c: seq<T>, i: nat): seq<T> {
    if i < |c| then c[..i] + c[i + 1..] else c
  }

  function DoSealA(n: Net, payload: seq<int>): Net {
    var (t, m) := Encrypt(n.a, payload, n.supply);
    n.(a := t, ka := Grow(n.ka, n.a, t, n.supply), supply := n.supply + 1, ab := n.ab + [m], sentA := n.sentA + [m])
  }

  function DoSealB(n: Net, payload: seq<int>): Net {
    var (t, m) := Encrypt(n.b, payload, n.supply);
    n.(b := t, kb := Grow(n.kb, n.b, t, n.supply), supply := n.supply + 1, ba := n.ba + [m], sentB := n.sentB + [m])
  }

  /** The responder is now in state `t`, having read the oldest message of its lane. */
  function ReadAtB(n: Net, t: State, got: Option<seq<int>>): Net
    requires n.ab != []
  {
    n.(b := t, kb := Grow(n.kb, n.b, t, n.supply), supply := n.supply + 1, ab := n.ab[1..],
       arrived := n.arrived + [(n.ab[0], got)])
  }

  function ReadAtA(n: Net, t: State, got: Option<seq<int>>): Net
    requires n.ba != []
  {
    n.(a := t, ka := Grow(n.ka, n.a, t, n.supply), supply := n.supply + 1, ba := n.ba[1..],
       arrived := n.arrived + [(n.ba[0], got)])
  }

  function DoDeliverAB(n: Net, now: nat): Net {
    if n.ack.Some? then
      var t := HandleAck(n.b, n.ack.value, n.supply);
      n.(b := t, kb := Grow(n.kb, n.b, t, n.supply), supply := n.supply + 1, ack := None)
    else if n.ab == [] then n
    else
      var (t, got) := Decrypt(n.b, n.ab[0], now, n.supply);
      ReadAtB(n, t, got)
  }

  function DoDeliverBA(n: Net, now: nat): Net {
    if n.ba == [] then n
    else
      var (t, got) := Decrypt(n.a, n.ba[0], now, n.supply);
      ReadAtA(n, t, got)
  }

  function Do(n: Net, act: Act): Net {
    match act
    case SealA(payload) => DoSealA(n, payload)
    case SealB(payload) => DoSealB(n, payload)
    case DeliverAB(now) => DoDeliverAB(n, now)
    case DeliverBA(now) => DoDeliverBA(n, now)
    case LoseAck => n.(ack := None)
    case LoseAB(i) => n.(ab := Without(n.ab, i))
    case LoseBA(i) => n.(ba := Without(n.ba, i))
  }

  function RunNet(n: Net, acts: seq<Act>): Net
    decreases |acts|
  {
    if acts == [] then n else RunNet(Do(n, acts[0]), acts[1..])
  }

  /** The guard of the one branch that breaks delivery: a side about to wrap its nonce. */
  predicate Wraps(n: Net, act: Act) {
    (act.SealA? && n.a.sendNonce == U64_MAX) || (act.SealB? && n.b.sendNonce == U64_MAX)
  }

  predicate NeverWraps(n: Net, acts: seq<Act>)
    decreases |acts|
  {
    acts == [] || (!Wraps(n, acts[0]) && NeverWraps(Do(n, acts[0]), acts[1..]))
  }

  /** The handshake itself: keys 0 and 1 are the initiator's buffered pair. */
  function Handshake(initSeq: InitSeq, respSeq: InitSeq, ackSeq: InitSeq): Net {
    var init := Init(0, 1, 0, initSeq);
    var (b, resp) := HandleInit(ForInit(init, 2, 3, 4), init, respSeq, 5);
    var reply := if resp.Some? then resp.value else init;
    var (a, ack) := HandleInit(AdoptBuffered(ForInit(reply, 6, 7, 8), 0, 1), reply, ackSeq, 9);
    Net(a, b, [0, 1, 9], [3, 4, 5], 10, ack, [], [], [], [], [])
  }

  // ---------------------------------------------------------------- lanes

  /** The part of a session that labels and nonces depend on. */
  datatype End = End(local: nat, remote: nat, recvNonce: U64, nextNonce: U64, sendNonce: U64)

  function EndOf(s: State): End {
    End(s.localKeySeq, s.remoteKeySeq, s.recvNonce, s.nextSendNonce, s.sendNonce)
  }

  /** `y` has stepped once more than `x` knows. */
  predicate Ahead(y: End, x: End) {
    y.local == x.remote + 1 && y.remote == x.local
  }

  predicate Synced(x: End, y: End) {
    Ahead(x, y) || Ahead(y, x)
  }

  predicate ForCurrent(to: End, m: Traffic) {
    m.senderSeq == to.remote && m.receiverSeq + 1 == to.local
  }

  predicate ForNext(to: End, m: Traffic) {
    m.senderSeq == to.remote + 1 && m.receiverSeq == to.local
  }

  predicate LabelledBy(m: Traffic, from: End) {
    m.senderSeq == from.local && m.receiverSeq == from.remote
  }

  /** One message in flight: for the receiver's current slot or, if the sender is
      ahead, for the next one; above what the receiver has seen there. */
  predicate InFlight(m: Traffic, from: End, to: End) {
    && (ForCurrent(to, m) || (ForNext(to, m) && Ahead(from, to)))
    && (if ForCurrent(to, m) then to.recvNonce < m.nonce else to.nextNonce < m.nonce)
    && (LabelledBy(m, from) ==> m.nonce <= from.sendNonce)
  }

  /** `m` was sent before `m'`: never from the next slot back to the current one, and
      nonces rise within a slot. */
  predicate InOrder(to: End, m: Traffic, m': Traffic) {
    (ForCurrent(to, m) && !ForCurrent(to, m')) || (m.senderSeq == m'.senderSeq && m.nonce < m'.nonce)
  }

  predicate Lane(c: seq<Traffic>, from: End, to: End) {
    && (forall i :: 0 <= i < |c| ==> InFlight(c[i], from, to))
    && (forall i, j :: 0 <= i < j < |c| ==> InOrder(to, c[i], c[j]))
    && (if Ahead(from, to) then to.nextNonce <= from.sendNonce
        else to.nextNonce == 0 && to.recvNonce <= from.sendNonce)
  }

  lemma SealExtendsLane(c: seq<Traffic>, from: End, to: End, m: Traffic)
    requires Synced(from, to) && Lane(c, from, to)
    requires LabelledBy(m, from) && m.nonce == from.sendNonce + 1
    ensures Lane(c + [m], from.(sendNonce := m.nonce), to)
  {
  }

  lemma LossKeepsLane(c: seq<Traffic>, from: End, to: End, i: nat)
    requires Lane(c, from, to)
    ensures Lane(Without(c, i), from, to)
  {
    if i < |c| {
      var d := Without(c, i);
      assert forall j :: 0 <= j < |d| ==> d[j] == if j < i then c[j] else c[j + 1];
    }
  }

  /** What the receiver's labels and nonces become: the slot's nonce moves up, or the
      receiver rotates and its next slot becomes the current one. */
  function Received(to: End, m: Traffic, rotates: bool): End {
    if ForCurrent(to, m) then to.(recvNonce := m.nonce)
    else if rotates then End(to.local + 1, to.remote + 1, m.nonce, 0, 0)
    else to.(nextNonce := m.nonce)
  }

  lemma DecryptOutcome(to: State, m: Traffic, now: nat, k: KeyId)
    requires ForCurrent(EndOf(to), m) || ForNext(EndOf(to), m)
    requires if ForCurrent(EndOf(to), m) then to.recvNonce < m.nonce else to.nextSendNonce < m.nonce
    requires m.box.nonce == m.nonce
    requires SlotFor(to, m).Some? ==> SlotSecret(to, SlotFor(to, m).value) == m.box.secret
    ensures var (t, got) := Decrypt(to, m, now, k);
            got == Some(m.box.payload) && EndOf(t) == Received(EndOf(to), m, RotationDue(to, now))
  {
  }

  lemma ReceivedKeepsLane(c: seq<Traffic>, from: End, to: End, rotates: bool)
    requires Synced(from, to) && Lane(c, from, to) && c != []
    ensures Lane(c[1..], from, Received(to, c[0], rotates)) && Synced(from, Received(to, c[0], rotates))
  {
    var t := Received(to, c[0], rotates);
    assert InFlight(c[0], from, to);
    forall i | 0 <= i < |c| - 1
      ensures InFlight(c[1..][i], from, t)
    {
      assert InFlight(c[i + 1], from, to) && InOrder(to, c[0], c[i + 1]);
    }
  }

  /** On the other lane the receiver is now the sender; a rotation puts it ahead. */
  lemma ReceivedKeepsOtherLane(d: seq<Traffic>, from: End, to: End, m: Traffic, rotates: bool)
    requires Synced(from, to) && Lane(d, to, from) && InFlight(m, from, to)
    ensures Lane(d, Received(to, m, rotates), from)
  {
    var t := Received(to, m, rotates);
    if t.local != to.local {
      assert !Ahead(to, from);
      assert forall i :: 0 <= i < |d| ==> InFlight(d[i], to, from);
    }
  }

  /** The responder takes the initiator's ack: it stands where a rotation would have
      put it, with its receive nonce at zero and its send nonce kept. */
  function Updated(to: End): End {
    End(to.local + 1, to.remote + 1, 0, 0, to.sendNonce)
  }

  lemma UpdateKeepsLanes(c: seq<Traffic>, d: seq<Traffic>, from: End, to: End)
    requires Ahead(from, to) && Lane(c, from, to) && Lane(d, to, from)
    requires forall i :: 0 <= i < |c| ==> LabelledBy(c[i], from)
    ensures Lane(c, from, Updated(to)) && Lane(d, Updated(to), from) && Ahead(Updated(to), from)
  {
    assert forall i :: 0 <= i < |c| ==> InFlight(c[i], from, to);
    assert forall i :: 0 <= i < |d| ==> InFlight(d[i], to, from);
  }

  // ---------------------------------------------------------------- the invariant

  /** Two sessions on their key sequences, following each other, with a lane each way. */
  predicate Coupled(x: State, y: State, kx: seq<KeyId>, ky: seq<KeyId>, xy: seq<Traffic>, yx: seq<Traffic>) {
    && Owns(x, kx) && Owns(y, ky) && Follows(x, ky) && Follows(y, kx)
    && Synced(EndOf(x), EndOf(y)) && Lane(xy, EndOf(x), EndOf(y)) && Lane(yx, EndOf(y), EndOf(x))
  }

  /** Everything sent is genuine, and only what was sent is in flight. */
  predicate SentOk(n: Net) {
    && (forall m :: m in n.sentA ==> GenuineTraffic(m, n.ka, n.kb))
    && (forall m :: m in n.sentB ==> GenuineTraffic(m, n.kb, n.ka))
    && (forall m :: m in n.ab ==> m in n.sentA)
    && (forall m :: m in n.ba ==> m in n.sentB)
  }

  predicate AckOk(n: Net) {
    n.ack.Some? ==>
      && Ahead(EndOf(n.a), EndOf(n.b))
      && GenuineInit(n.ack.value, n.ka) && n.ack.value.keySeq == n.a.localKeySeq
      && (forall i :: 0 <= i < |n.ab| ==> LabelledBy(n.ab[i], EndOf(n.a)))
  }

  /** Everything that arrived was sent by the other side and opened to its payload. */
  predicate AllOpened(n: Net) {
    forall i :: 0 <= i < |n.arrived| ==>
      && (n.arrived[i].0 in n.sentA || n.arrived[i].0 in n.sentB)
      && n.arrived[i].1 == Some(n.arrived[i].0.box.payload)
  }

  predicate NetInv(n: Net) {
    && Coupled(n.a, n.b, n.ka, n.kb, n.ab, n.ba)
    && SentOk(n) && AckOk(n) && AllOpened(n)
  }

  /** Longer key sequences and shorter channels keep what was sent genuine. */
  lemma SentStays(n: Net, n': Net)
    requires SentOk(n) && n.ka <= n'.ka && n.kb <= n'.kb && n'.sentA == n.sentA && n'.sentB == n.sentB
    requires (forall m :: m in n'.ab ==> m in n.ab) && (forall m :: m in n'.ba ==> m in n.ba)
    ensures SentOk(n')
  {
  }

  /** Sealing without a wrap only raises the sender's nonce. */
  lemma PlainSeal(s: State, keys: seq<KeyId>, peerKeys: seq<KeyId>, payload: seq<int>, k: KeyId)
    requires Owns(s, keys) && Follows(s, peerKeys) && s.sendNonce != U64_MAX
    ensures var (t, m) := Encrypt(s, payload, k);
            && t == s.(sendNonce := s.sendNonce + 1) && Grow(keys, s, t, k) == keys
            && LabelledBy(m, EndOf(s)) && m.nonce == s.sendNonce + 1 && m.box.payload == payload
            && GenuineTraffic(m, keys, peerKeys)
  {
  }

  lemma SealCoupled(x: State, y: State, kx: seq<KeyId>, ky: seq<KeyId>, xy: seq<Traffic>, yx: seq<Traffic>,
                    payload: seq<int>, k: KeyId)
    requires Coupled(x, y, kx, ky, xy, yx) && x.sendNonce != U64_MAX
    ensures var (t, m) := Encrypt(x, payload, k);
            Coupled(t, y, kx, ky, xy + [m], yx) && Coupled(y, t, ky, kx, yx, xy + [m])
  {
    PlainSeal(x, kx, ky, payload, k);
    SealExtendsLane(xy, EndOf(x), EndOf(y), Encrypt(x, payload, k).1);
  }

  lemma SealAKeeps(n: Net, payload: seq<int>)
    requires NetInv(n) && n.a.sendNonce != U64_MAX
    ensures NetInv(DoSealA(n, payload))
  {
    PlainSeal(n.a, n.ka, n.kb, payload, n.supply);
    SealCoupled(n.a, n.b, n.ka, n.kb, n.ab, n.ba, payload, n.supply);
  }

  lemma SealBKeeps(n: Net, payload: seq<int>)
    requires NetInv(n) && n.b.sendNonce != U64_MAX
    ensures NetInv(DoSealB(n, payload))
  {
    PlainSeal(n.b, n.kb, n.ka, payload, n.supply);
    SealCoupled(n.b, n.a, n.kb, n.ka, n.ba, n.ab, payload, n.supply);
  }

  /** One delivery: the oldest message opens, and the coupling survives. */
  lemma ReceiveCoupled(x: State, y: State, kx: seq<KeyId>, ky: seq<KeyId>, xy: seq<Traffic>, yx: seq<Traffic>,
                       now: nat, k: KeyId)
    requires Coupled(x, y, kx, ky, xy, yx) && xy != [] && GenuineTraffic(xy[0], kx, ky)
    ensures var (t, got) := Decrypt(y, xy[0], now, k);
            && got == Some(xy[0].box.payload)
            && Coupled(x, t, kx, Grow(ky, y, t, k), xy[1..], yx)
            && Coupled(t, x, Grow(ky, y, t, k), kx, yx, xy[1..])
            && t.localKeySeq - t.remoteKeySeq == y.localKeySeq - y.remoteKeySeq
            && (Ahead(EndOf(y), EndOf(x)) ==> t.localKeySeq == y.localKeySeq)
  {
    assert InFlight(xy[0], EndOf(x), EndOf(y));
    SlotHoldsSecret(y, ky, kx, xy[0]);
    DecryptOutcome(y, xy[0], now, k);
    ReceivedKeepsLane(xy, EndOf(x), EndOf(y), RotationDue(y, now));
    ReceivedKeepsOtherLane(yx, EndOf(x), EndOf(y), xy[0], RotationDue(y, now));
    DecryptKeeps(y, ky, xy[0], now, k);
    DecryptFollows(y, ky, kx, xy[0], now, k);
  }

  lemma ReadAtAKeeps(n: Net, t: State, got: Option<seq<int>>)
    requires NetInv(n) && n.ba != [] && got == Some(n.ba[0].box.payload)
    requires Coupled(t, n.b, Grow(n.ka, n.a, t, n.supply), n.kb, n.ab, n.ba[1..])
    requires Ahead(EndOf(n.a), EndOf(n.b)) ==> t.localKeySeq == n.a.localKeySeq
    ensures NetInv(ReadAtA(n, t, got))
  {
    SentStays(n, ReadAtA(n, t, got));
    assert n.ba[0] in n.ba;
  }

  lemma ReadAtBKeeps(n: Net, t: State, got: Option<seq<int>>)
    requires NetInv(n) && n.ack.None? && n.ab != [] && got == Some(n.ab[0].box.payload)
    requires Coupled(n.a, t, n.ka, Grow(n.kb, n.b, t, n.supply), n.ab[1..], n.ba)
    ensures NetInv(ReadAtB(n, t, got))
  {
    SentStays(n, ReadAtB(n, t, got));
    assert n.ab[0] in n.ab;
  }

  lemma DeliverBAKeeps(n: Net, now: nat)
    requires NetInv(n)
    ensures NetInv(DoDeliverBA(n, now))
  {
    if n.ba != [] {
      assert n.ba[0] in n.ba;
      ReceiveCoupled(n.b, n.a, n.kb, n.ka, n.ba, n.ab, now, n.supply);
      var (t, got) := Decrypt(n.a, n.ba[0], now, n.supply);
      ReadAtAKeeps(n, t, got);
    }
  }

  lemma DeliverTrafficABKeeps(n: Net, now: nat)
    requires NetInv(n) && n.ack.None?
    ensures NetInv(DoDeliverAB(n, now))
  {
    if n.ab != [] {
      assert n.ab[0] in n.ab;
      ReceiveCoupled(n.a, n.b, n.ka, n.kb, n.ab, n.ba, now, n.supply);
      var (t, got) := Decrypt(n.b, n.ab[0], now, n.supply);
      ReadAtBKeeps(n, t, got);
    }
  }

  lemma AckCoupled(a: State, b: State, ka: seq<KeyId>, kb: seq<KeyId>, ab: seq<Traffic>, ba: seq<Traffic>, ack: Init,
                   k: KeyId)
    requires Coupled(a, b, ka, kb, ab, ba) && GenuineInit(ack, ka) && Ahead(EndOf(a), EndOf(b))
    requires ack.keySeq == a.localKeySeq && b.seq_ < ack.seq_
    requires forall i :: 0 <= i < |ab| ==> LabelledBy(ab[i], EndOf(a))
    ensures Coupled(a, ApplyUpdate(b, ack, k), ka, kb + [k], ab, ba)
  {
    UpdateKeeps(b, kb, ack, k);
    UpdateFollows(b, ack, k, ka);
    assert EndOf(ApplyUpdate(b, ack, k)) == Updated(EndOf(b));
    UpdateKeepsLanes(ab, ba, EndOf(a), EndOf(b));
  }

  lemma DeliverAckKeeps(n: Net)
    requires NetInv(n) && n.ack.Some?
    ensures NetInv(DoDeliverAB(n, 0))
  {
    if n.b.seq_ < n.ack.value.seq_ {
      AckCoupled(n.a, n.b, n.ka, n.kb, n.ab, n.ba, n.ack.value, n.supply);
      SentStays(n, DoDeliverAB(n, 0));
    }
  }

  lemma LossKeeps(n: Net, i: nat)
    requires NetInv(n)
    ensures NetInv(n.(ack := None))
    ensures NetInv(n.(ab := Without(n.ab, i))) && NetInv(n.(ba := Without(n.ba, i)))
  {
    LossKeepsLane(n.ab, EndOf(n.a), EndOf(n.b), i);
    LossKeepsLane(n.ba, EndOf(n.b), EndOf(n.a), i);
  }

  lemma DoKeepsInv(n: Net, act: Act)
    requires NetInv(n) && !Wraps(n, act)
    ensures NetInv(Do(n, act))
  {
    match act
    case SealA(payload) => SealAKeeps(n, payload);
    case SealB(payload) => SealBKeeps(n, payload);
    case DeliverAB(now) => if n.ack.Some? { DeliverAckKeeps(n); } else { DeliverTrafficABKeeps(n, now); }
    case DeliverBA(now) => DeliverBAKeeps(n, now);
    case LoseAck => LossKeeps(n, 0);
    case LoseAB(i) => LossKeeps(n, i);
    case LoseBA(i) => LossKeeps(n, i);
  }

  /** `n` is a network just after some handshake. */
  ghost predicate AfterHandshake(n: Net) {
    exists initSeq, respSeq, ackSeq :: n == Handshake(initSeq, respSeq, ackSeq)
  }

  lemma HandshakeCouples(initSeq: InitSeq, respSeq: InitSeq, ackSeq: InitSeq)
    ensures var n := Handshake(initSeq, respSeq, ackSeq);
            && Coupled(n.a, n.b, n.ka, n.kb, n.ab, n.ba) && n.ack.Some? && AckOk(n)
            && n.ab == [] && n.ba == [] && n.sentA == [] && n.sentB == [] && n.arrived == []
  {
  }

  lemma HandshakeInv(n: Net)
    requires AfterHandshake(n)
    ensures NetInv(n) && n.ack.Some?
  {
    var initSeq, respSeq, ackSeq :| n == Handshake(initSeq, respSeq, ackSeq);
    HandshakeCouples(initSeq, respSeq, ackSeq);
  }

  lemma {:induction false} RunNetKeepsInv(n: Net, acts: seq<Act>)
    requires NetInv(n) && NeverWraps(n, acts)
    ensures NetInv(RunNet(n, acts))
    decreases |acts|
  {
    if acts != [] {
      DoKeepsInv(n, acts[0]);
      RunNetKeepsInv(Do(n, acts[0]), acts[1..]);
    }
  }

  // ---------------------------------------------------------------- the theorems

  /** In-order delivery: after the handshake, whatever is sent, lost or delivered and
      whatever the rotation timer reads, every message that arrives opens to its own
      payload, provided no side wraps its nonce. */
  lemma EveryArrivalOpens(n: Net, acts: seq<Act>)
    requires AfterHandshake(n) && NeverWraps(n, acts)
    ensures AllOpened(RunNet(n, acts))
  {
    HandshakeInv(n);
    RunNetKeepsInv(n, acts);
  }

  /** The initiator's ack, if it is news, puts the responder at the positions it names: the
      responder's next message carries them as its receiver label, and has one more key
      step behind it. */
  lemma AckMovesLabels(n: Net, payload: seq<int>, now: nat, k: KeyId)
    requires NetInv(n) && n.ack.Some? && n.ack.value.seq_ > n.b.seq_ && n.b.sendNonce != U64_MAX
    ensures var b := DoDeliverAB(n, now).b;
            var m := Encrypt(b, payload, k).1;
            && m.receiverSeq == n.ack.value.keySeq == n.a.localKeySeq
            && m.senderSeq == n.b.localKeySeq + 1
            && b.current == n.ka[n.a.localKeySeq] && b.next == n.ka[n.a.localKeySeq + 1]
  {
  }

  /** A message from `s`, in any of the two directions, opens at `t` next if and only if
      `s` was not about to wrap. */
  lemma SealedOpensIff(s: State, t: State, ks: seq<KeyId>, kt: seq<KeyId>, st: seq<Traffic>, ts: seq<Traffic>,
                       payload: seq<int>, now: nat, k: KeyId, k': KeyId)
    requires Coupled(s, t, ks, kt, st, ts)
    ensures Decrypt(t, Encrypt(s, payload, k).1, now, k').1 == Some(payload) <==> s.sendNonce != U64_MAX
  {
    var m := Encrypt(s, payload, k).1;
    if s.sendNonce == U64_MAX {
      WrapMessageNeverOpens(s, t, payload, now, k, k');
    } else {
      PlainSeal(s, ks, kt, payload, k);
      SlotHoldsSecret(t, kt, ks, m);
      DecryptOutcome(t, m, now, k');
    }
  }

  /** The exact condition on one send, in every reachable state and both directions,
      whatever is in flight: a message sealed now and delivered next opens if and only
      if its sender was not about to wrap. The message of a wrap carries nonce 0, which
      no slot of any session accepts. */
  lemma OpensIffNotWrapping(n: Net, payload: seq<int>, now: nat, k: KeyId)
    requires NetInv(n)
    ensures Decrypt(n.b, Encrypt(n.a, payload, n.supply).1, now, k).1 == Some(payload) <==> n.a.sendNonce != U64_MAX
    ensures Decrypt(n.a, Encrypt(n.b, payload, n.supply).1, now, k).1 == Some(payload) <==> n.b.sendNonce != U64_MAX
  {
    SealedOpensIff(n.a, n.b, n.ka, n.kb, n.ab, n.ba, payload, now, n.supply, k);
    SealedOpensIff(n.b, n.a, n.kb, n.ka, n.ba, n.ab, payload, now, n.supply, k);
  }

  lemma WrapMessageNeverOpens(s: State, t: State, payload: seq<int>, now: nat, k: KeyId, k': KeyId)
    requires s.sendNonce == U64_MAX
    ensures Decrypt(t, Encrypt(s, payload, k).1, now, k') == (t, None)
  {
  }
}

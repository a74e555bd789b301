/** The key ratchet of one end-to-end session (`src/session.rs`).

    A key pair is a `KeyId`; a Diffie-Hellman secret is the unordered pair of the
    two ids; a sealed box opens under exactly the secret and nonce it was sealed
    with. `State` is the value of a session object and the functions on it say what
    each operation does; `Session` is the object itself, updated field by field and
    proved against those functions. */
module Sessions {
  import opened Basics

  type KeyId = nat

  // ---------------------------------------------------------------- cryptography

  datatype Secret = Secret(lo: KeyId, hi: KeyId)

  function Dh(theirs: KeyId, ours: KeyId): Secret {
    if theirs <= ours then Secret(theirs, ours) else Secret(ours, theirs)
  }

  /** A traffic box: the sender's next public key and the payload under one secret. */
  datatype Box = Box(secret: Secret, nonce: U64, inner: KeyId, payload: seq<int>)

  function Open(secret: Secret, nonce: U64, box: Box): Option<Box> {
    if box.secret == secret && box.nonce == nonce then Some(box) else None
  }

  datatype Init = Init(current: KeyId, next: KeyId, keySeq: nat, seq_: U64)

  /** A traffic message: the sender's key sequence, the sender's idea of the
      receiver's key sequence, the nonce, and the box. */
  datatype Traffic = Traffic(senderSeq: nat, receiverSeq: nat, nonce: U64, box: Box)

  // ---------------------------------------------------------------- session state

  datatype State = State(
    seq_: U64,
    remoteKeySeq: nat, current: KeyId, next: KeyId,
    localKeySeq: nat, recvKey: KeyId, sendKey: KeyId, nextKey: KeyId,
    recvShared: Secret, sendShared: Secret, nextSendShared: Secret, nextRecvShared: Secret,
    recvNonce: U64, sendNonce: U64, nextSendNonce: U64, nextRecvNonce: U64,
    rotatedAt: Option<nat>)

  const ROTATE_AFTER: nat := 60

  function FixShared(s: State, recvNonce: U64, sendNonce: U64): State {
    s.(recvShared := Dh(s.current, s.recvKey), sendShared := Dh(s.current, s.sendKey),
       nextSendShared := Dh(s.next, s.sendKey), nextRecvShared := Dh(s.next, s.recvKey),
       nextSendNonce := 0, nextRecvNonce := 0, recvNonce := recvNonce, sendNonce := sendNonce)
  }

  function WrappingPred(x: U64): U64 {
    if x == 0 then U64_MAX else x - 1
  }

  /** A session opened by an inbound init, with three fresh key pairs. */
  function ForInit(init: Init, recv: KeyId, send: KeyId, next: KeyId): State {
    State(WrappingPred(init.seq_), 0, init.current, init.next, 0, recv, send, next,
          Dh(init.current, recv), Dh(init.current, send), Dh(init.next, send), Dh(init.next, recv),
          0, 0, 0, 0, None)
  }

  function AdoptBuffered(s: State, send: KeyId, next: KeyId): State {
    FixShared(s.(sendKey := send, nextKey := next), 0, 0)
  }

  /** One step of the local ratchet: receive with the old send key, send with the
      old next key, and draw a fresh next key. */
  function Shift(s: State, newKey: KeyId): State {
    s.(recvKey := s.sendKey, sendKey := s.nextKey, nextKey := newKey, localKeySeq := s.localKeySeq + 1)
  }

  function ApplyUpdate(s: State, init: Init, newKey: KeyId): State {
    FixShared(Shift(s.(current := init.current, next := init.next, seq_ := init.seq_,
                       remoteKeySeq := init.keySeq), newKey), 0, s.sendNonce)
  }

  function MakeInit(s: State, seq_: U64): Init {
    Init(s.sendKey, s.nextKey, s.localKeySeq, seq_)
  }

  function HandleInit(s: State, init: Init, ackSeq: U64, newKey: KeyId): (State, Option<Init>) {
    if init.seq_ <= s.seq_ then (s, None)
    else var t := ApplyUpdate(s, init, newKey); (t, Some(MakeInit(t, ackSeq)))
  }

  function HandleAck(s: State, ack: Init, newKey: KeyId): State {
    if ack.seq_ <= s.seq_ then s else ApplyUpdate(s, ack, newKey)
  }

  /** The nonce wraps: the local ratchet steps and the new send key starts at nonce 0. */
  function Encrypt(s: State, payload: seq<int>, newKey: KeyId): (State, Traffic) {
    var t := if s.sendNonce == U64_MAX then FixShared(Shift(s, newKey), 0, 0)
             else s.(sendNonce := s.sendNonce + 1);
    (t, Traffic(t.localKeySeq, t.remoteKeySeq, t.sendNonce,
                Box(t.sendShared, t.sendNonce, t.nextKey, payload)))
  }

  datatype Slot = Current | NextSend | NextRecv

  /** The slot a message's two labels select, before any nonce is looked at. */
  function SlotFor(s: State, m: Traffic): Option<Slot> {
    if m.senderSeq == s.remoteKeySeq && m.receiverSeq + 1 == s.localKeySeq then Some(Current)
    else if m.senderSeq == s.remoteKeySeq + 1 && m.receiverSeq == s.localKeySeq then Some(NextSend)
    else if m.senderSeq == s.remoteKeySeq + 1 && m.receiverSeq + 1 == s.localKeySeq then Some(NextRecv)
    else None
  }

  function SlotSecret(s: State, slot: Slot): Secret {
    match slot
    case Current => s.recvShared
    case NextSend => s.nextSendShared
    case NextRecv => s.nextRecvShared
  }

  function SlotNonce(s: State, slot: Slot): U64 {
    match slot
    case Current => s.recvNonce
    case NextSend => s.nextSendNonce
    case NextRecv => s.nextRecvNonce
  }

  function SetSlotNonce(s: State, slot: Slot, nonce: U64): State {
    match slot
    case Current => s.(recvNonce := nonce)
    case NextSend => s.(nextSendNonce := nonce)
    case NextRecv => s.(nextRecvNonce := nonce)
  }

  predicate RotationDue(s: State, now: nat) {
    s.rotatedAt.None? || now > s.rotatedAt.value + ROTATE_AFTER
  }

  function MaybeRotate(s: State, inner: KeyId, nonce: U64, now: nat, newKey: KeyId): State {
    if !RotationDue(s, now) then s
    else FixShared(Shift(s.(current := s.next, next := inner, remoteKeySeq := s.remoteKeySeq + 1), newKey),
                   nonce, 0).(rotatedAt := Some(now))
  }

  function Decrypt(s: State, m: Traffic, now: nat, newKey: KeyId): (State, Option<seq<int>>) {
    match SlotFor(s, m)
    case None => (s, None)
    case Some(slot) =>
      if m.nonce <= SlotNonce(s, slot) then (s, None)
      else match Open(SlotSecret(s, slot), m.nonce, m.box)
        case None => (s, None)
        case Some(box) =>
          var t := SetSlotNonce(s, slot, m.nonce);
          (if slot == Current then t else MaybeRotate(t, box.inner, m.nonce, now, newKey), Some(box.payload))
  }

  // ---------------------------------------------------------------- the hidden key sequences

  /** The four shared secrets are those of the keys held now. */
  predicate SecretsFixed(s: State) {
    && s.recvShared == Dh(s.current, s.recvKey)
    && s.sendShared == Dh(s.current, s.sendKey)
    && s.nextSendShared == Dh(s.next, s.sendKey)
    && s.nextRecvShared == Dh(s.next, s.recvKey)
  }

  /** `keys` is the sequence of key pairs this side has published, and the session
      sits at position `localKeySeq` of it. */
  predicate Owns(s: State, keys: seq<KeyId>) {
    && |keys| == s.localKeySeq + 2
    && s.sendKey == keys[s.localKeySeq]
    && s.nextKey == keys[s.localKeySeq + 1]
    && (s.localKeySeq > 0 ==> s.recvKey == keys[s.localKeySeq - 1])
    && SecretsFixed(s)
  }

  /** The session's view of the peer is positions `remoteKeySeq` and the one after
      of the peer's sequence. */
  predicate Follows(s: State, peerKeys: seq<KeyId>) {
    && s.remoteKeySeq + 1 < |peerKeys|
    && s.current == peerKeys[s.remoteKeySeq]
    && s.next == peerKeys[s.remoteKeySeq + 1]
  }

  /** The key sequence after an operation: `newKey` joins it when the ratchet stepped. */
  function Grow(keys: seq<KeyId>, before: State, after: State, newKey: KeyId): seq<KeyId> {
    if after.localKeySeq == before.localKeySeq then keys else keys + [newKey]
  }

  // ---------------------------------------------------------------- the object

  class Session {
    var seqNo: U64
    var remoteKeySeq: nat
    var current: KeyId
    var next: KeyId
    var localKeySeq: nat
    var recvPair: KeyId
    var recvShared: Secret
    var recvNonce: U64
    var sendPair: KeyId
    var sendShared: Secret
    var sendNonce: U64
    var nextPair: KeyId
    var nextSendShared: Secret
    var nextSendNonce: U64
    var nextRecvShared: Secret
    var nextRecvNonce: U64
    var rotatedAt: Option<nat>
    ghost var keys: seq<KeyId>

    ghost function View(): State
      reads this
    {
      State(seqNo, remoteKeySeq, current, next, localKeySeq, recvPair, sendPair, nextPair,
            recvShared, sendShared, nextSendShared, nextRecvShared,
            recvNonce, sendNonce, nextSendNonce, nextRecvNonce, rotatedAt)
    }

    ghost predicate Valid()
      reads this
    {
      Owns(View(), keys)
    }

    constructor (init: Init, recv: KeyId, send: KeyId, nxt: KeyId)
      ensures Valid()
      ensures View() == ForInit(init, recv, send, nxt)
      ensures keys == [send, nxt]
    {
      seqNo := WrappingPred(init.seq_);
      remoteKeySeq, current, next, localKeySeq := 0, init.current, init.next, 0;
      recvPair, sendPair, nextPair := recv, send, nxt;
      recvShared, sendShared := Dh(init.current, recv), Dh(init.current, send);
      nextSendShared, nextRecvShared := Dh(init.next, send), Dh(init.next, recv);
      recvNonce, sendNonce, nextRecvNonce, nextSendNonce := 0, 0, 0, 0;
      rotatedAt := None;
      keys := [send, nxt];
    }

    method FixSharedSecrets(recvN: U64, sendN: U64)
      modifies `recvShared, `sendShared, `nextSendShared, `nextRecvShared
      modifies `recvNonce, `sendNonce, `nextSendNonce, `nextRecvNonce
      ensures View() == FixShared(old(View()), recvN, sendN)
    {
      FixSecrets();
      nextSendNonce := 0;
      nextRecvNonce := 0;
      recvNonce := recvN;
      sendNonce := sendN;
    }

    /** The four secrets of `fix_shared`. */
    method FixSecrets()
      modifies `recvShared, `sendShared, `nextSendShared, `nextRecvShared
      ensures View() == old(View()).(recvShared := Dh(current, recvPair), sendShared := Dh(current, sendPair),
                                     nextSendShared := Dh(next, sendPair), nextRecvShared := Dh(next, recvPair))
    {
      recvShared := Dh(current, recvPair);
      sendShared := Dh(current, sendPair);
      nextSendShared := Dh(next, sendPair);
      nextRecvShared := Dh(next, recvPair);
    }

    method AdoptBufferedKeys(send: KeyId, nxt: KeyId)
      requires Valid() && localKeySeq == 0
      modifies this
      ensures Valid()
      ensures View() == AdoptBuffered(old(View()), send, nxt)
      ensures keys == [send, nxt]
    {
      sendPair, nextPair := send, nxt;
      keys := [send, nxt];
      FixSharedSecrets(0, 0);
    }

    /** The two swaps of the source, then the fresh next pair. */
    method SwapPairs(newKey: KeyId)
      modifies `recvPair, `sendPair, `nextPair
      ensures View() == old(View()).(recvKey := old(sendPair), sendKey := old(nextPair), nextKey := newKey)
    {
      recvPair, sendPair := sendPair, recvPair;
      sendPair, nextPair := nextPair, sendPair;
      nextPair := newKey;
    }

    method ShiftKeys(newKey: KeyId)
      modifies `recvPair, `sendPair, `nextPair, `localKeySeq, `keys
      ensures View() == Shift(old(View()), newKey)
      ensures keys == old(keys) + [newKey]
    {
      SwapPairs(newKey);
      localKeySeq := localKeySeq + 1;
      keys := keys + [newKey];
    }

    method AdoptRemote(init: Init)
      modifies `current, `next, `seqNo, `remoteKeySeq
      ensures View() == old(View()).(current := init.current, next := init.next, seq_ := init.seq_,
                                     remoteKeySeq := init.keySeq)
    {
      current, next, seqNo, remoteKeySeq := init.current, init.next, init.seq_, init.keySeq;
    }

    method Update(init: Init, newKey: KeyId)
      requires Valid()
      modifies this
      ensures Valid()
      ensures View() == ApplyUpdate(old(View()), init, newKey)
      ensures keys == old(keys) + [newKey]
    {
      AdoptRemote(init);
      ShiftKeys(newKey);
      var nonce := sendNonce;
      FixSharedSecrets(0, nonce);
    }

    method OnInit(init: Init, ackSeq: U64, newKey: KeyId) returns (ack: Option<Init>)
      requires Valid()
      modifies this
      ensures Valid()
      ensures (View(), ack) == HandleInit(old(View()), init, ackSeq, newKey)
      ensures keys == Grow(old(keys), old(View()), View(), newKey)
    {
      if init.seq_ <= seqNo {
        return None;
      }
      Update(init, newKey);
      return Some(Init(sendPair, nextPair, localKeySeq, ackSeq));
    }

    method OnAck(init: Init, newKey: KeyId)
      requires Valid()
      modifies this
      ensures Valid()
      ensures View() == HandleAck(old(View()), init, newKey)
      ensures keys == Grow(old(keys), old(View()), View(), newKey)
    {
      if init.seq_ <= seqNo {
        return;
      }
      Update(init, newKey);
    }

    method Seal(payload: seq<int>, newKey: KeyId) returns (m: Traffic)
      requires Valid()
      modifies this
      ensures Valid()
      ensures (View(), m) == Encrypt(old(View()), payload, newKey)
      ensures keys == Grow(old(keys), old(View()), View(), newKey)
    {
      sendNonce := if sendNonce == U64_MAX then 0 else sendNonce + 1;
      if sendNonce == 0 {
        ShiftKeys(newKey);
        FixSharedSecrets(0, 0);
      }
      m := Traffic(localKeySeq, remoteKeySeq, sendNonce, Box(sendShared, sendNonce, nextPair, payload));
    }

    /** The peer's next key becomes current, and the key inside the box its next. */
    method AdvanceRemote(inner: KeyId)
      modifies `current, `next, `remoteKeySeq
      ensures View() == old(View()).(current := old(next), next := inner, remoteKeySeq := old(remoteKeySeq) + 1)
    {
      current := next;
      next := inner;
      remoteKeySeq := remoteKeySeq + 1;
    }

    method Rotate(inner: KeyId, nonce: U64, now: nat, newKey: KeyId)
      requires Valid()
      modifies this
      ensures Valid()
      ensures View() == MaybeRotate(old(View()), inner, nonce, now, newKey)
      ensures keys == Grow(old(keys), old(View()), View(), newKey)
    {
      if rotatedAt.Some? && now <= rotatedAt.value + ROTATE_AFTER {
        return;
      }
      AdvanceRemote(inner);
      ShiftKeys(newKey);
      FixSharedSecrets(nonce, 0);
      rotatedAt := Some(now);
    }

    method Unseal(m: Traffic, now: nat, newKey: KeyId) returns (payload: Option<seq<int>>)
      requires Valid()
      modifies this
      ensures Valid()
      ensures (View(), payload) == Decrypt(old(View()), m, now, newKey)
      ensures keys == Grow(old(keys), old(View()), View(), newKey)
    {
      var fromCurrent := m.senderSeq == remoteKeySeq;
      var fromNext := m.senderSeq == remoteKeySeq + 1;
      var toRecv := m.receiverSeq + 1 == localKeySeq;
      var toSend := m.receiverSeq == localKeySeq;
      var slot;
      if fromCurrent && toRecv {
        if !(recvNonce < m.nonce) { return None; }
        slot := Current;
      } else if fromNext && toSend {
        if !(nextSendNonce < m.nonce) { return None; }
        slot := NextSend;
      } else if fromNext && toRecv {
        if !(nextRecvNonce < m.nonce) { return None; }
        slot := NextRecv;
      } else {
        return None;
      }
      var shared := match slot
        case Current => recvShared
        case NextSend => nextSendShared
        case NextRecv => nextRecvShared;
      var plain := Open(shared, m.nonce, m.box);
      if plain.None? { return None; }
      match slot {
        case Current =>
          recvNonce := m.nonce;
        case NextSend =>
          nextSendNonce := m.nonce;
          Rotate(plain.value.inner, m.nonce, now, newKey);
        case NextRecv =>
          nextRecvNonce := m.nonce;
          Rotate(plain.value.inner, m.nonce, now, newKey);
      }
      return Some(plain.value.payload);
    }
  }
}

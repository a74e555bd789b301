/** One session over a whole run, whatever the other side and the network do.

    A `Party` is a session state with three ghost records: the key pairs it has
    published, every use it made of a send key, and everything it accepted. A move
    is one operation of the session with arbitrary inputs; the only assumption is
    that drawn key pairs are new. */
module SessionRuns {
  import opened Basics
  import opened Sessions

  datatype Event =
    | GetInit(init: Init, ackSeq: U64)
    | GetAck(ack: Init)
    | Send(payload: seq<int>)
    | GetTraffic(m: Traffic, now: nat)

  datatype Move = Move(event: Event, newKey: KeyId)

  /** A use of a send key: the private key, its position, and the nonce. */
  datatype Use = Use(key: KeyId, at: nat, nonce: U64)

  /** An accepted traffic message: the key epoch, the slot and the nonce. */
  datatype Receipt = Receipt(epoch: nat, slot: Slot, nonce: U64)

  datatype Party = Party(s: State, keys: seq<KeyId>, uses: seq<Use>, receipts: seq<Receipt>, inits: seq<Init>)

  function StateAfter(s: State, mv: Move): State {
    match mv.event
    case GetInit(init, ackSeq) => HandleInit(s, init, ackSeq, mv.newKey).0
    case GetAck(ack) => HandleAck(s, ack, mv.newKey)
    case Send(payload) => Encrypt(s, payload, mv.newKey).0
    case GetTraffic(m, now) => Decrypt(s, m, now, mv.newKey).0
  }

  function NewUses(t: State, mv: Move): seq<Use> {
    if mv.event.Send? then [Use(t.sendKey, t.localKeySeq, t.sendNonce)] else []
  }

  function NewReceipts(s: State, mv: Move): seq<Receipt> {
    match mv.event
    case GetTraffic(m, now) =>
      if Decrypt(s, m, now, mv.newKey).1.Some? && SlotFor(s, m).Some?
      then [Receipt(s.localKeySeq, SlotFor(s, m).value, m.nonce)] else []
    case _ => []
  }

  function NewInits(s: State, mv: Move): seq<Init> {
    match mv.event
    case GetInit(init, ackSeq) => if HandleInit(s, init, ackSeq, mv.newKey).1.Some? then [init] else []
    case GetAck(ack) => if HandleAck(s, ack, mv.newKey) != s then [ack] else []
    case _ => []
  }

  function Step(p: Party, mv: Move): Party {
    var t := StateAfter(p.s, mv);
    Party(t, Grow(p.keys, p.s, t, mv.newKey), p.uses + NewUses(t, mv),
          p.receipts + NewReceipts(p.s, mv), p.inits + NewInits(p.s, mv))
  }

  function Run(p: Party, moves: seq<Move>): Party
    decreases |moves|
  {
    if moves == [] then p else Run(Step(p, moves[0]), moves[1..])
  }

  /** Every key pair drawn in the run is new. */
  predicate DrawsNewKeys(p: Party, moves: seq<Move>) {
    && (forall i :: 0 <= i < |moves| ==> moves[i].newKey !in p.keys)
    && (forall i, j :: 0 <= i < j < |moves| ==> moves[i].newKey != moves[j].newKey)
  }

  /** A session that has not been used yet. */
  predicate Begins(p: Party) {
    Owns(p.s, p.keys) && Distinct(p.keys) && p.uses == [] && p.receipts == [] && p.inits == []
  }

  /** Both ways a session comes to be: from an inbound init alone, or with the keys
      of a buffered outbound one. */
  lemma OpeningsBegin(init: Init, recv: KeyId, send: KeyId, next: KeyId)
    requires send != next
    ensures Begins(Party(ForInit(init, recv, send, next), [send, next], [], [], []))
    ensures forall r, s, n :: Begins(Party(AdoptBuffered(ForInit(init, r, s, n), send, next), [send, next], [], [], []))
  {
  }

  predicate Earlier(u: Use, v: Use) {
    u.at < v.at || (u.at == v.at && u.nonce < v.nonce)
  }

  predicate UsesOrdered(p: Party) {
    && (forall i, j :: 0 <= i < j < |p.uses| ==> Earlier(p.uses[i], p.uses[j]))
    && (forall i :: 0 <= i < |p.uses| ==>
          && p.uses[i].at < |p.keys| && p.uses[i].key == p.keys[p.uses[i].at]
          && (p.uses[i].at < p.s.localKeySeq
              || (p.uses[i].at == p.s.localKeySeq && p.uses[i].nonce <= p.s.sendNonce)))
  }

  predicate SameSlot(a: Receipt, b: Receipt) {
    a.epoch == b.epoch && a.slot == b.slot
  }

  predicate ReceiptsOrdered(p: Party) {
    && (forall i, j :: 0 <= i < j < |p.receipts| && SameSlot(p.receipts[i], p.receipts[j]) ==>
          p.receipts[i].nonce < p.receipts[j].nonce)
    && (forall i :: 0 <= i < |p.receipts| ==>
          && p.receipts[i].epoch <= p.s.localKeySeq
          && (p.receipts[i].epoch == p.s.localKeySeq ==>
                p.receipts[i].nonce <= SlotNonce(p.s, p.receipts[i].slot)))
  }

  predicate InitsOrdered(p: Party) {
    && (forall i, j :: 0 <= i < j < |p.inits| ==> p.inits[i].seq_ < p.inits[j].seq_)
    && (forall i :: 0 <= i < |p.inits| ==> p.inits[i].seq_ <= p.s.seq_)
  }

  predicate Inv(p: Party) {
    Owns(p.s, p.keys) && Distinct(p.keys) && UsesOrdered(p) && ReceiptsOrdered(p) && InitsOrdered(p)
  }

  /** Never back in (position, nonce) order: a key change advances the position, and
      without one no nonce falls. */
  predicate Advances(s: State, t: State) {
    && s.seq_ <= t.seq_
    && (t.localKeySeq == s.localKeySeq + 1
        || (t.localKeySeq == s.localKeySeq && s.sendNonce <= t.sendNonce
            && s.recvNonce <= t.recvNonce && s.nextSendNonce <= t.nextSendNonce
            && s.nextRecvNonce <= t.nextRecvNonce))
  }

  lemma ShiftOwns(s: State, keys: seq<KeyId>, newKey: KeyId, recvNonce: U64, sendNonce: U64)
    requires Owns(s, keys)
    ensures Owns(FixShared(Shift(s, newKey), recvNonce, sendNonce), keys + [newKey])
  {
  }

  /** A ratchet step after the peer's keys were replaced. */
  lemma ReplaceAndShiftOwns(s: State, keys: seq<KeyId>, current: KeyId, next: KeyId, newKey: KeyId, recvNonce: U64,
                            sendNonce: U64)
    requires Owns(s, keys)
    ensures Owns(FixShared(Shift(s.(current := current, next := next), newKey), recvNonce, sendNonce), keys + [newKey])
  {
    ShiftOwns(FixShared(s.(current := current, next := next), 0, 0), keys, newKey, recvNonce, sendNonce);
  }

  lemma UpdateKeeps(s: State, keys: seq<KeyId>, init: Init, newKey: KeyId)
    requires Owns(s, keys) && s.seq_ < init.seq_
    ensures var t := ApplyUpdate(s, init, newKey);
            Owns(t, keys + [newKey]) && Advances(s, t) && t.localKeySeq == s.localKeySeq + 1
  {
    ReplaceAndShiftOwns(s, keys, init.current, init.next, newKey, 0, s.sendNonce);
  }

  lemma EncryptKeeps(s: State, keys: seq<KeyId>, payload: seq<int>, newKey: KeyId)
    requires Owns(s, keys)
    ensures var t := Encrypt(s, payload, newKey).0; Owns(t, Grow(keys, s, t, newKey)) && Advances(s, t)
  {
    ShiftOwns(s, keys, newKey, 0, 0);
  }

  lemma RotateKeeps(s: State, keys: seq<KeyId>, inner: KeyId, nonce: U64, now: nat, newKey: KeyId)
    requires Owns(s, keys)
    ensures var t := MaybeRotate(s, inner, nonce, now, newKey);
            Owns(t, Grow(keys, s, t, newKey)) && Advances(s, t)
  {
    ReplaceAndShiftOwns(s, keys, s.next, inner, newKey, nonce, 0);
  }

  lemma DecryptKeeps(s: State, keys: seq<KeyId>, m: Traffic, now: nat, newKey: KeyId)
    requires Owns(s, keys)
    ensures var t := Decrypt(s, m, now, newKey).0; Owns(t, Grow(keys, s, t, newKey)) && Advances(s, t)
  {
    if Decrypt(s, m, now, newKey).1.Some? {
      var u := SetSlotNonce(s, SlotFor(s, m).value, m.nonce);
      assert Owns(u, keys) && Advances(s, u);
      RotateKeeps(u, keys, m.box.inner, m.nonce, now, newKey);
    }
  }

  /** Each operation keeps the session on its key sequence and only moves forward. */
  lemma StateAfterKeeps(s: State, keys: seq<KeyId>, mv: Move)
    requires Owns(s, keys)
    ensures var t := StateAfter(s, mv); Owns(t, Grow(keys, s, t, mv.newKey)) && Advances(s, t)
  {
    match mv.event
    case GetInit(init, ackSeq) => if s.seq_ < init.seq_ { UpdateKeeps(s, keys, init, mv.newKey); }
    case GetAck(ack) => if s.seq_ < ack.seq_ { UpdateKeeps(s, keys, ack, mv.newKey); }
    case Send(payload) => EncryptKeeps(s, keys, payload, mv.newKey);
    case GetTraffic(m, now) => DecryptKeeps(s, keys, m, now, mv.newKey);
  }

  lemma StepUses(p: Party, mv: Move)
    requires Inv(p) && mv.newKey !in p.keys
    ensures UsesOrdered(Step(p, mv))
  {
    StateAfterKeeps(p.s, p.keys, mv);
  }

  /** An accepted message lies above its slot's nonce, and the slot moves up to it. */
  lemma AcceptanceRaisesSlot(s: State, m: Traffic, now: nat, newKey: KeyId)
    requires Decrypt(s, m, now, newKey).1.Some?
    ensures SlotFor(s, m).Some?
    ensures var slot, t := SlotFor(s, m).value, Decrypt(s, m, now, newKey).0;
            && SlotNonce(s, slot) < m.nonce
            && (t.localKeySeq == s.localKeySeq ==> SlotNonce(t, slot) == m.nonce)
  {
  }

  lemma StepReceipts(p: Party, mv: Move)
    requires Inv(p)
    ensures ReceiptsOrdered(Step(p, mv))
  {
    StateAfterKeeps(p.s, p.keys, mv);
    if NewReceipts(p.s, mv) != [] {
      AcceptanceRaisesSlot(p.s, mv.event.m, mv.event.now, mv.newKey);
    }
  }

  lemma StepInits(p: Party, mv: Move)
    requires Inv(p)
    ensures InitsOrdered(Step(p, mv))
  {
    StateAfterKeeps(p.s, p.keys, mv);
  }

  lemma {:induction false} RunKeepsInv(p: Party, moves: seq<Move>)
    requires Inv(p) && DrawsNewKeys(p, moves)
    ensures Inv(Run(p, moves))
    decreases |moves|
  {
    if moves != [] {
      var mv := moves[0];
      StateAfterKeeps(p.s, p.keys, mv);
      StepUses(p, mv);
      StepReceipts(p, mv);
      StepInits(p, mv);
      RunKeepsInv(Step(p, mv), moves[1..]);
    }
  }

  /** No send private key is ever used twice with one nonce, over every run with
      arbitrary inits, acks, traffic, timer readings and nonce wraps. */
  lemma SendNonceNeverReused(p: Party, moves: seq<Move>, i: nat, j: nat)
    requires Begins(p) && DrawsNewKeys(p, moves)
    requires i < j < |Run(p, moves).uses|
    ensures var u := Run(p, moves).uses; (u[i].key, u[i].nonce) != (u[j].key, u[j].nonce)
  {
    RunKeepsInv(p, moves);
    var q := Run(p, moves);
    assert Earlier(q.uses[i], q.uses[j]);
  }

  /** Between two key changes a slot accepts strictly increasing nonces, and no init
      or ack is accepted twice. */
  lemma NothingAcceptedTwice(p: Party, moves: seq<Move>, i: nat, j: nat)
    requires Begins(p) && DrawsNewKeys(p, moves) && i < j
    ensures var r := Run(p, moves).receipts;
            j < |r| && SameSlot(r[i], r[j]) ==> r[i].nonce < r[j].nonce
    ensures var r := Run(p, moves).inits; j < |r| ==> r[i].seq_ < r[j].seq_ && r[i] != r[j]
  {
    RunKeepsInv(p, moves);
  }

  /** A message that has just been accepted is refused, and changes nothing, when it
      is delivered again at once: in every slot, whether or not it rotated the keys. */
  lemma RedeliveryRefused(s: State, m: Traffic, now: nat, later: nat, k1: KeyId, k2: KeyId)
    requires Decrypt(s, m, now, k1).1.Some?
    ensures var t := Decrypt(s, m, now, k1).0; Decrypt(t, m, later, k2) == (t, None)
  {
    var t := Decrypt(s, m, now, k1).0;
    if t.localKeySeq != s.localKeySeq && SlotFor(s, m) == Some(NextSend) {
      assert SlotFor(t, m) == Some(Current) && t.recvNonce == m.nonce;
    }
  }
}

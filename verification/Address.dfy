/** Addresses from keys and partial keys from addresses (`src/address.rs`), and the
    transform that makes a partial key meet the full one (`src/bloom.rs`).

    The sixteen bytes of an address are kept in their three parts: the prefix byte, the
    count byte as a number, and the fourteen payload bytes. */
module Addresses {
  import opened Basics
  import opened Bits

  const KEY_BITS := 256

  type KeyBytes = s: seq<Byte> | |s| == 32 witness seq(32, _ => 0)

  datatype Address = Address(prefix: Byte, ones: U8, payload: seq<Byte>)
  datatype Subnet = Subnet(prefix: Byte, ones: U8, payload: seq<Byte>)

  predicate IsAddress(a: Address) {
    |a.payload| == 14
  }

  predicate IsSubnetPrefix(s: Subnet) {
    |s.payload| == 6
  }

  // ---------------------------------------------------------------- what the loops compute

  /** Bit `i` of the inverted key. */
  predicate InvBit(key: KeyBytes, i: nat)
    requires i < KEY_BITS
  {
    !BitAt(key, i)
  }

  /** The inverted key's leading ones from bit `i` on. */
  function OnesFrom(key: KeyBytes, i: nat): (n: nat)
    requires i <= KEY_BITS
    ensures i + n <= KEY_BITS
    ensures forall j :: i <= j < i + n ==> InvBit(key, j)
    ensures i + n < KEY_BITS ==> !InvBit(key, i + n)
    decreases KEY_BITS - i
  {
    if i < KEY_BITS && InvBit(key, i) then 1 + OnesFrom(key, i + 1) else 0
  }

  /** The count that goes into the address: it saturates at 255. */
  function Ones(key: KeyBytes): U8 {
    var n := OnesFrom(key, 0);
    if n > 255 then 255 else n
  }

  /** Payload bits a key with so many ones can fill: whole bytes only. */
  function Room(ones: U8): nat {
    8 * ((255 - ones) / 8)
  }

  /** Payload bit `j` of an address: the inverted key after its ones and the first
      zero, cut to whole bytes, then zeros. */
  predicate PayloadBit(key: KeyBytes, j: nat)
    requires j < 112
  {
    j < Room(Ones(key)) && InvBit(key, Ones(key) + 1 + j)
  }

  function PayloadBits(key: KeyBytes): (x: seq<bool>)
    ensures |x| == 112
  {
    seq(112, j requires 0 <= j < 112 => PayloadBit(key, j))
  }

  function AddrForKey(key: KeyBytes): (a: Address)
    ensures IsAddress(a)
  {
    Address(0x02, Ones(key), PackAll(PayloadBits(key)))
  }

  /** Bit `i` of the recovered key before the final inversion: the ones, a zero, the
      payload, zeros. */
  predicate Recovered(a: Address, i: nat)
    requires IsAddress(a) && i < KEY_BITS
  {
    i < a.ones || (a.ones < i < a.ones + 1 + 112 && BitAt(a.payload, i - a.ones - 1))
  }

  function RecoveredBits(a: Address): (x: seq<bool>)
    requires IsAddress(a)
    ensures |x| == KEY_BITS
  {
    seq(KEY_BITS, i requires 0 <= i < KEY_BITS => Recovered(a, i))
  }

  function KeyForAddr(a: Address): KeyBytes
    requires IsAddress(a)
  {
    NotAll(PackAll(RecoveredBits(a)))
  }

  function SubnetForKey(key: KeyBytes): (s: Subnet)
    ensures IsSubnetPrefix(s)
  {
    var a := AddrForKey(key);
    Subnet(a.prefix | 0x01, a.ones, a.payload[..6])
  }

  function ZeroBytes(n: nat): seq<Byte> {
    seq(n, _ => 0)
  }

  function KeyForSubnet(s: Subnet): KeyBytes
    requires IsSubnetPrefix(s)
  {
    KeyForAddr(Address(s.prefix, s.ones, s.payload + ZeroBytes(8)))
  }

  function LookupKeyForAddr(a: Address): KeyBytes
    requires IsAddress(a)
  {
    if a.prefix == 0x03 then KeyForSubnet(Subnet(a.prefix, a.ones, a.payload[..6])) else KeyForAddr(a)
  }

  /** The DHT transform. */
  function XKey(key: KeyBytes): KeyBytes {
    KeyForSubnet(SubnetForKey(key))
  }

  // ---------------------------------------------------------------- bits of the results

  lemma AddrBits(key: KeyBytes, j: nat)
    requires j < 112
    ensures BitAt(AddrForKey(key).payload, j) == PayloadBit(key, j)
  {
    PackedAt(PayloadBits(key), j);
  }

  lemma KeyBits(a: Address, i: nat)
    requires IsAddress(a) && i < KEY_BITS
    ensures InvBit(KeyForAddr(a), i) == Recovered(a, i)
  {
    PackedAt(RecoveredBits(a), i);
    NotAt(PackAll(RecoveredBits(a)), i);
  }

  /** The recovered key carries the address's count of ones. */
  lemma KeyOnes(a: Address)
    requires IsAddress(a)
    ensures Ones(KeyForAddr(a)) == a.ones
  {
    var key := KeyForAddr(a);
    forall i | 0 <= i <= a.ones
      ensures InvBit(key, i) == (i < a.ones)
    {
      KeyBits(a, i);
    }
    var n := OnesFrom(key, 0);
    assert n < KEY_BITS ==> !InvBit(key, n);
    assert !InvBit(key, a.ones);
  }

  lemma RecoveredAfterOnes(a: Address, j: nat)
    requires IsAddress(a) && j < 112 && a.ones + 1 + j < KEY_BITS
    ensures Recovered(a, a.ones + 1 + j) == BitAt(a.payload, j)
  {
  }

  lemma RoomFits(ones: U8)
    ensures ones + Room(ones) < KEY_BITS
  {
  }

  /** `key` has the bits recovered from `a`. */
  ghost predicate RecoveredFrom(key: KeyBytes, a: Address)
    requires IsAddress(a)
  {
    forall i :: 0 <= i < KEY_BITS ==> InvBit(key, i) == Recovered(a, i)
  }

  lemma PayloadOfRecovered(key: KeyBytes, a: Address, j: nat)
    requires IsAddress(a) && j < 112 && RecoveredFrom(key, a) && Ones(key) == a.ones
    ensures PayloadBit(key, j) == (j < Room(a.ones) && BitAt(a.payload, j))
  {
    RoomFits(a.ones);
    if j < Room(a.ones) {
      RecoveredAfterOnes(a, j);
      assert InvBit(key, a.ones + 1 + j) == Recovered(a, a.ones + 1 + j);
    }
  }

  /** Reading a recovered key back gives the address's payload, as far as there is room. */
  lemma RecoveredPayload(a: Address, j: nat)
    requires IsAddress(a) && j < 112
    ensures PayloadBit(KeyForAddr(a), j) == (j < Room(a.ones) && BitAt(a.payload, j))
  {
    KeyOnes(a);
    forall i | 0 <= i < KEY_BITS
      ensures InvBit(KeyForAddr(a), i) == Recovered(a, i)
    {
      KeyBits(a, i);
    }
    PayloadOfRecovered(KeyForAddr(a), a, j);
  }

  // ---------------------------------------------------------------- rendezvous

  /** Key recovery is a section: the address of the partial key is the address. */
  lemma AddressRetracts(k: KeyBytes)
    ensures AddrForKey(KeyForAddr(AddrForKey(k))) == AddrForKey(k)
  {
    var a := AddrForKey(k);
    var b := AddrForKey(KeyForAddr(a));
    KeyOnes(a);
    forall j | 0 <= j < 112
      ensures BitAt(b.payload, j) == BitAt(a.payload, j)
    {
      AddrBits(KeyForAddr(a), j);
      AddrBits(k, j);
      RecoveredPayload(a, j);
    }
    SameBytes(b.payload, a.payload);
  }

  /** Two keys whose counts and first 48 payload bits agree transform to the same key. */
  lemma XKeyDependsOn(k: KeyBytes, l: KeyBytes)
    requires Ones(k) == Ones(l) && forall j :: 0 <= j < 48 ==> PayloadBit(k, j) == PayloadBit(l, j)
    ensures XKey(k) == XKey(l)
  {
    var a, b := AddrForKey(k).payload, AddrForKey(l).payload;
    forall j | 0 <= j < 48
      ensures BitAt(a[..6], j) == BitAt(b[..6], j)
    {
      AddrBits(k, j);
      AddrBits(l, j);
    }
    SameBytes(a[..6], b[..6]);
  }

  /** What an address says about ones and payload survives in the /64 that starts it. */
  lemma PrefixKeepsTransform(k: KeyBytes, a: Address)
    requires IsAddress(a) && a.ones == Ones(k) && a.payload[..6] == AddrForKey(k).payload[..6]
    ensures XKey(KeyForAddr(a)) == XKey(k)
  {
    KeyOnes(a);
    var p := AddrForKey(k).payload;
    forall j | 0 <= j < 48
      ensures PayloadBit(KeyForAddr(a), j) == PayloadBit(k, j)
    {
      RecoveredPayload(a, j);
      AddrBits(k, j);
      assert a.payload[j / 8] == a.payload[..6][j / 8] && p[j / 8] == p[..6][j / 8];
    }
    XKeyDependsOn(KeyForAddr(a), k);
  }

  lemma XKeyIdempotent(k: KeyBytes)
    ensures XKey(XKey(k)) == XKey(k)
  {
    var s := SubnetForKey(k);
    var a := Address(s.prefix, s.ones, s.payload + ZeroBytes(8));
    assert a.payload[..6] == s.payload;
    PrefixKeepsTransform(k, a);
  }

  /** What an address says of its key: the number of zero bits it starts with, up to 255. */
  lemma OnesMean(key: KeyBytes, i: nat)
    ensures i < AddrForKey(key).ones ==> !BitAt(key, i)
    ensures AddrForKey(key).ones < 255 ==> BitAt(key, AddrForKey(key).ones)
  {
    var n := OnesFrom(key, 0);
    assert i < n ==> InvBit(key, i);
  }

  /** And after the one that ends them as many of its bits, inverted, as fill whole bytes. */
  lemma PayloadMeans(key: KeyBytes, n: nat, j: nat)
    requires n == AddrForKey(key).ones && j < 112 && j < Room(n) && n + 1 + j < KEY_BITS
    ensures BitAt(AddrForKey(key).payload, j) <==> !BitAt(key, n + 1 + j)
  {
    AddrBits(key, j);
    PayloadBitIs(key, n, j);
  }

  lemma PayloadBitIs(key: KeyBytes, n: nat, j: nat)
    requires n == Ones(key) && j < 112 && j < Room(n) && n + 1 + j < KEY_BITS
    ensures PayloadBit(key, j) <==> !BitAt(key, n + 1 + j)
  {
    assert PayloadBit(key, j) == InvBit(key, n + 1 + j);
  }

  /** Beyond those the payload is zero. */
  lemma PayloadEnds(key: KeyBytes, j: nat)
    requires Room(Ones(key)) <= j < 112
    ensures !BitAt(AddrForKey(key).payload, j)
  {
    AddrBits(key, j);
  }

  /** Node addresses start with 0x02 and routed subnets with 0x03, so neither is ever taken
      for the other: a lookup by an address of a subnet reads six payload bytes, any other
      all fourteen. */
  lemma FirstBytes(k: KeyBytes, a: Address)
    requires IsAddress(a)
    ensures AddrForKey(k).prefix == 0x02 && SubnetForKey(k).prefix == 0x03
    ensures a.prefix == SubnetForKey(k).prefix ==>
              LookupKeyForAddr(a) == KeyForSubnet(Subnet(0x03, a.ones, a.payload[..6]))
    ensures a.prefix == AddrForKey(k).prefix ==> LookupKeyForAddr(a) == KeyForAddr(a)
  {
  }

  /** Is `a` the address of `k`, or an address in the /64 of `k`? */
  predicate AddressedTo(a: Address, k: KeyBytes)
    requires IsAddress(a)
  {
    a == AddrForKey(k) || Subnet(a.prefix, a.ones, a.payload[..6]) == SubnetForKey(k)
  }

  /** Rendezvous: a lookup by `k`'s address, or by any address in its /64, carries a
      key with `k`'s transform. So the owner answers it, and the owner's notify finds
      the rumour the lookup left behind. */
  lemma LookupMeetsOwner(k: KeyBytes, a: Address)
    requires IsAddress(a) && AddressedTo(a, k)
    ensures XKey(LookupKeyForAddr(a)) == XKey(k)
  {
    if a == AddrForKey(k) {
      PrefixKeepsTransform(k, a);
    } else {
      XKeyIdempotent(k);
    }
  }

  // ---------------------------------------------------------------- the loops

  /** The bytes read so far are the inverted key from bit `start` on. */
  ghost predicate Copied(key: KeyBytes, start: nat, bytes: seq<Byte>) {
    start + 8 * |bytes| <= KEY_BITS &&
    forall j :: 0 <= j < 8 * |bytes| ==> BitAt(bytes, j) == InvBit(key, start + j)
  }

  /** The low `n` bits of `bits` are the inverted key from bit `start` on. */
  ghost predicate Shifted(key: KeyBytes, start: nat, bits: Byte, n: nat) {
    n <= 8 && start + n <= KEY_BITS &&
    forall p :: 8 - n <= p < 8 ==> BitOf(bits, p) == InvBit(key, start + n - 8 + p)
  }

  lemma ShiftsIn(key: KeyBytes, start: nat, bits: Byte, n: nat)
    requires Shifted(key, start, bits, n) && n < 8 && start + n < KEY_BITS
    ensures Shifted(key, start, ShiftIn(bits, InvBit(key, start + n)), n + 1)
  {
    var shifted := ShiftIn(bits, InvBit(key, start + n));
    forall p | 7 - n <= p < 8
      ensures BitOf(shifted, p) == InvBit(key, start + n - 7 + p)
    {
      ShiftInBit(bits, InvBit(key, start + n), p);
    }
  }

  lemma CopyByte(key: KeyBytes, start: nat, bytes: seq<Byte>, bits: Byte)
    requires Copied(key, start, bytes) && Shifted(key, start + 8 * |bytes|, bits, 8)
    ensures Copied(key, start, bytes + [bits])
  {
    forall j | 0 <= j < 8 * (|bytes| + 1)
      ensures BitAt(bytes + [bits], j) == InvBit(key, start + j)
    {
      if j >= 8 * |bytes| {
        var t := j - 8 * |bytes|;
        assert j / 8 == |bytes| && j % 8 == t;
        assert BitOf(bits, t) == InvBit(key, start + 8 * |bytes| + 8 - 8 + t);
      } else {
        assert BitAt(bytes, j) == BitAt(bytes + [bits], j);
      }
    }
  }

  /** Zero bytes pad the payload to fourteen. */
  lemma PaddedPayload(key: KeyBytes, bytes: seq<Byte>)
    requires Copied(key, Ones(key) + 1, bytes) && 8 * |bytes| == if Room(Ones(key)) < 112 then Room(Ones(key)) else 112
    ensures bytes + ZeroBytes(14 - |bytes|) == PackAll(PayloadBits(key))
  {
    var padded, packed := bytes + ZeroBytes(14 - |bytes|), PackAll(PayloadBits(key));
    assert |packed| == 14;
    forall j | 0 <= j < 112
      ensures BitAt(padded, j) == BitAt(packed, j)
    {
      PackedAt(PayloadBits(key), j);
      PaddedBit(bytes, 14 - |bytes|, j);
      if j < 8 * |bytes| { assert BitAt(bytes, j) == InvBit(key, Ones(key) + 1 + j); }
    }
    SameBytes(padded, packed);
  }

  lemma PaddedBit(bytes: seq<Byte>, n: nat, j: nat)
    requires j < 8 * (|bytes| + n)
    ensures BitAt(bytes + ZeroBytes(n), j) == (j < 8 * |bytes| && BitAt(bytes, j))
  {
    ZeroBit(j % 8);
  }

  /** `n` ones and a zero are past, then some whole bytes and a few bits have been read. */
  ghost predicate Reading(key: KeyBytes, n: nat, idx: nat, bytes: seq<Byte>, bits: Byte, nbits: nat) {
    && idx <= KEY_BITS && nbits < 8 && idx == n + 1 + 8 * |bytes| + nbits
    && Copied(key, n + 1, bytes) && Shifted(key, n + 1 + 8 * |bytes|, bits, nbits)
  }

  lemma ReadBit(key: KeyBytes, n: nat, idx: nat, bytes: seq<Byte>, bits: Byte, nbits: nat)
    requires Reading(key, n, idx, bytes, bits, nbits) && idx < KEY_BITS && nbits < 7
    ensures Reading(key, n, idx + 1, bytes, ShiftIn(bits, InvBit(key, idx)), nbits + 1)
  {
    var start := n + 1 + 8 * |bytes|;
    assert start + nbits == idx;
    ShiftsIn(key, start, bits, nbits);
  }

  /** Where the scan of the key stands before bit `idx`: still counting ones, or past
      the first zero with some whole bytes and a few bits read. */
  ghost predicate Scanning(key: KeyBytes, idx: nat, seenZero: bool, ones: U8, bytes: seq<Byte>, bits: Byte,
                           nbits: nat) {
    var n := OnesFrom(key, 0);
    idx <= KEY_BITS && nbits < 8 &&
    if seenZero then
      ones == n && Reading(key, n, idx, bytes, bits, nbits)
    else
      idx <= n && ones == (if idx > 255 then 255 else idx) && bytes == [] && nbits == 0
  }

  lemma OneMore(key: KeyBytes, idx: nat)
    requires idx <= OnesFrom(key, 0) && idx < KEY_BITS && InvBit(key, idx)
    ensures idx + 1 <= OnesFrom(key, 0)
  {
  }

  lemma ScanOne(key: KeyBytes, idx: nat, ones: U8, bits: Byte)
    requires Scanning(key, idx, false, ones, [], bits, 0) && idx < KEY_BITS && InvBit(key, idx)
    ensures Scanning(key, idx + 1, false, if ones == 255 then 255 else ones + 1, [], bits, 0)
  {
    OneMore(key, idx);
  }

  lemma ScanZero(key: KeyBytes, idx: nat, ones: U8, bits: Byte)
    requires Scanning(key, idx, false, ones, [], bits, 0) && idx < KEY_BITS && !InvBit(key, idx)
    ensures Scanning(key, idx + 1, true, ones, [], bits, 0)
  {
  }

  lemma ScanBit(key: KeyBytes, idx: nat, ones: U8, bytes: seq<Byte>, bits: Byte, nbits: nat)
    requires Scanning(key, idx, true, ones, bytes, bits, nbits) && idx < KEY_BITS && nbits < 7
    ensures Scanning(key, idx + 1, true, ones, bytes, ShiftIn(bits, InvBit(key, idx)), nbits + 1)
  {
    ReadBit(key, OnesFrom(key, 0), idx, bytes, bits, nbits);
  }

  lemma ScanByte(key: KeyBytes, idx: nat, ones: U8, bytes: seq<Byte>, bits: Byte)
    requires Scanning(key, idx, true, ones, bytes, bits, 7) && idx < KEY_BITS
    ensures Scanning(key, idx + 1, true, ones, bytes + [ShiftIn(bits, InvBit(key, idx))], 0, 0)
  {
    ReadByte(key, OnesFrom(key, 0), idx, bytes, bits);
    ScanNext(key, idx + 1, ones, bytes + [ShiftIn(bits, InvBit(key, idx))]);
  }

  lemma ReadByte(key: KeyBytes, n: nat, idx: nat, bytes: seq<Byte>, bits: Byte)
    requires Reading(key, n, idx, bytes, bits, 7) && idx < KEY_BITS
    ensures Copied(key, n + 1, bytes + [ShiftIn(bits, InvBit(key, idx))])
  {
    var start, byte := n + 1, ShiftIn(bits, InvBit(key, idx));
    assert start + 8 * |bytes| + 7 == idx;
    ShiftsIn(key, start + 8 * |bytes|, bits, 7);
    CopyByte(key, start, bytes, byte);
  }

  lemma ScanNext(key: KeyBytes, idx: nat, ones: U8, bytes: seq<Byte>)
    requires ones == OnesFrom(key, 0) && idx == ones + 1 + 8 * |bytes| <= KEY_BITS && Copied(key, ones + 1, bytes)
    ensures Scanning(key, idx, true, ones, bytes, 0, 0)
  {
  }

  /** After the last bit: the count is final, and the bytes, cut to fourteen and
      padded, are the payload. */
  lemma ScanDone(key: KeyBytes, seenZero: bool, ones: U8, bytes: seq<Byte>, bits: Byte, nbits: nat)
    requires Scanning(key, KEY_BITS, seenZero, ones, bytes, bits, nbits)
    ensures var take := if |bytes| < 14 then |bytes| else 14;
            AddrForKey(key) == Address(0x02, ones, bytes[..take] + ZeroBytes(14 - take))
  {
    var take := if |bytes| < 14 then |bytes| else 14;
    if seenZero {
      RoomIs(ones, |bytes|, nbits);
      CutBytes(key, ones + 1, bytes, take);
    }
    PaddedPayload(key, bytes[..take]);
  }

  lemma RoomIs(ones: U8, whole: nat, rest: nat)
    requires 255 - ones == 8 * whole + rest && rest < 8
    ensures Room(ones) == 8 * whole
  {
  }

  lemma CutBytes(key: KeyBytes, start: nat, bytes: seq<Byte>, take: nat)
    requires Copied(key, start, bytes) && take <= |bytes|
    ensures Copied(key, start, bytes[..take])
  {
    forall j | 0 <= j < 8 * take
      ensures BitAt(bytes[..take], j) == InvBit(key, start + j)
    {
      assert BitAt(bytes[..take], j) == BitAt(bytes, j);
    }
  }

  /** `addr_for_key`: count the ones, skip the zero, shift the rest into bytes. */
  method ComputeAddr(key: KeyBytes) returns (a: Address)
    ensures a == AddrForKey(key)
  {
    var inv := NotAll(key);
    var temp: seq<Byte> := [];
    var nbits := 0;
    var bits: Byte := 0;
    var seenZero := false;
    var ones: U8 := 0;
    for idx := 0 to KEY_BITS
      invariant Scanning(key, idx, seenZero, ones, temp, bits, nbits)
    {
      NotAt(key, idx);
      var bit := BitOf(inv[idx / 8], idx % 8);
      if !seenZero && bit {
        ScanOne(key, idx, ones, bits);
        ones := if ones == 255 then 255 else ones + 1;
      } else if !seenZero {
        ScanZero(key, idx, ones, bits);
        seenZero := true;
      } else {
        temp, bits, nbits := TakeBit(key, idx, ones, temp, bits, nbits, bit);
      }
    }
    ScanDone(key, seenZero, ones, temp, bits, nbits);
    var take := if |temp| < 14 then |temp| else 14;
    a := Address(0x02, ones, temp[..take] + ZeroBytes(14 - take));
  }

  /** The loop body past the first zero: shift the bit in, and store a full byte. */
  method TakeBit(ghost key: KeyBytes, ghost idx: nat, ghost ones: U8, temp: seq<Byte>, bits: Byte, nbits: nat,
                 bit: bool)
    returns (temp': seq<Byte>, bits': Byte, nbits': nat)
    requires idx < KEY_BITS && bit == InvBit(key, idx) && Scanning(key, idx, true, ones, temp, bits, nbits)
    ensures Scanning(key, idx + 1, true, ones, temp', bits', nbits')
  {
    temp', bits', nbits' := temp, ShiftIn(bits, bit), nbits + 1;
    if nbits' == 8 {
      ScanByte(key, idx, ones, temp, bits);
      temp', bits', nbits' := temp + [bits'], 0, 0;
    } else {
      ScanBit(key, idx, ones, temp, bits, nbits);
    }
  }

  /** How far the recovery has come: the ones, and `j` payload bits. */
  ghost predicate Restored(a: Address, key: seq<Byte>, j: nat)
    requires IsAddress(a)
  {
    |key| == 32 && j <= 112 &&
    forall i :: 0 <= i < KEY_BITS ==> (BitAt(key, i) <==> Recovered(a, i) && i < a.ones + 1 + j)
  }

  lemma RestoreBit(a: Address, key: seq<Byte>, j: nat)
    requires IsAddress(a) && Restored(a, key, j) && j < 112 && a.ones + 1 + j < KEY_BITS
    ensures Restored(a, SetBit(key, a.ones + 1 + j, BitAt(a.payload, j)), j + 1)
  {
    var at := a.ones + 1 + j;
    RecoveredAfterOnes(a, j);
    forall i | 0 <= i < KEY_BITS
      ensures BitAt(SetBit(key, at, BitAt(a.payload, j)), i) <==> Recovered(a, i) && i < a.ones + 1 + (j + 1)
    {
      SetBitAt(key, at, BitAt(a.payload, j), i);
    }
  }

  lemma RestoredIsKey(a: Address, key: seq<Byte>, j: nat)
    requires IsAddress(a) && Restored(a, key, j) && (j == 112 || a.ones + 1 + j >= KEY_BITS)
    ensures NotAll(key) == KeyForAddr(a)
  {
    forall i | 0 <= i < KEY_BITS
      ensures BitAt(key, i) == BitAt(PackAll(RecoveredBits(a)), i)
    {
      PackedAt(RecoveredBits(a), i);
    }
    SameBytes(key, PackAll(RecoveredBits(a)));
  }

  /** Exactly the first `n` bits are set. */
  ghost predicate LeadingSet(key: seq<Byte>, n: nat) {
    |key| == 32 && forall i :: 0 <= i < KEY_BITS ==> (BitAt(key, i) <==> i < n)
  }

  lemma SetLeading(key: seq<Byte>, n: nat)
    requires LeadingSet(key, n) && n < KEY_BITS
    ensures LeadingSet(SetBit(key, n, true), n + 1)
  {
    forall i | 0 <= i < KEY_BITS
      ensures BitAt(SetBit(key, n, true), i) <==> i < n + 1
    {
      SetBitAt(key, n, true, i);
    }
  }

  lemma NothingSet()
    ensures LeadingSet(ZeroBytes(32), 0)
  {
    forall i | 0 <= i < KEY_BITS ensures !BitAt(ZeroBytes(32), i) { ZeroAt(32, i); }
  }

  lemma LeadingRestored(a: Address, key: seq<Byte>)
    requires IsAddress(a) && LeadingSet(key, a.ones)
    ensures Restored(a, key, 0)
  {
  }

  method SetOnes(a: Address) returns (key: seq<Byte>)
    requires IsAddress(a)
    ensures Restored(a, key, 0)
  {
    key := ZeroBytes(32);
    NothingSet();
    for idx := 0 to a.ones
      invariant LeadingSet(key, idx)
    {
      SetLeading(key, idx);
      key := SetBit(key, idx, true);
    }
    LeadingRestored(a, key);
  }

  method SetPayload(a: Address, start: seq<Byte>) returns (key: seq<Byte>, ghost j: nat)
    requires IsAddress(a) && Restored(a, start, 0)
    ensures Restored(a, key, j) && (j == 112 || a.ones + 1 + j >= KEY_BITS)
  {
    key := start;
    var n := 0;
    while n < 112 && a.ones + 1 + n < KEY_BITS
      invariant Restored(a, key, n)
    {
      RestoreBit(a, key, n);
      key := SetBit(key, a.ones + 1 + n, BitAt(a.payload, n));
      n := n + 1;
    }
    j := n;
  }

  /** `key_for_addr`: set the ones, then the payload after a zero, then invert. */
  method ComputeKey(a: Address) returns (r: KeyBytes)
    requires IsAddress(a)
    ensures r == KeyForAddr(a)
  {
    var start := SetOnes(a);
    ghost var j;
    var key;
    key, j := SetPayload(a, start);
    RestoredIsKey(a, key, j);
    r := NotAll(key);
  }
}

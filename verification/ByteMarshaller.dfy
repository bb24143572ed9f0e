/** The key and value formats of repository/keyvalue/marshal/byte_marshaller.go. */
module ByteMarshaller {
  import opened ByteStrings
  import opened Datetime
  import opened Types

  const TIMESTAMP_LENGTH := 4
  const BLOCK_NUMBER_LENGTH := 10

  /** An address and its sequence take gethcommon.AddressLength + 1 bytes: where the i-th pair starts. */
  function Slot(i: nat): nat {
    21 * i
  }

  // ----- Address database -----

  function MarshallAddressKeyPrefix2(address: Bytes, time: int): Bytes {
    address + MarshallTime(time)
  }

  function MarshallAddressKeyPrefix3(address: Bytes, seconds: int): Bytes {
    address + MarshallTime2(seconds)
  }

  function MarshallAddressKeyStr(address: Bytes, time: int, sequence: Byte): Bytes {
    MarshallAddressKeyPrefix2(address, time) + [sequence]
  }

  function MarshallAddressKey(index: AddressIndex): Bytes {
    MarshallAddressKeyStr(index.address, index.time, index.sequence)
  }

  function MarshallAddressValue(index: AddressIndex): Bytes {
    index.txHash + index.coupleAddress + BigBytes(Abs(index.value))
  }

  function KeyAddress(key: Bytes): Bytes
    requires |key| >= ADDRESS_LENGTH + TIMESTAMP_LENGTH
  {
    key[..ADDRESS_LENGTH]
  }

  function KeyTime(key: Bytes): nat
    requires |key| >= ADDRESS_LENGTH + TIMESTAMP_LENGTH
  {
    FromBytes(key[ADDRESS_LENGTH..ADDRESS_LENGTH + TIMESTAMP_LENGTH])
  }

  function UnmarshallAddressValue(value: Bytes): AddressIndex
    requires |value| >= HASH_LENGTH + ADDRESS_LENGTH
  {
    AddressIndex([], 0, value[..HASH_LENGTH], FromBytes(value[HASH_LENGTH + ADDRESS_LENGTH..]), 0,
                 value[HASH_LENGTH..HASH_LENGTH + ADDRESS_LENGTH])
  }

  /** keyValueToAddressIndex of index_repo.go: the sequence is not decoded and stays 0. */
  function KeyValueToAddressIndex(kv: KeyValue): AddressIndex
    requires |kv.key| >= ADDRESS_LENGTH + TIMESTAMP_LENGTH
    requires |kv.value| >= HASH_LENGTH + ADDRESS_LENGTH
  {
    UnmarshallAddressValue(kv.value).(address := KeyAddress(kv.key), time := KeyTime(kv.key))
  }

  /**
    The key format embeds the order of (address, time, sequence) into the byte order, so
    equal keys come from equal triples.
   */
  lemma AddressKeyOrder(a: Bytes, s: int, i: Byte, b: Bytes, t: int, j: Byte)
    requires |a| == |b| && TimeFits(s) && TimeFits(t)
    ensures Less(MarshallAddressKeyStr(a, s, i), MarshallAddressKeyStr(b, t, j)) <==>
            Less(a, b) || (a == b && (s < t || (s == t && i < j)))
    ensures MarshallAddressKeyStr(a, s, i) == MarshallAddressKeyStr(b, t, j) <==> a == b && s == t && i == j
  {
    TimeOrder(s, t);
    TailOrder(MarshallTime(s), i, MarshallTime(t), j);
    assert MarshallAddressKeyStr(a, s, i) == a + (MarshallTime(s) + [i]);
    assert MarshallAddressKeyStr(b, t, j) == b + (MarshallTime(t) + [j]);
    LessConcat(a, MarshallTime(s) + [i], b, MarshallTime(t) + [j]);
    SplitAt(a, MarshallTime(s) + [i], b, MarshallTime(t) + [j]);
  }

  lemma TailOrder(x: Bytes, i: Byte, y: Bytes, j: Byte)
    requires |x| == |y|
    ensures Less(x + [i], y + [j]) <==> Less(x, y) || (x == y && i < j)
    ensures x + [i] == y + [j] <==> x == y && i == j
  {
    LessConcat(x, [i], y, [j]);
    SplitAt(x, [i], y, [j]);
  }

  lemma SplitAt(a: Bytes, x: Bytes, b: Bytes, y: Bytes)
    requires |a| == |b|
    ensures a + x == b + y <==> a == b && x == y
  {
    assert (a + x)[..|a|] == a && (a + x)[|a|..] == x;
    assert (b + y)[..|b|] == b && (b + y)[|b|..] == y;
  }

  /** The two time-prefix encoders build the same prefix for every time of at most ten digits. */
  lemma PrefixEncodersAgree(address: Bytes, t: nat)
    requires t < 10_000_000_000
    ensures MarshallAddressKeyPrefix2(address, t) == MarshallAddressKeyPrefix3(address, t)
  {
    EncodersAgree(t);
  }

  lemma AddressKeyParts(address: Bytes, t: int, sequence: Byte)
    requires |address| == ADDRESS_LENGTH && TimeFits(t)
    ensures var key := MarshallAddressKeyStr(address, t, sequence);
      |key| == 25 && KeyAddress(key) == address && KeyTime(key) == t && key[24] == sequence
  {
    EncodersAgree(t);
    BigBytesRoundTrip(t);
    var key := MarshallAddressKeyStr(address, t, sequence);
    assert key[ADDRESS_LENGTH..ADDRESS_LENGTH + TIMESTAMP_LENGTH] == MarshallTime(t);
    assert key[..ADDRESS_LENGTH] == address;
  }

  predicate EntryFits(e: AddressIndex) {
    && |e.address| == |e.coupleAddress| == ADDRESS_LENGTH
    && |e.txHash| == HASH_LENGTH
    && TimeFits(e.time)
  }

  /** A decoded record has every field of its entry but the sequence, which reads as 0, and the sign of the value. */
  lemma AddressEntryRoundTrip(e: AddressIndex)
    requires EntryFits(e)
    ensures var kv := KeyValue(MarshallAddressKey(e), MarshallAddressValue(e));
      && |kv.key| == 25 && |kv.value| >= HASH_LENGTH + ADDRESS_LENGTH
      && var r := KeyValueToAddressIndex(kv);
         && r.address == e.address && r.time == e.time
         && r.txHash == e.txHash && r.coupleAddress == e.coupleAddress
         && r.value == (if e.value >= 0 then e.value else -e.value)
         && r.sequence == 0
  {
    AddressKeyParts(e.address, e.time, e.sequence);
    BigBytesRoundTrip(Abs(e.value));
    AddressLayout(e);
  }

  /** Where the fields of an entry lie in its key and its value. */
  lemma AddressLayout(e: AddressIndex)
    requires EntryFits(e)
    ensures var key := MarshallAddressKey(e);
      && |key| == 25 && key[..20] == e.address && key[20..24] == BigBytes(e.time) && key[24] == e.sequence
    ensures var value := MarshallAddressValue(e);
      && |value| >= 52 && value[..32] == e.txHash && value[32..52] == e.coupleAddress
      && value[52..] == BigBytes(if e.value >= 0 then e.value else -e.value)
  {
    EncodersAgree(e.time);
    var key, value := MarshallAddressKey(e), MarshallAddressValue(e);
    assert key[..20] == e.address && key[20..24] == MarshallTime(e.time);
    assert value[..32] == e.txHash && value[32..52] == e.coupleAddress && value[52..] == BigBytes(Abs(e.value));
  }

  // ----- Block database -----

  function MarshallBlockKey(blockNumber: Bytes): Bytes {
    blockNumber
  }

  function UnmarshallBlockKey(key: Bytes): nat
    requires IsDigits(key)
  {
    ParseDecimal(key)
  }

  /** s in a field of n bytes, left aligned and filled up with zero bytes. */
  function Field(s: Bytes, n: nat): (f: Bytes)
    requires |s| <= n
    ensures |f| == n
  {
    s + seq(n - |s|, _ => 0)
  }

  /** The block fields for which the source's index arithmetic stays inside each field. */
  predicate BlockFits(b: BlockIndex) {
    && |MarshallTime(b.createdAt)| <= TIMESTAMP_LENGTH
    && |MarshallTime(b.time)| <= TIMESTAMP_LENGTH
    && forall i :: 0 <= i < |b.addresses| ==> |b.addresses[i].address| <= ADDRESS_LENGTH
  }

  function AddressFields(addresses: seq<AddressSequence>): (s: Bytes)
    requires forall i :: 0 <= i < |addresses| ==> |addresses[i].address| <= ADDRESS_LENGTH
    ensures |s| == Slot(|addresses|)
  {
    if addresses == [] then []
    else
      var last := addresses[|addresses| - 1];
      AddressFields(addresses[..|addresses| - 1]) + (Field(last.address, ADDRESS_LENGTH) + [last.sequence])
  }

  function BlockValue(b: BlockIndex): (s: Bytes)
    requires BlockFits(b)
    ensures |s| == 2 * TIMESTAMP_LENGTH + Slot(|b.addresses|)
  {
    Field(MarshallTime(b.createdAt), TIMESTAMP_LENGTH) + Field(MarshallTime(b.time), TIMESTAMP_LENGTH)
    + AddressFields(b.addresses)
  }

  // ----- The buffer that MarshallBlockValue fills -----

  /** Writing bytes into a buffer from an offset on; None when an index runs past the end, as Go panics then. */
  function Overwrite(buffer: Bytes, offset: nat, items: Bytes): (r: Option<Bytes>)
    requires offset <= |buffer|
    ensures r.Some? <==> offset + |items| <= |buffer|
    ensures r.Some? ==> |r.value| == |buffer|
  {
    if offset + |items| <= |buffer| then Some(buffer[..offset] + items + buffer[offset + |items|..]) else None
  }

  /** One round of the address loop: the address bytes, then the sequence in the last byte of the slot. */
  function WriteSlot(buffer: Bytes, p: nat, item: AddressSequence): (r: Option<Bytes>)
    requires p + Slot(1) <= |buffer|
    ensures r.Some? ==> |r.value| == |buffer|
  {
    match Overwrite(buffer, p, item.address)
    case None => None
    case Some(s) => Some(s[p + ADDRESS_LENGTH := item.sequence])
  }

  function WriteSlots(buffer: Bytes, addresses: seq<AddressSequence>): (r: Option<Bytes>)
    requires 2 * TIMESTAMP_LENGTH + Slot(|addresses|) <= |buffer|
    ensures r.Some? ==> |r.value| == |buffer|
  {
    if addresses == [] then Some(buffer)
    else
      var n := |addresses| - 1;
      match WriteSlots(buffer, addresses[..n])
      case None => None
      case Some(s) => WriteSlot(s, 2 * TIMESTAMP_LENGTH + Slot(n), addresses[n])
  }

  /**
    The value of a block record, whatever the widths: a time above four bytes runs into the next
    field and an address above 20 bytes into its sequence and the next slot, where later writes win.
   */
  function Written(b: BlockIndex): Option<Bytes> {
    match Overwrite(Zeros(2 * TIMESTAMP_LENGTH + Slot(|b.addresses|)), 0, MarshallTime(b.createdAt))
    case None => None
    case Some(s) =>
      match Overwrite(s, TIMESTAMP_LENGTH, MarshallTime(b.time))
      case None => None
      case Some(t) => WriteSlots(t, b.addresses)
  }

  function Zeros(n: nat): (s: Bytes)
    ensures |s| == n
  {
    seq(n, _ => 0)
  }

  method MarshallBlockValue(b: BlockIndex) returns (value: Option<Bytes>)
    ensures value == Written(b)
    ensures BlockFits(b) ==> value == Some(BlockValue(b))
  {
    hide BlockFits, BlockValue, MarshallTime, Overwrite, WriteSlots;
    if BlockFits(b) {
      WrittenFits(b);
    }
    var result := new Byte[2 * TIMESTAMP_LENGTH + Slot(|b.addresses|)](_ => 0);
    assert result[..] == Zeros(2 * TIMESTAMP_LENGTH + Slot(|b.addresses|));
    var ok := CopyInto(result, 0, MarshallTime(b.createdAt));
    if !ok {
      return None;
    }
    ok := CopyInto(result, TIMESTAMP_LENGTH, MarshallTime(b.time));
    if !ok {
      return None;
    }
    ok := WriteAddresses(result, b.addresses);
    value := if ok then Some(result[..]) else None;
  }

  /** The loop over the addresses. */
  method WriteAddresses(result: array<Byte>, addresses: seq<AddressSequence>) returns (ok: bool)
    requires result.Length == 2 * TIMESTAMP_LENGTH + Slot(|addresses|)
    modifies result
    ensures WriteSlots(old(result[..]), addresses).Some? <==> ok
    ensures ok ==> WriteSlots(old(result[..]), addresses) == Some(result[..])
  {
    hide WriteSlot, WriteSlots;
    ghost var before := result[..];
    NoSlots(before);
    assert addresses[..0] == [];
    for i := 0 to |addresses|
      invariant WriteSlots(before, addresses[..i]) == Some(result[..])
    {
      SlotsStep(before, addresses, i);
      ok := WriteAddress(result, 2 * TIMESTAMP_LENGTH + Slot(i), addresses[i]);
      if !ok {
        SlotsStop(before, addresses, i);
        return;
      }
    }
    assert addresses[..|addresses|] == addresses;
    ok := true;
  }

  /** One round of it. */
  method WriteAddress(result: array<Byte>, p: nat, item: AddressSequence) returns (ok: bool)
    requires p + Slot(1) <= result.Length
    modifies result
    ensures WriteSlot(old(result[..]), p, item).Some? <==> ok
    ensures ok ==> WriteSlot(old(result[..]), p, item) == Some(result[..])
  {
    hide Overwrite;
    ok := CopyInto(result, p, item.address);
    if ok {
      result[p + ADDRESS_LENGTH] := item.sequence;
    }
  }

  lemma NoSlots(buffer: Bytes)
    requires 2 * TIMESTAMP_LENGTH <= |buffer|
    ensures WriteSlots(buffer, []) == Some(buffer)
  {
  }

  lemma SlotsStep(buffer: Bytes, addresses: seq<AddressSequence>, i: nat)
    requires 2 * TIMESTAMP_LENGTH + Slot(|addresses|) <= |buffer| && i < |addresses|
    requires WriteSlots(buffer, addresses[..i]).Some?
    ensures WriteSlots(buffer, addresses[..i + 1]) ==
            WriteSlot(WriteSlots(buffer, addresses[..i]).value, 2 * TIMESTAMP_LENGTH + Slot(i), addresses[i])
  {
    hide WriteSlot;
    assert addresses[..i + 1][..i] == addresses[..i];
  }

  /** A panic in one round ends the loop. */
  lemma {:induction false} SlotsStop(buffer: Bytes, addresses: seq<AddressSequence>, i: nat)
    requires 2 * TIMESTAMP_LENGTH + Slot(|addresses|) <= |buffer| && i < |addresses|
    requires WriteSlots(buffer, addresses[..i + 1]).None?
    ensures WriteSlots(buffer, addresses).None?
  {
    hide WriteSlot;
    if i + 1 < |addresses| {
      var n := |addresses| - 1;
      assert addresses[..n][..i + 1] == addresses[..i + 1];
      SlotsStop(buffer, addresses[..n], i);
    } else {
      assert addresses[..i + 1] == addresses;
    }
  }

  /** The loops that copy a byte slice. */
  method CopyInto(result: array<Byte>, offset: nat, items: Bytes) returns (ok: bool)
    requires offset <= result.Length
    modifies result
    ensures Overwrite(old(result[..]), offset, items).Some? <==> ok
    ensures ok ==> Overwrite(old(result[..]), offset, items) == Some(result[..])
  {
    for i := 0 to |items|
      invariant offset + i <= result.Length
      invariant forall p :: 0 <= p < result.Length ==>
        result[p] == if offset <= p < offset + i then items[p - offset] else old(result[p])
    {
      if result.Length <= offset + i {
        return false;
      }
      result[offset + i] := items[i];
    }
    ok := true;
    assert result[..] == old(result[..])[..offset] + items + old(result[..])[offset + |items|..];
  }

  /** Over zero bytes, writing from an offset on fills a field. */
  lemma OverwriteZeros(done: Bytes, rest: nat, items: Bytes)
    requires |items| <= rest
    ensures Overwrite(done + Zeros(rest), |done|, items) == Some(done + items + Zeros(rest - |items|))
  {
    var buffer := done + Zeros(rest);
    assert buffer[..|done|] == done;
    assert buffer[|done| + |items|..] == Zeros(rest - |items|);
  }

  lemma ZerosSplit(m: nat, n: nat)
    ensures Zeros(m + n) == Zeros(m) + Zeros(n)
  {
  }

  lemma SlotFills(done: Bytes, rest: nat, item: AddressSequence)
    requires |item.address| <= ADDRESS_LENGTH && Slot(1) <= rest
    ensures WriteSlot(done + Zeros(rest), |done|, item) ==
            Some(done + (Field(item.address, ADDRESS_LENGTH) + [item.sequence]) + Zeros(rest - Slot(1)))
  {
    OverwriteZeros(done, rest, item.address);
    ZerosSplit(ADDRESS_LENGTH - |item.address|, rest - ADDRESS_LENGTH);
    var s := done + item.address + Zeros(rest - |item.address|);
    assert s == done + Field(item.address, ADDRESS_LENGTH) + Zeros(rest - ADDRESS_LENGTH);
    ZerosSplit(1, rest - Slot(1));
    assert Zeros(rest - ADDRESS_LENGTH)[0 := item.sequence] == [item.sequence] + Zeros(rest - Slot(1));
    assert s[|done| + ADDRESS_LENGTH := item.sequence] ==
           done + Field(item.address, ADDRESS_LENGTH) + Zeros(rest - ADDRESS_LENGTH)[0 := item.sequence];
    assert done + Field(item.address, ADDRESS_LENGTH) + ([item.sequence] + Zeros(rest - Slot(1))) ==
           done + (Field(item.address, ADDRESS_LENGTH) + [item.sequence]) + Zeros(rest - Slot(1));
  }

  lemma {:induction false} SlotsFill(done: Bytes, addresses: seq<AddressSequence>, rest: nat)
    requires |done| == 2 * TIMESTAMP_LENGTH && Slot(|addresses|) <= rest
    requires forall i :: 0 <= i < |addresses| ==> |addresses[i].address| <= ADDRESS_LENGTH
    ensures WriteSlots(done + Zeros(rest), addresses) ==
            Some(done + AddressFields(addresses) + Zeros(rest - Slot(|addresses|)))
  {
    hide WriteSlot, Field, Zeros;
    if addresses == [] {
      assert done + AddressFields([]) == done;
    } else {
      var n := |addresses| - 1;
      var front := AddressFields(addresses[..n]);
      SlotsFill(done, addresses[..n], rest);
      SlotFills(done + front, rest - Slot(n), addresses[n]);
      JoinSlot(done, front, Field(addresses[n].address, ADDRESS_LENGTH) + [addresses[n].sequence]);
    }
  }

  lemma JoinSlot(done: Bytes, front: Bytes, slot: Bytes)
    ensures done + front + slot == done + (front + slot)
  {
  }

  /** Within their widths, the fields lie side by side. */
  lemma WrittenFits(b: BlockIndex)
    requires BlockFits(b)
    ensures Written(b) == Some(BlockValue(b))
  {
    hide MarshallTime;
    var createdAt, time, rest := MarshallTime(b.createdAt), MarshallTime(b.time), Slot(|b.addresses|);
    OverwriteZeros([], 2 * TIMESTAMP_LENGTH + rest, createdAt);
    assert [] + Zeros(2 * TIMESTAMP_LENGTH + rest) == Zeros(2 * TIMESTAMP_LENGTH + rest);
    assert [] + createdAt == createdAt;
    ZerosSplit(TIMESTAMP_LENGTH - |createdAt|, TIMESTAMP_LENGTH + rest);
    var first := Field(createdAt, TIMESTAMP_LENGTH);
    assert createdAt + Zeros(2 * TIMESTAMP_LENGTH + rest - |createdAt|) == first + Zeros(TIMESTAMP_LENGTH + rest);
    OverwriteZeros(first, TIMESTAMP_LENGTH + rest, time);
    ZerosSplit(TIMESTAMP_LENGTH - |time|, rest);
    var second := Field(time, TIMESTAMP_LENGTH);
    assert first + time + Zeros(TIMESTAMP_LENGTH + rest - |time|) == first + second + Zeros(rest);
    SlotsFill(first + second, b.addresses, rest);
    assert first + second + AddressFields(b.addresses) + Zeros(0) == BlockValue(b);
  }

  function DecodedAddress(addrValue: Bytes, i: nat): AddressSequence
    requires Slot(i + 1) <= |addrValue|
  {
    AddressSequence(addrValue[Slot(i)..Slot(i) + ADDRESS_LENGTH], addrValue[Slot(i) + ADDRESS_LENGTH])
  }

  function DecodedAddresses(addrValue: Bytes): seq<AddressSequence> {
    seq(|addrValue| / 21, i requires 0 <= i < |addrValue| / 21 => DecodedAddress(addrValue, i))
  }

  /** What UnmarshallBlockValue returns; the block number is not in the value and stays empty. */
  function DecodedBlock(value: Bytes): BlockIndex
    requires |value| >= 2 * TIMESTAMP_LENGTH
  {
    BlockIndex([], DecodedAddresses(value[2 * TIMESTAMP_LENGTH..]),
               UnmarshallTimeToInt(value[TIMESTAMP_LENGTH..2 * TIMESTAMP_LENGTH]),
               UnmarshallTimeToInt(value[..TIMESTAMP_LENGTH]))
  }

  method UnmarshallBlockValue(value: Bytes) returns (b: BlockIndex)
    requires |value| >= 2 * TIMESTAMP_LENGTH
    ensures b == DecodedBlock(value)
  {
    var addrResult := [];
    var createdAt := UnmarshallTimeToInt(value[..TIMESTAMP_LENGTH]);
    var blockTime := UnmarshallTimeToInt(value[TIMESTAMP_LENGTH..2 * TIMESTAMP_LENGTH]);
    var numAddress := (|value| - 2 * TIMESTAMP_LENGTH) / Slot(1);
    var addrValue := value[2 * TIMESTAMP_LENGTH..];
    for i := 0 to numAddress
      invariant addrResult == DecodedAddresses(addrValue)[..i]
    {
      var address := addrValue[Slot(i)..Slot(i + 1) - 1];
      var sequence := addrValue[Slot(i + 1) - 1];
      addrResult := addrResult + [AddressSequence(address, sequence)];
    }
    b := BlockIndex([], addrResult, blockTime, createdAt);
  }

  lemma {:induction false} AddressFieldAt(addresses: seq<AddressSequence>, i: nat)
    requires forall k :: 0 <= k < |addresses| ==> |addresses[k].address| == ADDRESS_LENGTH
    requires i < |addresses|
    ensures DecodedAddress(AddressFields(addresses), i) == addresses[i]
  {
    var n := |addresses| - 1;
    var s, front := AddressFields(addresses), AddressFields(addresses[..n]);
    if i < n {
      AddressFieldAt(addresses[..n], i);
      assert s[..|front|] == front;
      assert s[Slot(i)..Slot(i) + ADDRESS_LENGTH] == front[Slot(i)..Slot(i) + ADDRESS_LENGTH];
    } else {
      assert s[Slot(n)..Slot(n) + ADDRESS_LENGTH] == addresses[n].address;
    }
  }

  lemma BlockValueParts(b: BlockIndex)
    requires BlockFits(b)
    ensures BlockValue(b)[..TIMESTAMP_LENGTH] == Field(MarshallTime(b.createdAt), TIMESTAMP_LENGTH)
    ensures BlockValue(b)[TIMESTAMP_LENGTH..2 * TIMESTAMP_LENGTH] == Field(MarshallTime(b.time), TIMESTAMP_LENGTH)
    ensures BlockValue(b)[2 * TIMESTAMP_LENGTH..] == AddressFields(b.addresses)
    ensures TimeFits(b.createdAt) ==> DecodedBlock(BlockValue(b)).createdAt == b.createdAt
    ensures TimeFits(b.time) ==> DecodedBlock(BlockValue(b)).time == b.time
  {
    if TimeFits(b.createdAt) {
      FieldRoundTrip(b.createdAt);
    }
    if TimeFits(b.time) {
      FieldRoundTrip(b.time);
    }
  }

  /** Where the fields of a block record lie in its value. */
  lemma BlockLayout(b: BlockIndex, i: nat)
    requires TimeFits(b.createdAt) && TimeFits(b.time)
    requires forall k :: 0 <= k < |b.addresses| ==> |b.addresses[k].address| == ADDRESS_LENGTH
    ensures BlockFits(b) && |BlockValue(b)| == 8 + 21 * |b.addresses|
    ensures BlockValue(b)[..4] == BigBytes(b.createdAt) && BlockValue(b)[4..8] == BigBytes(b.time)
    ensures i < |b.addresses| ==>
      && BlockValue(b)[8 + 21 * i..28 + 21 * i] == b.addresses[i].address
      && BlockValue(b)[28 + 21 * i] == b.addresses[i].sequence
  {
    hide AddressFields, MarshallTime, BigBytes, DecodedBlock, BlockValue;
    EncodersAgree(b.createdAt);
    EncodersAgree(b.time);
    BlockValueParts(b);
    WholeField(MarshallTime(b.createdAt));
    WholeField(MarshallTime(b.time));
    if i < |b.addresses| {
      AddressFieldAt(b.addresses, i);
      SlotInValue(BlockValue(b), AddressFields(b.addresses), i);
    }
  }

  lemma WholeField(s: Bytes)
    requires |s| == TIMESTAMP_LENGTH
    ensures Field(s, TIMESTAMP_LENGTH) == s
  {
  }

  lemma SlotInValue(value: Bytes, fields: Bytes, i: nat)
    requires |value| >= 8 && fields == value[8..] && Slot(i + 1) <= |fields|
    ensures value[8 + 21 * i..28 + 21 * i] == DecodedAddress(fields, i).address
    ensures value[28 + 21 * i] == DecodedAddress(fields, i).sequence
  {
  }

  lemma FieldRoundTrip(t: int)
    requires TimeFits(t) && |MarshallTime(t)| <= TIMESTAMP_LENGTH
    ensures UnmarshallTimeToInt(Field(MarshallTime(t), TIMESTAMP_LENGTH)) == t
  {
    EncodersAgree(t);
    BigBytesRoundTrip(t);
    assert Field(MarshallTime(t), TIMESTAMP_LENGTH) == MarshallTime(t);
  }

  /** Decoding a marshalled block restores both times and the address list in its order. */
  lemma BlockRoundTrip(b: BlockIndex)
    requires TimeFits(b.createdAt) && TimeFits(b.time)
    requires forall i :: 0 <= i < |b.addresses| ==> |b.addresses[i].address| == ADDRESS_LENGTH
    ensures BlockFits(b)
    ensures |BlockValue(b)| == 8 + 21 * |b.addresses|
    ensures DecodedBlock(BlockValue(b)) == b.(blockNumber := [])
  {
    EncodersAgree(b.createdAt);
    EncodersAgree(b.time);
    BlockValueParts(b);
    forall i | 0 <= i < |b.addresses|
      ensures DecodedAddress(AddressFields(b.addresses), i) == b.addresses[i]
    {
      AddressFieldAt(b.addresses, i);
    }
    assert DecodedAddresses(AddressFields(b.addresses)) == b.addresses;
  }

  /**
    A shorter time is written left aligned, so it is read back multiplied by a power of 256:
    among the times of at most four bytes only 0 and the four-byte ones survive.
   */
  lemma BlockTimeSurvives(b: BlockIndex)
    requires BlockFits(b) && 0 <= b.time < 10_000_000_000
    ensures DecodedBlock(BlockValue(b)).time == b.time <==> b.time == 0 || TimeFits(b.time)
  {
    var s := MarshallTime(b.time);
    EncodersAgree(b.time);
    BigBytesRoundTrip(b.time);
    BigBytesWidth(b.time);
    assert BlockValue(b)[TIMESTAMP_LENGTH..2 * TIMESTAMP_LENGTH] == Field(s, TIMESTAMP_LENGTH);
    FieldValue(s, TIMESTAMP_LENGTH);
    if b.time > 0 && |s| < 4 {
      assert FromBytes(Field(s, 4)) >= 256 * b.time;
    }
  }

  lemma {:induction false} FieldValue(s: Bytes, n: nat)
    requires |s| <= n
    ensures FromBytes(Field(s, n)) >= if |s| == n then FromBytes(s) else 256 * FromBytes(s)
    ensures FromBytes(s) == 0 ==> FromBytes(Field(s, n)) == 0
    ensures |s| == n ==> Field(s, n) == s
  {
    if |s| < n {
      FieldValue(s, n - 1);
      assert Field(s, n)[..n - 1] == Field(s, n - 1);
    } else {
      assert Field(s, n) == s;
    }
  }

  // ----- Batch database -----

  function WidPad(blockNumber: Bytes): Bytes {
    if |blockNumber| < BLOCK_NUMBER_LENGTH then
      seq(BLOCK_NUMBER_LENGTH - |blockNumber|, _ => ZERO) + blockNumber
    else
      []
  }

  method BlockNumberWidPad(blockNumber: Bytes) returns (buf: Bytes)
    ensures buf == WidPad(blockNumber)
  {
    buf := [];
    if |blockNumber| < BLOCK_NUMBER_LENGTH {
      var count := 10 - |blockNumber|;
      for i := 0 to count
        invariant buf == seq(i, _ => ZERO)
      {
        buf := buf + [ZERO];
      }
      buf := buf + blockNumber;
    }
  }

  function MarshallBatchKeyFrom(from: nat): Bytes {
    WidPad(Decimal(from))
  }

  function MarshallBatchKey(from: nat, to: nat, step: Byte, createdAt: nat): Bytes {
    WidPad(Decimal(from)) + WidPad(Decimal(to)) + [step] + Decimal(createdAt)
  }

  function MarshallBatchValue(updatedAt: int, current: nat): Bytes {
    MarshallTime(updatedAt) + BigBytes(current)
  }

  datatype BatchKey = BatchKey(from: nat, to: nat, step: Byte, createdAt: nat)

  predicate IsBatchKey(key: Bytes) {
    |key| >= 21 && IsDigits(key[..10]) && IsDigits(key[10..20]) && IsDigits(key[21..])
  }

  function UnmarshallBatchKey(key: Bytes): BatchKey
    requires IsBatchKey(key)
  {
    BatchKey(ParseDecimal(key[..10]), ParseDecimal(key[10..20]), key[20], ParseDecimal(key[21..]))
  }

  /** UnmarshallBatchValue: the update time and the current block. */
  function UnmarshallBatchValue(value: Bytes): (nat, nat)
    requires |value| >= TIMESTAMP_LENGTH
  {
    (FromBytes(value[..TIMESTAMP_LENGTH]), FromBytes(value[TIMESTAMP_LENGTH..]))
  }

  lemma WidPadRoundTrip(n: nat)
    requires n < 1_000_000_000
    ensures |WidPad(Decimal(n))| == 10 && IsDigits(WidPad(Decimal(n)))
    ensures ParseDecimal(WidPad(Decimal(n))) == n
  {
    NineDigits(n);
    DecimalRoundTrip(n);
    ParseLeadingZeros(seq(BLOCK_NUMBER_LENGTH - |Decimal(n)|, _ => ZERO), Decimal(n));
  }

  lemma NineDigits(n: nat)
    ensures |Decimal(n)| < BLOCK_NUMBER_LENGTH <==> n < 1_000_000_000
  {
    DecimalWidth(n, 9);
    assert Pow10(9) == 1_000_000_000 by {
      assert Pow10(3) == 1_000;
      assert Pow10(6) == 1_000_000;
    }
  }

  /**
    Batch keys decode to what was encoded exactly while both block numbers have at most nine
    digits: a longer one is dropped by the padding.
   */
  lemma BatchKeyRoundTrip(k: BatchKey)
    ensures var key := MarshallBatchKey(k.from, k.to, k.step, k.createdAt);
      (IsBatchKey(key) && UnmarshallBatchKey(key) == k) <==> (k.from < 1_000_000_000 && k.to < 1_000_000_000)
  {
    var key := MarshallBatchKey(k.from, k.to, k.step, k.createdAt);
    if k.from < 1_000_000_000 && k.to < 1_000_000_000 {
      WidPadRoundTrip(k.from);
      WidPadRoundTrip(k.to);
      DecimalRoundTrip(k.createdAt);
      assert key[..10] == WidPad(Decimal(k.from));
      assert key[10..20] == WidPad(Decimal(k.to));
      assert key[21..] == Decimal(k.createdAt);
    } else if IsBatchKey(key) && UnmarshallBatchKey(key) == k {
      NineDigits(k.from);
      NineDigits(k.to);
      assert |key| - 21 < |Decimal(k.createdAt)|;
      ShorterTextDiffers(key[21..], k.createdAt);
    }
  }

  lemma {:induction false} ParseBound(s: Bytes)
    requires IsDigits(s)
    ensures ParseDecimal(s) < Pow10(|s|)
  {
    if s != [] {
      ParseBound(s[..|s| - 1]);
    }
  }

  lemma ShorterTextDiffers(s: Bytes, n: nat)
    requires IsDigits(s) && |s| < |Decimal(n)| && n > 0
    ensures ParseDecimal(s) != n
  {
    ParseBound(s);
    if s != [] {
      DecimalWidth(n, |s|);
    }
  }

  lemma BatchValueRoundTrip(updatedAt: int, current: nat)
    requires TimeFits(updatedAt)
    ensures var value := MarshallBatchValue(updatedAt, current);
      |value| >= TIMESTAMP_LENGTH && UnmarshallBatchValue(value) == (updatedAt, current)
  {
    EncodersAgree(updatedAt);
    BigBytesRoundTrip(updatedAt);
    BigBytesRoundTrip(current);
    var value := MarshallBatchValue(updatedAt, current);
    assert value[..TIMESTAMP_LENGTH] == MarshallTime(updatedAt);
    assert value[TIMESTAMP_LENGTH..] == BigBytes(current);
  }
}

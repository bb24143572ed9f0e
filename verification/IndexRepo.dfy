/** repository/keyvalue/index_repo.go: storing blocks, undoing reorganised ones, and the queries. */
module IndexRepo {
  import opened ByteStrings
  import opened Datetime
  import opened Types
  import opened ByteMarshaller
  import opened OrderedStore
  import opened Dao

  // ----- What Store does to the two databases -----

  datatype Dbs = Dbs(address: Db, block: Db)

  function Records(entries: seq<AddressIndex>): (records: seq<KeyValue>)
    ensures |records| == |entries|
  {
    if entries == [] then []
    else
      var last := entries[|entries| - 1];
      Records(entries[..|entries| - 1]) + [KeyValue(MarshallAddressKey(last), MarshallAddressValue(last))]
  }

  lemma {:induction false} RecordAt(entries: seq<AddressIndex>, i: nat)
    requires i < |entries|
    ensures Records(entries)[i] == KeyValue(MarshallAddressKey(entries[i]), MarshallAddressValue(entries[i]))
  {
    if i < |entries| - 1 {
      RecordAt(entries[..|entries| - 1], i);
    }
  }

  /** The address keys that a block record accounts for. */
  function ReorgKeys(blockTime: int, addresses: seq<AddressSequence>): set<Bytes> {
    set i: nat, j: Byte | 0 <= i < |addresses| && 1 <= j <= addresses[i].sequence ::
      MarshallAddressKeyStr(addresses[i].address, blockTime, j)
  }

  /** The loop variable of HandleReorg after n rounds, a uint8 that starts at 1. */
  function ReorgCounter(n: nat): Byte {
    (1 + n) % 256
  }

  /** The deletion loop over an address comes to an end. */
  ghost predicate LoopEnds(sequence: Byte) {
    exists n: nat :: ReorgCounter(n) > sequence
  }

  ghost predicate LoopsEnd(addresses: seq<AddressSequence>) {
    forall i :: 0 <= i < |addresses| ==> LoopEnds(addresses[i].sequence)
  }

  /** It does exactly for sequences up to 254. */
  lemma ReorgLoopEnds(sequence: Byte)
    ensures LoopEnds(sequence) <==> sequence <= 254
  {
    if sequence <= 254 {
      assert ReorgCounter(sequence) > sequence;
    }
  }

  predicate Undoable(value: Bytes) {
    && |value| >= 2 * TIMESTAMP_LENGTH
    && forall i :: 0 <= i < |DecodedBlock(value).addresses| ==> DecodedBlock(value).addresses[i].sequence <= 254
  }

  predicate CanStore(block: Db, blockIndex: BlockIndex) {
    && BlockFits(blockIndex)
    && (blockIndex.blockNumber in block ==> Undoable(block[blockIndex.blockNumber]))
  }

  function KeysToUndo(block: Db, blockNumber: Bytes): set<Bytes>
    requires blockNumber in block ==> Undoable(block[blockNumber])
  {
    if blockNumber in block then
      var stale := DecodedBlock(block[blockNumber]);
      ReorgKeys(stale.time, stale.addresses)
    else
      {}
  }

  function Undo(dbs: Dbs, blockIndex: BlockIndex): Dbs
    requires blockIndex.blockNumber in dbs.block ==> Undoable(dbs.block[blockIndex.blockNumber])
  {
    dbs.(address := dbs.address - KeysToUndo(dbs.block, blockIndex.blockNumber))
  }

  function PutEntries(dbs: Dbs, entries: seq<AddressIndex>): Dbs {
    dbs.(address := PutAll(dbs.address, Records(entries)))
  }

  function PutBlock(dbs: Dbs, blockIndex: BlockIndex): Dbs
    requires BlockFits(blockIndex)
  {
    dbs.(block := dbs.block[MarshallBlockKey(blockIndex.blockNumber) := BlockValue(blockIndex)])
  }

  /** The databases after the first k of the three writes of a realtime store. */
  function CutOff(dbs: Dbs, entries: seq<AddressIndex>, blockIndex: BlockIndex, k: nat): Dbs
    requires CanStore(dbs.block, blockIndex)
  {
    var undone := Undo(dbs, blockIndex);
    if k == 0 then dbs
    else if k == 1 then undone
    else if k == 2 then PutEntries(undone, entries)
    else PutBlock(PutEntries(undone, entries), blockIndex)
  }

  function Stored(dbs: Dbs, entries: seq<AddressIndex>, blockIndex: BlockIndex, isBatch: bool): Dbs
    requires !isBatch ==> CanStore(dbs.block, blockIndex)
  {
    if isBatch then PutEntries(dbs, entries) else CutOff(dbs, entries, blockIndex, 3)
  }

  /** The states a store goes through; the first write is left out when there is nothing to undo. */
  function Trace(dbs: Dbs, entries: seq<AddressIndex>, blockIndex: BlockIndex, isBatch: bool): seq<Dbs>
    requires !isBatch ==> CanStore(dbs.block, blockIndex)
  {
    if isBatch then [PutEntries(dbs, entries)]
    else
      (if HasAddresses(dbs.block, blockIndex.blockNumber) then [CutOff(dbs, entries, blockIndex, 1)] else [])
      + [CutOff(dbs, entries, blockIndex, 2)] + [CutOff(dbs, entries, blockIndex, 3)]
  }

  lemma AppendTrace(past: seq<Dbs>, dbs: Dbs, entries: seq<AddressIndex>, blockIndex: BlockIndex)
    requires CanStore(dbs.block, blockIndex)
    ensures past + Trace(dbs, entries, blockIndex, false) ==
            past
            + (if HasAddresses(dbs.block, blockIndex.blockNumber) then [CutOff(dbs, entries, blockIndex, 1)] else [])
            + [CutOff(dbs, entries, blockIndex, 2)] + [CutOff(dbs, entries, blockIndex, 3)]
  {
    hide CutOff, HasAddresses, BlockFits, Undoable;
    var undone := if HasAddresses(dbs.block, blockIndex.blockNumber) then [CutOff(dbs, entries, blockIndex, 1)] else [];
    JoinFour(past, undone, [CutOff(dbs, entries, blockIndex, 2)], [CutOff(dbs, entries, blockIndex, 3)]);
  }

  lemma JoinFour<T>(past: seq<T>, a: seq<T>, b: seq<T>, c: seq<T>)
    ensures past + (a + b + c) == past + a + b + c
  {
  }

  predicate HasAddresses(block: Db, blockNumber: Bytes)
    requires blockNumber in block ==> Undoable(block[blockNumber])
  {
    blockNumber in block && DecodedBlock(block[blockNumber]).addresses != []
  }

  // ----- Which records a query selects -----

  /** A Go byte slice used as the limit of a range: the nil slice is no limit. */
  function AsLimit(limit: Bytes): Option<Bytes> {
    if limit == [] then None else Some(limit)
  }

  /**
    The key range of GetTransactionByAddress and GetTotalTransaction; no bound is the zero time. A
    bound is written in whole Unix seconds, the upper one after adding a second.
   */
  function QueryRange(address: Bytes, fromTime: Option<real>, toTime: Option<real>): Range {
    var all := BytesPrefix(address);
    Range(if fromTime.Some? then MarshallAddressKeyPrefix3(address, fromTime.value.Floor) else all.start,
          if toTime.Some? then AsLimit(MarshallAddressKeyPrefix3(address, (toTime.value + 1.0).Floor)) else all.limit)
  }

  /** The selected records in key order. The empty address selects nothing without times. */
  function Matches(db: Db, address: Bytes, fromTime: Option<real>, toTime: Option<real>): seq<KeyValue> {
    if address == [] && fromTime.None? && toTime.None? then []
    else Scan(db, QueryRange(address, fromTime, toTime))
  }

  /** Without an address and without times, nothing is selected. */
  lemma NoAddress(db: Db)
    ensures Matches(db, [], None, None) == []
  {
  }

  predicate AddressDbOk(db: Db) {
    forall k :: k in db ==> |k| >= ADDRESS_LENGTH + TIMESTAMP_LENGTH && |db[k]| >= HASH_LENGTH + ADDRESS_LENGTH
  }

  predicate Decodable(s: seq<KeyValue>) {
    forall i :: 0 <= i < |s| ==>
      |s[i].key| >= ADDRESS_LENGTH + TIMESTAMP_LENGTH && |s[i].value| >= HASH_LENGTH + ADDRESS_LENGTH
  }

  function DecodeAll(s: seq<KeyValue>): (r: seq<AddressIndex>)
    requires Decodable(s)
    ensures |r| == |s|
    ensures forall i :: 0 <= i < |s| ==> r[i] == KeyValueToAddressIndex(s[i])
  {
    seq(|s|, i requires 0 <= i < |s| => KeyValueToAddressIndex(s[i]))
  }

  // ----- The block database -----

  predicate BlockDbOk(db: Db) {
    forall k :: k in db ==> k != [] && IsDigits(k) && |db[k]| >= 2 * TIMESTAMP_LENGTH
  }

  function KeyValueToBlockIndex(kv: KeyValue): BlockIndex
    requires IsDigits(kv.key) && |kv.value| >= 2 * TIMESTAMP_LENGTH
  {
    DecodedBlock(kv.value).(blockNumber := Decimal(UnmarshallBlockKey(kv.key)))
  }

  /** A stored block record is answered as it was: its number, both times, and the address list in order. */
  lemma BlockRecordRoundTrip(b: BlockIndex, n: nat)
    requires b.blockNumber == Decimal(n) && TimeFits(b.createdAt) && TimeFits(b.time)
    requires forall i :: 0 <= i < |b.addresses| ==> |b.addresses[i].address| == ADDRESS_LENGTH
    ensures BlockFits(b) && IsDigits(MarshallBlockKey(b.blockNumber)) && |BlockValue(b)| >= 2 * TIMESTAMP_LENGTH
    ensures KeyValueToBlockIndex(KeyValue(MarshallBlockKey(b.blockNumber), BlockValue(b))) == b
  {
    hide DecodedBlock, BlockValue, BlockFits;
    BlockRoundTrip(b);
    NumberRoundTrip(n);
  }

  lemma NumberRoundTrip(n: nat)
    ensures MarshallBlockKey(Decimal(n)) == Decimal(n) && UnmarshallBlockKey(Decimal(n)) == n
  {
    DecimalRoundTrip(n);
  }

  predicate DecodableBlocks(s: seq<KeyValue>) {
    forall i :: 0 <= i < |s| ==> IsDigits(s[i].key) && |s[i].value| >= 2 * TIMESTAMP_LENGTH
  }

  function DecodeBlocks(s: seq<KeyValue>): (r: seq<BlockIndex>)
    requires DecodableBlocks(s)
    ensures |r| == |s|
    ensures forall i :: 0 <= i < |s| ==> r[i] == KeyValueToBlockIndex(s[i])
  {
    seq(|s|, i requires 0 <= i < |s| => KeyValueToBlockIndex(s[i]))
  }

  function CreatedAt(value: Bytes): nat
    requires |value| >= 2 * TIMESTAMP_LENGTH
  {
    DecodedBlock(value).createdAt
  }

  ghost predicate IsFirstKey(k: Bytes, db: Db) {
    k in db && forall x :: x in db ==> x == k || Less(k, x)
  }

  ghost predicate IsLastKey(k: Bytes, db: Db) {
    k in db && forall x :: x in db ==> x == k || Less(x, k)
  }

  lemma FirstAndLastKeyExist(db: Db)
    requires db != map[]
    ensures exists k :: IsFirstKey(k, db)
    ensures exists k :: IsLastKey(k, db)
  {
    ScanEnds(db);
    var s := Scan(db, EVERYTHING);
    assert IsFirstKey(s[0].key, db);
    assert IsLastKey(s[|s| - 1].key, db);
  }

  ghost function FirstKey(db: Db): (k: Bytes)
    requires db != map[]
    ensures IsFirstKey(k, db)
  {
    FirstAndLastKeyExist(db);
    var k :| IsFirstKey(k, db);
    k
  }

  ghost function LastKey(db: Db): (k: Bytes)
    requires db != map[]
    ensures IsLastKey(k, db)
  {
    FirstAndLastKeyExist(db);
    var k :| IsLastKey(k, db);
    k
  }

  lemma FirstKeyUnique(k: Bytes, l: Bytes, db: Db)
    requires IsFirstKey(k, db) && IsFirstKey(l, db)
    ensures k == l
  {
    LessTotal(k, l);
  }

  lemma LastKeyUnique(k: Bytes, l: Bytes, db: Db)
    requires IsLastKey(k, db) && IsLastKey(l, db)
    ensures k == l
  {
    LessTotal(k, l);
  }

  function BlockAt(db: Db, k: Bytes): BlockIndex
    requires BlockDbOk(db) && k in db
  {
    KeyValueToBlockIndex(KeyValue(k, db[k]))
  }

  /** Every record up to k, in key order, was created before the given time. */
  ghost predicate OldUpTo(k: Bytes, db: Db, untilTime: int)
    requires BlockDbOk(db)
  {
    forall x :: x in db && !Less(k, x) ==> CreatedAt(db[x]) < untilTime
  }

  /** The records before the first one, in key order, that was created at the given time or later. */
  ghost function OldRun(db: Db, untilTime: int): set<Bytes>
    requires BlockDbOk(db)
  {
    set k | k in db && OldUpTo(k, db, untilTime)
  }

  // ----- The repository -----

  class KVIndexRepo {
    const addressDAO: LevelDbDAO
    const blockDAO: LevelDbDAO
    /** The databases after each write so far: what a crash may leave behind. */
    ghost var history: seq<Dbs>

    ghost predicate Valid() {
      addressDAO != blockDAO
    }

    function State(): Dbs
      reads addressDAO, blockDAO
    {
      Dbs(addressDAO.db, blockDAO.db)
    }

    constructor (addressDAO: LevelDbDAO, blockDAO: LevelDbDAO)
      requires addressDAO != blockDAO
      ensures Valid() && this.addressDAO == addressDAO && this.blockDAO == blockDAO && history == []
    {
      this.addressDAO, this.blockDAO := addressDAO, blockDAO;
      history := [];
    }

    /**
      A batch store only puts the entries. A realtime store first deletes what the old record of
      the block accounts for, then puts the entries, then the new record: three writes, in this order.
     */
    method Store(addressIndex: seq<AddressIndex>, blockIndex: BlockIndex, isBatch: bool)
      requires Valid()
      requires !isBatch ==> CanStore(blockDAO.db, blockIndex)
      modifies this, addressDAO, blockDAO
      ensures State() == Stored(old(State()), addressIndex, blockIndex, isBatch)
      ensures history == old(history) + Trace(old(State()), addressIndex, blockIndex, isBatch)
    {
      ghost var before := State();
      if !isBatch {
        UndoOldVersion(blockIndex);
        assert State() == CutOff(before, addressIndex, blockIndex, 1);
      }
      SaveAddressIndex(addressIndex);
      assert !isBatch ==> State() == CutOff(before, addressIndex, blockIndex, 2);
      if !isBatch {
        SaveBlockIndex(blockIndex);
        assert State() == CutOff(before, addressIndex, blockIndex, 3);
        AppendTrace(old(history), before, addressIndex, blockIndex);
      }
    }

    /** The first part of a realtime store: look the block number up and undo what its record describes. */
    method UndoOldVersion(blockIndex: BlockIndex)
      requires Valid() && CanStore(blockDAO.db, blockIndex)
      modifies this, addressDAO
      ensures State() == Undo(old(State()), blockIndex)
      ensures history == old(history) + if HasAddresses(blockDAO.db, blockIndex.blockNumber) then [State()] else []
    {
      var oldBlock := blockDAO.FindByKey(blockIndex.blockNumber);
      if oldBlock.Some? {
        var oldIndex := UnmarshallBlockValue(oldBlock.value.value);
        if |oldIndex.addresses| > 0 {
          HandleReorg(oldIndex.time, oldIndex.addresses);
        } else {
          assert ReorgKeys(oldIndex.time, oldIndex.addresses) == {};
        }
      }
    }

    method SaveAddressIndex(addressIndex: seq<AddressIndex>)
      requires Valid()
      modifies this, addressDAO
      ensures State() == PutEntries(old(State()), addressIndex)
      ensures history == old(history) + [State()]
    {
      var keyValues := [];
      for i := 0 to |addressIndex|
        invariant keyValues == Records(addressIndex[..i])
      {
        assert addressIndex[..i + 1][..i] == addressIndex[..i];
        var key := MarshallAddressKey(addressIndex[i]);
        var value := MarshallAddressValue(addressIndex[i]);
        keyValues := keyValues + [KeyValue(key, value)];
      }
      assert addressIndex[..|addressIndex|] == addressIndex;
      addressDAO.BatchPut(keyValues);
      history := history + [State()];
    }

    method SaveBlockIndex(blockIndex: BlockIndex)
      requires Valid() && BlockFits(blockIndex)
      modifies this, blockDAO
      ensures State() == PutBlock(old(State()), blockIndex)
      ensures history == old(history) + [State()]
    {
      var key := MarshallBlockKey(blockIndex.blockNumber);
      var value := MarshallBlockValue(blockIndex);
      blockDAO.Put(KeyValue(key, value.value));
      history := history + [State()];
    }

    /** Go's uint8 counter would wrap at 255 and never end; see ReorgLoopEnds. */
    method HandleReorg(blockTime: int, reorgAddresses: seq<AddressSequence>)
      requires Valid()
      requires forall i :: 0 <= i < |reorgAddresses| ==> reorgAddresses[i].sequence <= 254
      modifies this, addressDAO
      ensures State() == old(State()).(address := old(addressDAO.db) - ReorgKeys(blockTime, reorgAddresses))
      ensures history == old(history) + [State()]
    {
      var keys := CollectReorgKeys(blockTime, reorgAddresses);
      addressDAO.BatchDelete(keys);
      assert (set k | k in keys) == ReorgKeys(blockTime, reorgAddresses);
      history := history + [State()];
    }

    /** The nested loops of HandleReorg. */
    static method CollectReorgKeys(blockTime: int, reorgAddresses: seq<AddressSequence>) returns (keys: seq<Bytes>)
      requires forall i :: 0 <= i < |reorgAddresses| ==> reorgAddresses[i].sequence <= 254
      ensures forall k :: k in keys <==> k in ReorgKeys(blockTime, reorgAddresses)
    {
      hide ReorgKeys, CountedKeys, MarshallAddressKeyStr;
      NothingCounted(blockTime, reorgAddresses);
      keys := [];
      for n := 0 to |reorgAddresses|
        invariant forall k :: k in keys <==> k in ReorgKeys(blockTime, reorgAddresses[..n])
      {
        var address := reorgAddresses[n];
        NoneCounted(address.address, blockTime);
        var i: Byte := 1;
        while i <= address.sequence
          invariant 1 <= i <= address.sequence as int + 1
          invariant forall k :: k in keys <==>
            k in ReorgKeys(blockTime, reorgAddresses[..n]) || k in CountedKeys(address.address, blockTime, i as int - 1)
          decreases address.sequence as int + 1 - i
        {
          keys := keys + [MarshallAddressKeyStr(address.address, blockTime, i)];
          CountedKeysStep(address.address, blockTime, i);
          i := (i as int + 1) % 256;
        }
        ReorgKeysStep(blockTime, reorgAddresses, n);
      }
      assert reorgAddresses[..|reorgAddresses|] == reorgAddresses;
    }

    method GetTotalTransaction(address: Bytes, fromTime: Option<real>, toTime: Option<real>) returns (total: nat)
      ensures total == |Matches(addressDAO.db, address, fromTime, toTime)|
    {
      var prefix := address;
      var hasFrom, hasTo := fromTime.Some?, toTime.Some?;
      if hasFrom || hasTo {
        var rg := MakeRange(address, fromTime, toTime);
        total := addressDAO.CountByRange(rg);
        return;
      }
      if |prefix| == 0 {
        return 0;
      }
      total := addressDAO.CountByKeyPrefix(prefix);
    }

    /** The range part shared by both queries; one second more makes the upper bound inclusive. */
    method MakeRange(address: Bytes, fromTime: Option<real>, toTime: Option<real>) returns (rg: Range)
      requires fromTime.Some? || toTime.Some?
      ensures rg == QueryRange(address, fromTime, toTime)
    {
      var allTimeRange := BytesPrefix(address);
      if fromTime.None? {
        rg := Range(allTimeRange.start, AsLimit(MarshallAddressKeyPrefix3(address, (toTime.value + 1.0).Floor)));
      } else if toTime.None? {
        rg := Range(MarshallAddressKeyPrefix3(address, fromTime.value.Floor), allTimeRange.limit);
      } else {
        rg := Range(MarshallAddressKeyPrefix3(address, fromTime.value.Floor),
                    AsLimit(MarshallAddressKeyPrefix3(address, (toTime.value + 1.0).Floor)));
      }
    }

    /** One page of the selected records, decoded: oldest first with times, newest first without. */
    method GetTransactionByAddress(address: Bytes, rows: int, start: int,
                                   fromTime: Option<real>, toTime: Option<real>)
      returns (total: nat, result: seq<AddressIndex>)
      requires AddressDbOk(addressDAO.db)
      ensures var matches := Matches(addressDAO.db, address, fromTime, toTime);
        && total == Total(|matches|)
        && var page := Page(Directed(matches, fromTime.Some? || toTime.Some?), rows, start);
           Decodable(page) && result == DecodeAll(page)
    {
      var hasFrom, hasTo := fromTime.Some?, toTime.Some?;
      var keyValues;
      if hasFrom || hasTo {
        var rg := MakeRange(address, fromTime, toTime);
        total, keyValues := addressDAO.FindByRange(rg, true, rows, start);
      } else if |address| == 0 {
        return 0, [];
      } else {
        total, keyValues := addressDAO.FindByKeyPrefix(address, false, rows, start);
      }
      PageMembers(addressDAO.db, QueryRange(address, fromTime, toTime), hasFrom || hasTo, rows, start);
      result := ConvertKeyValues(keyValues);
    }

    /** The closure convertKeyValuesToAddressIndexes. */
    static method ConvertKeyValues(keyValues: seq<KeyValue>) returns (result: seq<AddressIndex>)
      requires Decodable(keyValues)
      ensures result == DecodeAll(keyValues)
    {
      result := [];
      for i := 0 to |keyValues|
        invariant result == DecodeAll(keyValues)[..i]
      {
        result := result + [KeyValueToAddressIndex(keyValues[i])];
      }
    }

    method GetLastBlock() returns (last: Option<BlockIndex>)
      requires BlockDbOk(blockDAO.db)
      ensures last == if blockDAO.db == map[] then None else Some(BlockAt(blockDAO.db, LastKey(blockDAO.db)))
    {
      var lastBlocks := blockDAO.GetNLastRecords(1);
      ScanEnds(blockDAO.db);
      if |lastBlocks| <= 0 {
        return None;
      }
      LastKeyUnique(lastBlocks[0].key, LastKey(blockDAO.db), blockDAO.db);
      last := Some(KeyValueToBlockIndex(lastBlocks[0]));
    }

    method GetFirstBlock() returns (first: Option<BlockIndex>)
      requires BlockDbOk(blockDAO.db)
      ensures first == if blockDAO.db == map[] then None else Some(BlockAt(blockDAO.db, FirstKey(blockDAO.db)))
    {
      var firstBlocks := blockDAO.GetNFirstRecords(1);
      ScanEnds(blockDAO.db);
      if |firstBlocks| <= 0 {
        return None;
      }
      FirstKeyUnique(firstBlocks[0].key, FirstKey(blockDAO.db), blockDAO.db);
      first := Some(KeyValueToBlockIndex(firstBlocks[0]));
    }

    /** Deletes from the first record on as long as records are older than the given time. */
    method DeleteOldBlocks(untilTime: int) returns (total: nat)
      requires Valid() && BlockDbOk(blockDAO.db)
      modifies this, blockDAO
      ensures State() == old(State()).(block := old(blockDAO.db) - OldRun(old(blockDAO.db), untilTime))
      ensures total == |OldRun(old(blockDAO.db), untilTime)|
      ensures history == old(history) + [State()]
    {
      var pre := (kv: KeyValue) requires IsDigits(kv.key) && |kv.value| >= 2 * TIMESTAMP_LENGTH =>
        KeyValueToBlockIndex(kv).createdAt < untilTime;
      var kvsToDel := blockDAO.GetNFirstPredicate(pre);
      OldRunIsRun(blockDAO.db, untilTime, kvsToDel);
      var keys := CollectKeys(kvsToDel);
      blockDAO.BatchDelete(keys);
      total := |kvsToDel|;
      history := history + [State()];
    }

    static method CollectKeys(kvsToDel: seq<KeyValue>) returns (keys: seq<Bytes>)
      ensures keys == Keys(kvsToDel)
    {
      keys := [];
      for i := 0 to |kvsToDel|
        invariant keys == Keys(kvsToDel)[..i]
      {
        keys := keys + [kvsToDel[i].key];
      }
    }

    /** One block by its number text, or a page of all blocks in descending key order. */
    method GetBlocks(blockNumber: Bytes, rows: int, start: int) returns (total: nat, result: seq<BlockIndex>)
      requires BlockDbOk(blockDAO.db)
      ensures blockNumber != [] && blockNumber !in blockDAO.db ==> total == 0 && result == []
      ensures blockNumber != [] && blockNumber in blockDAO.db ==>
        total == 1 && result == [KeyValueToBlockIndex(KeyValue(blockNumber, blockDAO.db[blockNumber]))]
      ensures blockNumber == [] ==>
        var page := Page(Reverse(Scan(blockDAO.db, EVERYTHING)), rows, start);
        && total == Total(|Scan(blockDAO.db, EVERYTHING)|)
        && DecodableBlocks(page) && result == DecodeBlocks(page)
    {
      result := [];
      if |blockNumber| > 0 {
        var key := MarshallBlockKey(blockNumber);
        var keyValue := blockDAO.FindByKey(key);
        if keyValue.None? {
          return 0, [];
        }
        return 1, [KeyValueToBlockIndex(keyValue.value)];
      }
      var keyValues;
      total, keyValues := blockDAO.FindByKeyPrefix([], false, rows, start);
      PageMembers(blockDAO.db, EVERYTHING, false, rows, start);
      result := ConvertBlocks(keyValues);
    }

    /** The loop over makeBlockIndex. */
    static method ConvertBlocks(keyValues: seq<KeyValue>) returns (result: seq<BlockIndex>)
      requires DecodableBlocks(keyValues)
      ensures result == DecodeBlocks(keyValues)
    {
      result := [];
      for i := 0 to |keyValues|
        invariant result == DecodeBlocks(keyValues)[..i]
      {
        result := result + [KeyValueToBlockIndex(keyValues[i])];
      }
    }
  }

  // ----- Lemmas behind the methods -----

  function CountedKeys(address: Bytes, blockTime: int, n: int): set<Bytes>
    requires n <= 255
  {
    set j: Byte | 1 <= j <= n :: MarshallAddressKeyStr(address, blockTime, j)
  }

  lemma NothingCounted(blockTime: int, addresses: seq<AddressSequence>)
    ensures ReorgKeys(blockTime, addresses[..0]) == {}
  {
  }

  lemma NoneCounted(address: Bytes, blockTime: int)
    ensures CountedKeys(address, blockTime, 0) == {}
  {
  }

  lemma CountedKeysStep(address: Bytes, blockTime: int, i: Byte)
    requires 1 <= i
    ensures CountedKeys(address, blockTime, i) ==
            CountedKeys(address, blockTime, i as int - 1) + {MarshallAddressKeyStr(address, blockTime, i)}
  {
  }

  lemma ReorgKeysStep(blockTime: int, addresses: seq<AddressSequence>, n: nat)
    requires n < |addresses|
    ensures ReorgKeys(blockTime, addresses[..n + 1]) ==
            ReorgKeys(blockTime, addresses[..n]) + CountedKeys(addresses[n].address, blockTime, addresses[n].sequence)
  {
    hide MarshallAddressKeyStr;
    var longer, shorter := addresses[..n + 1], addresses[..n];
    forall k | k in ReorgKeys(blockTime, shorter)
      ensures k in ReorgKeys(blockTime, longer)
    {
      var i: nat, j: Byte :| 0 <= i < n && 1 <= j <= shorter[i].sequence &&
                             k == MarshallAddressKeyStr(shorter[i].address, blockTime, j);
      IsReorgKey(blockTime, longer, i, j);
    }
    forall k | k in CountedKeys(addresses[n].address, blockTime, addresses[n].sequence)
      ensures k in ReorgKeys(blockTime, longer)
    {
      var j: Byte :| 1 <= j <= addresses[n].sequence && k == MarshallAddressKeyStr(addresses[n].address, blockTime, j);
      IsReorgKey(blockTime, longer, n, j);
    }
    forall k | k in ReorgKeys(blockTime, longer)
      ensures k in ReorgKeys(blockTime, shorter) + CountedKeys(addresses[n].address, blockTime, addresses[n].sequence)
    {
      var i: nat, j: Byte :| 0 <= i < n + 1 && 1 <= j <= longer[i].sequence &&
                             k == MarshallAddressKeyStr(longer[i].address, blockTime, j);
      if i < n {
        IsReorgKey(blockTime, shorter, i, j);
      }
    }
  }

  lemma ReorgKeyParts(blockTime: int, addresses: seq<AddressSequence>, k: Bytes) returns (i: nat, j: Byte)
    requires k in ReorgKeys(blockTime, addresses)
    ensures i < |addresses| && 1 <= j <= addresses[i].sequence
    ensures k == MarshallAddressKeyStr(addresses[i].address, blockTime, j)
  {
    i, j :| i < |addresses| && 1 <= j <= addresses[i].sequence &&
            k == MarshallAddressKeyStr(addresses[i].address, blockTime, j);
  }

  lemma IsReorgKey(blockTime: int, addresses: seq<AddressSequence>, i: nat, j: Byte)
    requires i < |addresses| && 1 <= j <= addresses[i].sequence
    ensures MarshallAddressKeyStr(addresses[i].address, blockTime, j) in ReorgKeys(blockTime, addresses)
  {
  }

  /** Whatever a page holds is a record of the database. */
  lemma PageMembers(db: Db, rg: Range, asc: bool, rows: int, start: int)
    ensures var page := Page(Directed(Scan(db, rg), asc), rows, start);
      forall i :: 0 <= i < |page| ==> page[i].key in db && page[i].value == db[page[i].key]
  {
    var s := Scan(db, rg);
    PageIs(s, asc, rows, start);
    forall i | 0 <= i < |Page(Directed(s, asc), rows, start)|
      ensures Page(Directed(s, asc), rows, start)[i] in s
    {
    }
  }

  lemma ScanEnds(db: Db)
    ensures var s := Scan(db, EVERYTHING);
      && (s == [] <==> db == map[])
      && (s != [] ==> IsFirstKey(s[0].key, db) && s[0].value == db[s[0].key])
      && (s != [] ==> var last := s[|s| - 1]; IsLastKey(last.key, db) && last.value == db[last.key])
  {
    var s := Scan(db, EVERYTHING);
    forall k | k in db
      ensures exists i :: 0 <= i < |s| && s[i].key == k
    {
      InEverything(k);
      assert k in Keys(s);
      var i :| 0 <= i < |s| && Keys(s)[i] == k;
      assert s[i].key == k;
    }
  }

  /** The run the predicate scan collects is exactly the old run. */
  lemma OldRunIsRun(db: Db, untilTime: int, run: seq<KeyValue>)
    requires BlockDbOk(db) && run <= Scan(db, EVERYTHING)
    requires forall i :: 0 <= i < |run| ==> run[i].key in db && CreatedAt(db[run[i].key]) < untilTime
    requires var all := Scan(db, EVERYTHING);
      |run| < |all| ==> all[|run|].key in db && CreatedAt(db[all[|run|].key]) >= untilTime
    ensures (set k | k in Keys(run)) == OldRun(db, untilTime)
    ensures |run| == |OldRun(db, untilTime)|
  {
    var all := Scan(db, EVERYTHING);
    var keys := Keys(all);
    assert Keys(run) == keys[..|run|];
    forall k | k in db
      ensures k in keys
    {
      InEverything(k);
    }
    if |run| < |all| {
      assert keys[|run|] == all[|run|].key;
    }
    forall i | 0 <= i < |run|
      ensures CreatedAt(db[keys[i]]) < untilTime
    {
      assert keys[i] == run[i].key;
    }
    PrefixOfKeys(db, untilTime, keys, |run|);
    SortedCardinality(keys[..|run|]);
  }

  lemma PrefixOfKeys(db: Db, untilTime: int, keys: seq<Bytes>, n: nat)
    requires BlockDbOk(db) && Sorted(keys) && n <= |keys|
    requires forall k :: k in db <==> k in keys
    requires forall i :: 0 <= i < n ==> CreatedAt(db[keys[i]]) < untilTime
    requires n < |keys| ==> CreatedAt(db[keys[n]]) >= untilTime
    ensures (set k | k in keys[..n]) == OldRun(db, untilTime)
  {
    forall k | k in OldRun(db, untilTime)
      ensures k in keys[..n]
    {
      var i :| 0 <= i < |keys| && keys[i] == k;
      if n <= i {
        NotAfter(keys, n, i);
        assert false;
      }
    }
    forall k | k in keys[..n]
      ensures k in OldRun(db, untilTime)
    {
      var i :| 0 <= i < n && keys[i] == k;
      forall x | x in db && !Less(k, x)
        ensures CreatedAt(db[x]) < untilTime
      {
        var j :| 0 <= j < |keys| && keys[j] == x;
        assert j <= i;
      }
    }
  }

  lemma NotAfter(keys: seq<Bytes>, i: nat, j: nat)
    requires Sorted(keys) && i <= j < |keys|
    ensures !Less(keys[j], keys[i])
  {
    LessIrreflexive(keys[i]);
    LessTotal(keys[i], keys[j]);
  }

  lemma {:induction false} SortedCardinality(keys: seq<Bytes>)
    requires Sorted(keys)
    ensures |set k | k in keys| == |keys|
  {
    if keys != [] {
      var n := |keys| - 1;
      SortedCardinality(keys[..n]);
      LessIrreflexive(keys[n]);
      assert (set k | k in keys) == (set k | k in keys[..n]) + {keys[n]};
      assert keys[n] !in keys[..n];
    }
  }
}

/** repository/keyvalue/batch_repo.go: the persisted status of every batch. */
module BatchRepo {
  import opened ByteStrings
  import opened Datetime
  import opened Types
  import opened ByteMarshaller
  import opened OrderedStore
  import opened Dao
  import opened BatchStatuses

  function EncodeKey(k: BatchKey): Bytes {
    MarshallBatchKey(k.from, k.to, k.step, k.createdAt)
  }

  function EncodeValue(b: Batch): Bytes
    requires b.current.Some?
  {
    MarshallBatchValue(b.updatedAt, b.current.value)
  }

  predicate IsBatchRecord(kv: KeyValue) {
    IsBatchKey(kv.key) && |kv.value| >= TIMESTAMP_LENGTH
  }

  predicate BatchDbOk(db: Db) {
    forall k :: k in db ==> IsBatchKey(k) && |db[k]| >= TIMESTAMP_LENGTH
  }

  function KeyValueToBatch(kv: KeyValue): Batch
    requires IsBatchRecord(kv)
  {
    var (updatedAt, current) := UnmarshallBatchValue(kv.value);
    Batch(UnmarshallBatchKey(kv.key), Some(current), updatedAt)
  }

  function DecodeBatches(s: seq<KeyValue>): (r: seq<Batch>)
    requires forall i :: 0 <= i < |s| ==> IsBatchRecord(s[i])
    ensures |r| == |s|
    ensures forall i :: 0 <= i < |s| ==> r[i] == KeyValueToBatch(s[i])
  {
    seq(|s|, i requires 0 <= i < |s| => KeyValueToBatch(s[i]))
  }

  lemma ScanIsBatches(db: Db, rg: Range)
    requires BatchDbOk(db)
    ensures forall i :: 0 <= i < |Scan(db, rg)| ==> IsBatchRecord(Scan(db, rg)[i])
  {
  }

  /** All statuses of a batch database, in key order. */
  function Statuses(db: Db): seq<Batch>
    requires BatchDbOk(db)
  {
    ScanIsBatches(db, EVERYTHING);
    DecodeBatches(Scan(db, EVERYTHING))
  }

  function Updated(db: Db, b: Batch): Db
    requires b.current.Some?
  {
    db[EncodeKey(b.key) := EncodeValue(b)]
  }

  class KVBatchRepo {
    const batchDAO: LevelDbDAO

    constructor (batchDAO: LevelDbDAO)
      ensures this.batchDAO == batchDAO
    {
      this.batchDAO := batchDAO;
    }

    method GetAllBatchStatuses() returns (batches: seq<Batch>)
      requires BatchDbOk(batchDAO.db)
      ensures batches == Statuses(batchDAO.db)
    {
      hide KeyValueToBatch, UnmarshallBatchKey, ParseDecimal, IsBatchRecord, BatchDbOk;
      ScanIsBatches(batchDAO.db, EVERYTHING);
      var keyValues := batchDAO.GetAllRecords();
      batches := [];
      for i := 0 to |keyValues|
        invariant batches == DecodeBatches(keyValues)[..i]
      {
        batches := batches + [KeyValueToBatch(keyValues[i])];
      }
    }

    /** A batch without a step is refused; the current block must be known. */
    method UpdateBatch(b: Batch) returns (ok: bool)
      requires b.current.Some?
      modifies batchDAO
      ensures ok <==> b.key.step != 0
      ensures batchDAO.db == if ok then Updated(old(batchDAO.db), b) else old(batchDAO.db)
    {
      if b.key.step == 0 {
        return false;
      }
      var key := MarshallBatchKey(b.key.from, b.key.to, b.key.step, b.key.createdAt);
      var value := MarshallBatchValue(b.updatedAt, b.current.value);
      batchDAO.Put(KeyValue(key, value));
      ok := true;
    }

    /** As the source calls it, the search asks for no rows, so nothing is ever replaced. */
    method ReplaceBatch(from: nat, newTo: nat)
      requires BatchDbOk(batchDAO.db)
      modifies batchDAO
      ensures batchDAO.db == old(batchDAO.db)
    {
      var _ := ReplaceFirst(from, newTo, 0);
    }

    /** The body of ReplaceBatch, with the number of rows it asks for as a parameter. */
    method ReplaceFirst(from: nat, newTo: nat, rows: int) returns (ok: bool)
      requires BatchDbOk(batchDAO.db)
      modifies batchDAO
      ensures var found := Scan(old(batchDAO.db), BytesPrefix(MarshallBatchKeyFrom(from)));
        if rows <= 0 || found == [] then ok && batchDAO.db == old(batchDAO.db)
        else
          && IsBatchRecord(found[0])
          && var b := KeyValueToBatch(found[0]);
             (ok <==> b.key.step != 0) && batchDAO.db == Replaced(old(batchDAO.db), b, newTo)
    {
      hide IsBatchRecord, KeyValueToBatch, BatchDbOk, Replaced;
      ScanIsBatches(batchDAO.db, BytesPrefix(MarshallBatchKeyFrom(from)));
      var _, keyValues := batchDAO.FindByKeyPrefix(MarshallBatchKeyFrom(from), true, rows, 0);
      if |keyValues| <= 0 {
        return true;
      }
      var b := KeyValueToBatch(keyValues[0]);
      KeepsCurrent(keyValues[0]);
      ok := MoveBatch(b, newTo);
    }

    /** Moves the record of a batch to the key with the new end; a record without a step is lost. */
    method MoveBatch(b: Batch, newTo: nat) returns (ok: bool)
      requires b.current.Some?
      modifies batchDAO
      ensures ok <==> b.key.step != 0
      ensures batchDAO.db == Replaced(old(batchDAO.db), b, newTo)
    {
      batchDAO.DeleteByKey(MarshallBatchKey(b.key.from, b.key.to, b.key.step, b.key.createdAt));
      ok := UpdateBatch(b.(key := b.key.(to := newTo)));
    }
  }

  lemma KeepsCurrent(kv: KeyValue)
    requires IsBatchRecord(kv)
    ensures KeyValueToBatch(kv).current.Some?
  {
  }

  function Replaced(db: Db, b: Batch, newTo: nat): Db
    requires b.current.Some?
  {
    var rest := db - {EncodeKey(b.key)};
    if b.key.step == 0 then rest else Updated(rest, b.(key := b.key.(to := newTo)))
  }

  // ----- The database as a map from batch keys to statuses -----

  /** The batches the key and value formats can hold. */
  predicate BatchOk(b: Batch) {
    && b.key.from < 1_000_000_000 && b.key.to < 1_000_000_000 && b.key.step != 0
    && b.current.Some? && TimeFits(b.updatedAt)
  }

  /** Where the fields of a batch lie in its key and its value. */
  lemma BatchLayout(b: Batch)
    requires BatchOk(b)
    ensures var key := EncodeKey(b.key);
      && |key| > 21 && key[20] == b.key.step
      && IsDigits(key[..10]) && ParseDecimal(key[..10]) == b.key.from
      && IsDigits(key[10..20]) && ParseDecimal(key[10..20]) == b.key.to
      && key[21..] == Decimal(b.key.createdAt)
    ensures var value := EncodeValue(b);
      |value| >= 4 && value[..4] == BigBytes(b.updatedAt) && value[4..] == BigBytes(b.current.value)
  {
    hide ParseDecimal, Decimal, BigBytes;
    WidPadRoundTrip(b.key.from);
    WidPadRoundTrip(b.key.to);
    EncodersAgree(b.updatedAt);
    var key, value := EncodeKey(b.key), EncodeValue(b);
    assert key[..10] == WidPad(Decimal(b.key.from)) && key[10..20] == WidPad(Decimal(b.key.to));
    assert key[21..] == Decimal(b.key.createdAt);
    assert value[..4] == MarshallTime(b.updatedAt) && value[4..] == BigBytes(b.current.value);
  }

  /** The prefix that ReplaceBatch searches for finds exactly the batches that start at the block. */
  lemma PrefixFinds(from: nat, b: Batch)
    requires BatchOk(b) && from < 1_000_000_000
    ensures InRange(EncodeKey(b.key), BytesPrefix(MarshallBatchKeyFrom(from))) <==> b.key.from == from
  {
    hide ParseDecimal, Decimal, InRange, BytesPrefix;
    PrefixRange(MarshallBatchKeyFrom(from), EncodeKey(b.key));
    WidPadRoundTrip(from);
    WidPadRoundTrip(b.key.from);
    WidPadRoundTrip(b.key.to);
    var prefix, key := MarshallBatchKeyFrom(from), EncodeKey(b.key);
    assert key[..10] == WidPad(Decimal(b.key.from)) && |prefix| == 10;
    assert prefix <= key <==> prefix == key[..10];
  }

  type BatchMap = map<BatchKey, Batch>

  ghost predicate EncodedBy(x: Bytes, m: BatchMap) {
    exists k :: k in m && x == EncodeKey(k)
  }

  ghost predicate Encodes(db: Db, m: BatchMap) {
    && (forall k :: k in m ==> m[k].key == k && BatchOk(m[k]))
    && (forall k :: k in m ==> EncodeKey(k) in db && db[EncodeKey(k)] == EncodeValue(m[k]))
    && (forall x :: x in db ==> EncodedBy(x, m))
  }

  lemma BatchRoundTrip(b: Batch)
    requires BatchOk(b)
    ensures IsBatchRecord(KeyValue(EncodeKey(b.key), EncodeValue(b)))
    ensures KeyValueToBatch(KeyValue(EncodeKey(b.key), EncodeValue(b))) == b
  {
    BatchKeyRoundTrip(b.key);
    BatchValueRoundTrip(b.updatedAt, b.current.value);
  }

  lemma KeysDiffer(a: Batch, b: Batch)
    requires BatchOk(a) && BatchOk(b) && EncodeKey(a.key) == EncodeKey(b.key)
    ensures a.key == b.key
  {
    BatchKeyRoundTrip(a.key);
    BatchKeyRoundTrip(b.key);
  }

  lemma UpdateEncodes(db: Db, m: BatchMap, b: Batch)
    requires Encodes(db, m) && BatchOk(b)
    ensures Encodes(Updated(db, b), m[b.key := b])
  {
    hide EncodeKey, EncodeValue;
    var db', m' := Updated(db, b), m[b.key := b];
    forall k | k in m'
      ensures EncodeKey(k) in db' && db'[EncodeKey(k)] == EncodeValue(m'[k])
    {
      if k != b.key && EncodeKey(k) == EncodeKey(b.key) {
        KeysDiffer(m[k], b);
      }
    }
    forall x | x in db'
      ensures EncodedBy(x, m')
    {
      if x == EncodeKey(b.key) {
        assert b.key in m';
      } else {
        var k :| k in m && x == EncodeKey(k);
        assert k in m';
      }
    }
  }

  /** Moving a batch to a new end moves its entry in the map. */
  lemma ReplaceEncodes(db: Db, m: BatchMap, k: BatchKey, newTo: nat)
    requires Encodes(db, m) && k in m && newTo < 1_000_000_000
    ensures var moved := m[k].(key := k.(to := newTo));
      Encodes(Replaced(db, m[k], newTo), (m - {k})[moved.key := moved])
  {
    hide EncodeKey, EncodeValue, BatchOk;
    RemoveEncodes(db, m, k);
    Moved(m[k], newTo);
    UpdateEncodes(db - {EncodeKey(k)}, m - {k}, m[k].(key := k.(to := newTo)));
  }

  lemma Moved(b: Batch, newTo: nat)
    requires BatchOk(b) && newTo < 1_000_000_000
    ensures BatchOk(b.(key := b.key.(to := newTo)))
  {
  }

  lemma RemoveEncodes(db: Db, m: BatchMap, k: BatchKey)
    requires Encodes(db, m) && k in m
    ensures Encodes(db - {EncodeKey(k)}, m - {k})
  {
    hide EncodeKey, EncodeValue, BatchOk;
    forall l | l in m - {k}
      ensures EncodeKey(l) != EncodeKey(k)
    {
      if EncodeKey(l) == EncodeKey(k) {
        KeysDiffer(m[l], m[k]);
      }
    }
    forall x | x in db - {EncodeKey(k)}
      ensures EncodedBy(x, m - {k})
    {
      var l :| l in m && x == EncodeKey(l);
      assert l in m - {k};
    }
  }

  /** The statuses listed are the values of the map, each once. */
  ghost predicate ListsAll(statuses: seq<Batch>, m: BatchMap) {
    && (forall i :: 0 <= i < |statuses| ==> statuses[i].key in m && m[statuses[i].key] == statuses[i])
    && (forall i, j :: 0 <= i < j < |statuses| ==> statuses[i].key != statuses[j].key)
    && (forall k :: k in m ==> m[k] in statuses)
  }

  lemma EncodedRecord(db: Db, m: BatchMap, x: Bytes) returns (k: BatchKey)
    requires Encodes(db, m) && x in db
    ensures k in m && x == EncodeKey(k) && IsBatchRecord(KeyValue(x, db[x]))
    ensures KeyValueToBatch(KeyValue(x, db[x])) == m[k]
  {
    hide EncodeKey, EncodeValue, IsBatchRecord, KeyValueToBatch;
    assert EncodedBy(x, m);
    k :| k in m && x == EncodeKey(k);
    BatchRoundTrip(m[k]);
  }

  lemma EncodedDbOk(db: Db, m: BatchMap)
    requires Encodes(db, m)
    ensures BatchDbOk(db)
  {
    hide Encodes;
    forall x | x in db
      ensures IsBatchKey(x) && |db[x]| >= TIMESTAMP_LENGTH
    {
      var k := EncodedRecord(db, m, x);
    }
  }

  lemma StatusesListAll(db: Db, m: BatchMap)
    requires Encodes(db, m)
    ensures BatchDbOk(db) && ListsAll(Statuses(db), m)
  {
    EncodedDbOk(db, m);
    hide Encodes, BatchDbOk, Statuses, EncodeKey;
    var statuses := Statuses(db);
    forall i | 0 <= i < |statuses|
      ensures statuses[i].key in m && m[statuses[i].key] == statuses[i]
    {
      StatusAt(db, m, i);
    }
    forall i, j | 0 <= i < j < |statuses|
      ensures statuses[i].key != statuses[j].key
    {
      StatusAt(db, m, i);
      StatusAt(db, m, j);
      LessIrreflexive(EncodeKey(statuses[i].key));
    }
    forall k | k in m
      ensures m[k] in statuses
    {
      var i := StatusOf(db, m, k);
    }
  }

  /** The i-th status is that of the i-th key of the database. */
  lemma StatusAt(db: Db, m: BatchMap, i: nat)
    requires Encodes(db, m) && BatchDbOk(db) && i < |Statuses(db)|
    ensures Statuses(db)[i].key in m && m[Statuses(db)[i].key] == Statuses(db)[i]
    ensures forall j :: i < j < |Statuses(db)| && Statuses(db)[j].key in m ==>
      Less(EncodeKey(Statuses(db)[i].key), EncodeKey(Statuses(db)[j].key))
  {
    hide EncodeKey, EncodeValue, IsBatchRecord, KeyValueToBatch, BatchOk, BatchDbOk;
    ScanIsBatches(db, EVERYTHING);
    KeyOfStatus(db, m, i);
    forall j | i < j < |Statuses(db)| && Statuses(db)[j].key in m
      ensures Less(EncodeKey(Statuses(db)[i].key), EncodeKey(Statuses(db)[j].key))
    {
      KeyOfStatus(db, m, j);
      assert Less(Keys(Scan(db, EVERYTHING))[i], Keys(Scan(db, EVERYTHING))[j]);
    }
  }

  lemma KeyOfStatus(db: Db, m: BatchMap, i: nat)
    requires Encodes(db, m) && BatchDbOk(db) && i < |Statuses(db)|
    ensures |Scan(db, EVERYTHING)| == |Statuses(db)|
    ensures Statuses(db)[i].key in m && m[Statuses(db)[i].key] == Statuses(db)[i]
    ensures Scan(db, EVERYTHING)[i].key == EncodeKey(Statuses(db)[i].key)
  {
    hide EncodeKey, EncodeValue, IsBatchRecord, KeyValueToBatch, BatchOk, BatchDbOk;
    ScanIsBatches(db, EVERYTHING);
    var kv := Scan(db, EVERYTHING)[i];
    var k := EncodedRecord(db, m, kv.key);
    assert m[k].key == k;
  }

  lemma StatusOf(db: Db, m: BatchMap, k: BatchKey) returns (i: nat)
    requires Encodes(db, m) && k in m && BatchDbOk(db)
    ensures i < |Statuses(db)| && Statuses(db)[i] == m[k]
  {
    hide EncodeKey, EncodeValue, BatchDbOk, IsBatchRecord, KeyValueToBatch, BatchOk;
    ScanIsBatches(db, EVERYTHING);
    var s, x := Scan(db, EVERYTHING), EncodeKey(k);
    InEverything(x);
    assert x in Keys(s);
    i :| 0 <= i < |s| && Keys(s)[i] == x;
    BatchRoundTrip(m[k]);
  }

  function AfterUpdates(updates: seq<Batch>): Db
    requires forall i :: 0 <= i < |updates| ==> BatchOk(updates[i])
  {
    if updates == [] then map[]
    else
      var last := updates[|updates| - 1];
      assert BatchOk(last);
      Updated(AfterUpdates(updates[..|updates| - 1]), last)
  }

  function LastUpdates(updates: seq<Batch>): BatchMap {
    if updates == [] then map[]
    else LastUpdates(updates[..|updates| - 1])[updates[|updates| - 1].key := updates[|updates| - 1]]
  }

  /** After any updates, the repository lists for every key just the last status written for it. */
  lemma {:induction false} UpdatesAreMap(updates: seq<Batch>)
    requires forall i :: 0 <= i < |updates| ==> BatchOk(updates[i])
    ensures Encodes(AfterUpdates(updates), LastUpdates(updates))
    ensures BatchDbOk(AfterUpdates(updates)) && ListsAll(Statuses(AfterUpdates(updates)), LastUpdates(updates))
  {
    hide Encodes, ListsAll, Statuses, BatchDbOk, Updated;
    if updates == [] {
      EmptyEncodes();
    } else {
      UpdatesAreMap(updates[..|updates| - 1]);
      UpdateEncodes(AfterUpdates(updates[..|updates| - 1]), LastUpdates(updates[..|updates| - 1]),
                    updates[|updates| - 1]);
    }
    StatusesListAll(AfterUpdates(updates), LastUpdates(updates));
  }

  lemma EmptyEncodes()
    ensures Encodes(map[], map[])
  {
  }
}

/** An ordered key-value store seen as a map: key ranges and the sorted run of records in a range. */
module OrderedStore {
  import opened ByteStrings
  import opened Types

  type Db = map<Bytes, Bytes>

  // ----- Sorted keys -----

  predicate Sorted(s: seq<Bytes>) {
    forall i, j :: 0 <= i < j < |s| ==> Less(s[i], s[j])
  }

  predicate IsLeast(k: Bytes, keys: set<Bytes>) {
    k in keys && forall x :: x in keys ==> x == k || Less(k, x)
  }

  lemma {:induction false} LeastExists(keys: set<Bytes>)
    requires keys != {}
    ensures exists k :: IsLeast(k, keys)
  {
    var x :| x in keys;
    if keys == {x} {
      assert IsLeast(x, keys);
    } else {
      LeastExists(keys - {x});
      var k :| IsLeast(k, keys - {x});
      LessTotal(k, x);
      if Less(k, x) {
        assert IsLeast(k, keys);
      } else {
        forall y | y in keys && y != x
          ensures Less(x, y)
        {
          if y != k {
            LessTransitive(x, k, y);
          }
        }
        assert IsLeast(x, keys);
      }
    }
  }

  lemma LeastUnique(keys: set<Bytes>)
    ensures forall k, l :: IsLeast(k, keys) && IsLeast(l, keys) ==> k == l
  {
    forall k, l | IsLeast(k, keys) && IsLeast(l, keys)
      ensures k == l
    {
      LessTotal(k, l);
    }
  }

  function Least(keys: set<Bytes>): (k: Bytes)
    requires keys != {}
    ensures IsLeast(k, keys)
  {
    LeastExists(keys);
    LeastUnique(keys);
    var k :| k in keys && IsLeast(k, keys);
    k
  }

  function SortedKeys(keys: set<Bytes>): (s: seq<Bytes>)
    ensures Sorted(s)
    ensures forall k :: k in s <==> k in keys
  {
    if keys == {} then [] else [Least(keys)] + SortedKeys(keys - {Least(keys)})
  }

  /** A set has one sorted listing. */
  lemma {:induction false} SortedUnique(s: seq<Bytes>, t: seq<Bytes>)
    requires Sorted(s) && Sorted(t)
    requires forall k :: k in s <==> k in t
    ensures s == t
  {
    SameEmptiness(s, t);
    if s != [] {
      assert s[0] in t && t[0] in s;
      LessTotal(s[0], t[0]);
      LessIrreflexive(s[0]);
      assert s[0] == t[0];
      forall k
        ensures k in s[1..] <==> k in t[1..]
      {
        TailMembers(s, k);
        TailMembers(t, k);
      }
      SortedUnique(s[1..], t[1..]);
      assert s == [s[0]] + s[1..] && t == [t[0]] + t[1..];
    }
  }

  lemma SameEmptiness(s: seq<Bytes>, t: seq<Bytes>)
    requires forall k :: k in s <==> k in t
    ensures s == [] <==> t == []
  {
    if s != [] {
      var k := s[0];
      assert k in s && k in t;
    }
    if t != [] {
      var k := t[0];
      assert k in t && k in s;
    }
  }

  lemma TailMembers(s: seq<Bytes>, k: Bytes)
    requires Sorted(s) && s != []
    ensures k in s[1..] <==> k in s && k != s[0]
  {
    LessIrreflexive(s[0]);
  }

  // ----- Ranges -----

  /** util.Range of goleveldb: keys from start on and below the limit; no limit means up to the end. */
  datatype Range = Range(start: Bytes, limit: Option<Bytes>)

  const EVERYTHING: Range := Range([], None)

  predicate InRange(key: Bytes, rg: Range) {
    !Less(key, rg.start) && (rg.limit.Some? ==> Less(key, rg.limit.value))
  }

  /** util.BytesPrefix of goleveldb: the limit raises the last byte below 255 and drops what follows it. */
  function BytesPrefix(prefix: Bytes): Range {
    Range(prefix, PrefixLimit(prefix))
  }

  function PrefixLimit(prefix: Bytes): Option<Bytes> {
    if prefix == [] then None
    else
      var n := |prefix| - 1;
      if prefix[n] < 255 then Some(prefix[..n] + [prefix[n] + 1]) else PrefixLimit(prefix[..n])
  }

  /** The range of a prefix holds exactly the keys that start with it. */
  lemma {:induction false} PrefixRange(prefix: Bytes, key: Bytes)
    ensures InRange(key, BytesPrefix(prefix)) <==> prefix <= key
  {
    if prefix == [] {
    } else {
      var n := |prefix| - 1;
      var q, c := prefix[..n], prefix[n];
      assert prefix == q + [c];
      LastByte(q, c, key);
      if c == 255 {
        PrefixRange(q, key);
        if !Less(key, prefix) {
          BelowExtension(q, c);
          LessTotal(key, q);
          if Less(key, q) {
            LessTransitive(key, q, q + [c]);
          }
        }
      }
    }
  }

  lemma BelowExtension(q: Bytes, c: Byte)
    ensures Less(q, q + [c])
  {
    assert q == q + [];
    LessConcat(q, [], q, [c]);
  }

  /** Around q + [c]: which keys lie at or after it, and which lie before its successor. */
  lemma LastByte(q: Bytes, c: Byte, key: Bytes)
    ensures q + [c] <= key ==> !Less(key, q + [c])
    ensures c < 255 ==> (!Less(key, q + [c]) && Less(key, q + [c + 1]) <==> q + [c] <= key)
    ensures c == 255 && q <= key && !Less(key, q + [c]) ==> q + [c] <= key
    ensures q + [c] <= key ==> q <= key
  {
    if |key| <= |q| {
      ShortKey(q, c, key);
      if c < 255 {
        ShortKey(q, c + 1, key);
      }
    } else {
      var head, rest := key[..|q|], key[|q|..];
      assert key == head + rest;
      assert q + [c] <= key ==> head == q && rest[0] == c by {
        assert (q + [c])[..|q|] == q && (q + [c])[|q|] == c;
      }
      LessConcat(head, rest, q, [c]);
      LessTotal(head, q);
      LessIrreflexive(q);
      if c < 255 {
        LessConcat(head, rest, q, [c + 1]);
      }
    }
  }

  /** A key no longer than q comes before q + [c] just when it comes before q or starts q. */
  lemma ShortKey(q: Bytes, c: Byte, key: Bytes)
    requires |key| <= |q|
    ensures Less(key, q + [c]) <==> Less(key, q[..|key|]) || key == q[..|key|]
  {
    var head, rest := q[..|key|], q[|key|..];
    assert key == key + [];
    assert q + [c] == head + (rest + [c]);
    LessConcat(key, [], head, rest + [c]);
  }

  lemma InEverything(key: Bytes)
    ensures InRange(key, EVERYTHING)
  {
  }

  // ----- Scans -----

  /** The records of a range in key order. */
  function Scan(db: Db, rg: Range): (s: seq<KeyValue>)
    ensures IsScan(s, db, rg)
  {
    var keys := SortedKeys(KeysIn(db, rg));
    assert forall i :: 0 <= i < |keys| ==> keys[i] in KeysIn(db, rg);
    var s := seq(|keys|, i requires 0 <= i < |keys| => KeyValue(keys[i], db[keys[i]]));
    assert Keys(s) == keys;
    s
  }

  function KeysIn(db: Db, rg: Range): set<Bytes> {
    set k | k in db && InRange(k, rg)
  }

  function Keys(s: seq<KeyValue>): (keys: seq<Bytes>)
    ensures |keys| == |s|
    ensures forall i :: 0 <= i < |s| ==> keys[i] == s[i].key
  {
    seq(|s|, i requires 0 <= i < |s| => s[i].key)
  }

  ghost predicate IsScan(s: seq<KeyValue>, db: Db, rg: Range) {
    && Sorted(Keys(s))
    && (forall i :: 0 <= i < |s| ==> s[i].key in db && s[i].value == db[s[i].key] && InRange(s[i].key, rg))
    && (forall k :: k in db && InRange(k, rg) ==> k in Keys(s))
  }

  lemma ScanUnique(s: seq<KeyValue>, db: Db, rg: Range)
    requires IsScan(s, db, rg)
    ensures s == Scan(db, rg)
  {
    var t := Scan(db, rg);
    SortedUnique(Keys(s), Keys(t));
    forall i | 0 <= i < |s|
      ensures s[i] == t[i]
    {
      assert s[i].key == Keys(s)[i] == Keys(t)[i] == t[i].key;
    }
  }

  // ----- Writes -----

  function PutAll(db: Db, records: seq<KeyValue>): Db {
    if records == [] then db
    else
      var last := records[|records| - 1];
      PutAll(db, records[..|records| - 1])[last.key := last.value]
  }

  /** A batch of puts overrides the old records with what it would write into an empty store. */
  lemma {:induction false} PutAllOverrides(db: Db, records: seq<KeyValue>)
    ensures PutAll(db, records) == db + PutAll(map[], records)
  {
    if records != [] {
      PutAllOverrides(db, records[..|records| - 1]);
    }
  }

  lemma {:induction false} PutAllKeys(records: seq<KeyValue>)
    ensures forall k :: k in PutAll(map[], records) <==> k in Keys(records)
  {
    if records != [] {
      var front := records[..|records| - 1];
      PutAllKeys(front);
      assert Keys(records) == Keys(front) + [records[|records| - 1].key];
    }
  }

  /** Whatever is in the store after the puts comes from one of them. */
  lemma {:induction false} PutAllSource(records: seq<KeyValue>, k: Bytes) returns (i: nat)
    requires k in PutAll(map[], records)
    ensures i < |records| && records[i].key == k && PutAll(map[], records)[k] == records[i].value
  {
    var n := |records| - 1;
    if records[n].key == k {
      i := n;
    } else {
      i := PutAllSource(records[..n], k);
    }
  }

  ghost predicate DistinctRecords(records: seq<KeyValue>) {
    forall i, j :: 0 <= i < j < |records| ==> records[i].key != records[j].key
  }

  lemma DistinctStep(records: seq<KeyValue>)
    requires records != []
    ensures var n := |records| - 1;
      DistinctRecords(records) <==> DistinctRecords(records[..n]) && records[n].key !in Keys(records[..n])
  {
    var n := |records| - 1;
    var front := records[..n];
    forall i | 0 <= i < n
      ensures front[i] == records[i] && Keys(front)[i] == records[i].key
    {
    }
  }

  /** As many records as puts exactly if the keys are distinct. */
  lemma {:induction false} PutAllCount(records: seq<KeyValue>)
    ensures |PutAll(map[], records)| <= |records|
    ensures |PutAll(map[], records)| == |records| <==> DistinctRecords(records)
  {
    hide DistinctRecords;
    if records == [] {
      EmptyDistinct();
    } else {
      var n := |records| - 1;
      PutAllCount(records[..n]);
      PutAllKeys(records[..n]);
      DistinctStep(records);
      PutCount(PutAll(map[], records[..n]), records[n].key, records[n].value);
    }
  }

  lemma EmptyDistinct()
    ensures DistinctRecords([])
  {
  }

  lemma PutCount(db: Db, k: Bytes, value: Bytes)
    ensures |db[k := value]| == |db| + if k in db then 0 else 1
  {
    if k in db {
      assert db[k := value].Keys == db.Keys;
    } else {
      assert db[k := value].Keys == db.Keys + {k};
    }
  }

  /** With distinct keys every put survives. */
  lemma {:induction false} PutAllValue(records: seq<KeyValue>, i: nat)
    requires forall p, q :: 0 <= p < q < |records| ==> records[p].key != records[q].key
    requires i < |records|
    ensures records[i].key in PutAll(map[], records)
    ensures PutAll(map[], records)[records[i].key] == records[i].value
  {
    if i < |records| - 1 {
      PutAllValue(records[..|records| - 1], i);
    }
  }

  // ----- Unions -----

  ghost predicate Within(part: Db, db: Db) {
    forall k :: k in part ==> k in db && db[k] == part[k]
  }

  ghost predicate Owned(k: Bytes, parts: map<nat, Db>) {
    exists n :: n in parts && k in parts[n]
  }

  /** The store holds every record of every part, and nothing else. */
  ghost predicate IsUnion(db: Db, parts: map<nat, Db>) {
    && (forall n :: n in parts ==> Within(parts[n], db))
    && (forall k :: k in db ==> Owned(k, parts))
  }

  lemma UnionUnique(db: Db, db': Db, parts: map<nat, Db>)
    requires IsUnion(db, parts) && IsUnion(db', parts)
    ensures db == db'
  {
    hide Within, Owned;
    forall k | k in db
      ensures k in db' && db'[k] == db[k]
    {
      InBoth(k, db, db', parts);
    }
    forall k | k in db'
      ensures k in db
    {
      InBoth(k, db', db, parts);
    }
  }

  lemma InBoth(k: Bytes, db: Db, db': Db, parts: map<nat, Db>)
    requires IsUnion(db, parts) && IsUnion(db', parts) && k in db
    ensures k in db' && db'[k] == db[k]
  {
    hide Within;
    assert Owned(k, parts);
    var n :| n in parts && k in parts[n];
    WithinAt(parts[n], db, k);
    WithinAt(parts[n], db', k);
  }

  /** Two stores that have the same value wherever both have a key. */
  ghost predicate Agree(a: Db, b: Db) {
    forall k :: k in a && k in b ==> a[k] == b[k]
  }

  /** Putting one more part gives the larger union exactly if the part agrees with all others. */
  lemma UnionAdd(db: Db, parts: map<nat, Db>, n: nat, part: Db)
    requires IsUnion(db, parts)
    requires n in parts ==> parts[n] == part
    ensures IsUnion(db + part, parts[n := part]) <==> forall m :: m in parts && m != n ==> Agree(parts[m], part)
  {
    hide Within, Owned, Agree;
    var parts' := parts[n := part];
    forall m | m in parts && m != n
      ensures Within(parts[m], db + part) <==> Agree(parts[m], part)
    {
      WithinMerged(parts[m], db, part);
    }
    forall m | m in parts'
      ensures m != n ==> m in parts && parts'[m] == parts[m]
    {
    }
    WithinRight(db, part);
    forall k | k in db + part
      ensures Owned(k, parts')
    {
      if k in part {
        OwnedBy(k, parts', n);
      } else {
        StillOwned(k, parts, n, part);
      }
    }
    if IsUnion(db + part, parts') {
      forall m | m in parts && m != n
        ensures Agree(parts[m], part)
      {
        assert Within(parts'[m], db + part);
      }
    }
  }

  lemma WithinMerged(part: Db, db: Db, more: Db)
    requires Within(part, db)
    ensures Within(part, db + more) <==> Agree(part, more)
  {
  }

  lemma WithinRight(db: Db, part: Db)
    ensures Within(part, db + part)
  {
  }

  lemma StillOwned(k: Bytes, parts: map<nat, Db>, n: nat, part: Db)
    requires Owned(k, parts) && k !in part
    requires n in parts ==> parts[n] == part
    ensures Owned(k, parts[n := part])
  {
    var m :| m in parts && k in parts[m];
    assert m != n;
    OwnedBy(k, parts[n := part], m);
  }

  lemma OwnedBy(k: Bytes, parts: map<nat, Db>, n: nat)
    requires n in parts && k in parts[n]
    ensures Owned(k, parts)
  {
  }

  /** Deleting the keys of a part gives the smaller union exactly if no other part has one of them. */
  lemma UnionRemove(db: Db, parts: map<nat, Db>, n: nat)
    requires IsUnion(db, parts) && n in parts
    ensures IsUnion(db - parts[n].Keys, parts - {n}) <==>
            forall m :: m in parts && m != n ==> parts[m].Keys !! parts[n].Keys
  {
    hide Within, Owned;
    var db', parts' := db - parts[n].Keys, parts - {n};
    forall m | m in parts
      ensures Within(parts[m], db') <==> parts[m].Keys !! parts[n].Keys
    {
      WithinRest(parts[m], db, parts[n].Keys);
    }
    forall k | k in db'
      ensures Owned(k, parts')
    {
      OwnedByOther(k, parts, n);
    }
    if IsUnion(db', parts') {
      forall m | m in parts && m != n
        ensures parts[m].Keys !! parts[n].Keys
      {
        assert Within(parts'[m], db');
      }
    }
  }

  lemma WithinRest(part: Db, db: Db, keys: set<Bytes>)
    requires Within(part, db)
    ensures Within(part, db - keys) <==> part.Keys !! keys
  {
    if Within(part, db - keys) {
      forall k | k in part
        ensures k !in keys
      {
        assert k in db - keys;
      }
    }
  }

  lemma OwnedByOther(k: Bytes, parts: map<nat, Db>, n: nat)
    requires Owned(k, parts) && n in parts && k !in parts[n]
    ensures Owned(k, parts - {n})
  {
    var m :| m in parts && k in parts[m];
    OwnedBy(k, parts - {n}, m);
  }

  lemma WithinAt(part: Db, db: Db, k: Bytes)
    requires Within(part, db) && k in part
    ensures k in db && db[k] == part[k]
  {
  }
}

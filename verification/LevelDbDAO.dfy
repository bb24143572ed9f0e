/** repository/keyvalue/dao/leveldb_dao.go: puts, deletes and cursor scans over one LevelDB database. */
module Dao {
  import opened ByteStrings
  import opened Types
  import opened OrderedStore

  // common.NumMaxTransaction
  const NUM_MAX_TRANSACTION := 10000

  function Min(a: int, b: int): int {
    if a < b then a else b
  }

  function Max(a: int, b: int): int {
    if a < b then b else a
  }

  // ----- Paging -----

  /** How many matches a scan visits: it stops after the first one past NUM_MAX_TRANSACTION. */
  function Total(n: nat): (total: nat)
    ensures total <= n
  {
    Min(n, NUM_MAX_TRANSACTION + 1)
  }

  /** The requested rows of the matches a scan visits; a negative start or row count means 0. */
  function Page<T>(matches: seq<T>, rows: int, start: int): seq<T> {
    var total := Total(|matches|);
    matches[First(total, start)..End(total, rows, start)]
  }

  function First(total: nat, start: int): (lo: nat)
    ensures lo <= total
  {
    Min(Max(start, 0), total)
  }

  function End(total: nat, rows: int, start: int): (hi: nat)
    ensures First(total, start) <= hi <= total
  {
    Min(First(total, start) + Max(rows, 0), total)
  }

  function Reverse<T>(s: seq<T>): (r: seq<T>)
    ensures |r| == |s|
    ensures forall i :: 0 <= i < |s| ==> r[i] == s[|s| - 1 - i]
  {
    if s == [] then [] else Reverse(s[1..]) + [s[0]]
  }

  function Directed<T>(s: seq<T>, asc: bool): seq<T> {
    if asc then s else Reverse(s)
  }

  /** The total and the page in plain numbers: at most 10001 matches are visited, from either end. */
  lemma PageIs<T>(s: seq<T>, asc: bool, rows: int, start: int)
    ensures Total(|s|) == if |s| <= 10_000 then |s| else 10_001
    ensures var page, total, first := Page(Directed(s, asc), rows, start), Total(|s|), if start > 0 then start else 0;
      && |page| == (if rows <= 0 || total <= first then 0 else if rows <= total - first then rows else total - first)
      && forall i :: 0 <= i < |page| ==>
           first + i < |s| && page[i] == s[if asc then first + i else |s| - 1 - (first + i)]
  {
    hide Page, Directed, First;
    DirectedAt(s, asc);
    PageSlice(Directed(s, asc), rows, start);
  }

  lemma DirectedAt<T>(s: seq<T>, asc: bool)
    ensures |Directed(s, asc)| == |s|
    ensures forall i :: 0 <= i < |s| ==> Directed(s, asc)[i] == s[if asc then i else |s| - 1 - i]
  {
  }

  lemma PageSlice<T>(s: seq<T>, rows: int, start: int)
    ensures var page, total, first := Page(s, rows, start), Total(|s|), if start > 0 then start else 0;
      && |page| == (if rows <= 0 || total <= first then 0 else if rows <= total - first then rows else total - first)
      && forall i :: 0 <= i < |page| ==> first + i < |s| && page[i] == s[first + i]
  {
  }

  /** The first n pages of the given size, one after the other. */
  function Pages<T>(matches: seq<T>, rows: nat, n: nat): seq<T> {
    if n == 0 then [] else Pages(matches, rows, n - 1) + Page(matches, rows, (n - 1) * rows)
  }

  /** Consecutive pages tile the visited matches: no match is skipped and none is repeated. */
  lemma {:induction false} PagesTile<T>(matches: seq<T>, rows: nat, n: nat)
    ensures n * rows >= 0
    ensures Pages(matches, rows, n) == matches[..Min(n * rows, Total(|matches|))]
  {
    if n == 0 {
    } else {
      PagesTile(matches, rows, n - 1);
      assert n * rows == (n - 1) * rows + rows;
      PageExtends(matches, rows, (n - 1) * rows);
    }
  }

  lemma PageExtends<T>(matches: seq<T>, rows: nat, start: nat)
    ensures matches[..Min(start, Total(|matches|))] + Page(matches, rows, start) ==
            matches[..Min(start + rows, Total(|matches|))]
  {
  }

  // ----- Cursor -----

  /** A goleveldb iterator over the records of a range: before the first, on a record, or after the last. */
  class Iterator {
    const entries: seq<KeyValue>
    var pos: int

    predicate Valid()
      reads this
    {
      -1 <= pos <= |entries|
    }

    constructor (entries: seq<KeyValue>)
      ensures Valid() && this.entries == entries && pos == -1
    {
      this.entries := entries;
      pos := -1;
    }

    method Next() returns (ok: bool)
      requires Valid()
      modifies this
      ensures Valid() && pos == Min(old(pos) + 1, |entries|)
      ensures ok <==> pos < |entries|
    {
      pos := Min(pos + 1, |entries|);
      ok := pos < |entries|;
    }

    method Prev() returns (ok: bool)
      requires Valid()
      modifies this
      ensures Valid() && pos == Max(old(pos) - 1, -1)
      ensures ok <==> 0 <= pos
    {
      pos := Max(pos - 1, -1);
      ok := 0 <= pos;
    }

    method Last() returns (ok: bool)
      requires Valid()
      modifies this
      ensures Valid() && pos == |entries| - 1
      ensures ok <==> entries != []
    {
      pos := |entries| - 1;
      ok := entries != [];
    }

    function Current(): KeyValue
      requires 0 <= pos < |entries|
      reads this
    {
      entries[pos]
    }
  }

  /** One more visited match joins the page just when the scan's two counters say so. */
  lemma PageStep<T>(visit: seq<T>, total: nat, rows: int, start: int)
    requires total < |visit| && total <= NUM_MAX_TRANSACTION
    ensures Page(visit[..total + 1], rows, start) ==
            Page(visit[..total], rows, start) +
            if total >= start && |Page(visit[..total], rows, start)| < rows then [visit[total]] else []
  {
    PageOfPrefix(visit, total, rows, start);
    PageOfPrefix(visit, total + 1, rows, start);
    var lo, hi := First(total, start), End(total, rows, start);
    if total >= start && hi - lo < rows {
      assert hi == total && First(total + 1, start) == lo && End(total + 1, rows, start) == total + 1;
      assert visit[lo..total + 1] == visit[lo..total] + [visit[total]];
    } else if total >= start {
      assert First(total + 1, start) == lo && End(total + 1, rows, start) == hi;
    }
  }

  lemma PageOfPrefix<T>(visit: seq<T>, total: nat, rows: int, start: int)
    requires total <= |visit| && total <= NUM_MAX_TRANSACTION + 1
    ensures Page(visit[..total], rows, start) == visit[First(total, start)..End(total, rows, start)]
  {
  }

  /** The closure addToResult: keeps a visited record if it is not before the page and the page is not full. */
  method AddToResult(ghost visit: seq<KeyValue>, total: nat, rows: int, start: int,
                     keyValue: KeyValue, result0: seq<KeyValue>)
    returns (result: seq<KeyValue>)
    requires total < |visit| && total <= NUM_MAX_TRANSACTION && keyValue == visit[total]
    requires result0 == Page(visit[..total], rows, start)
    ensures result == Page(visit[..total + 1], rows, start)
  {
    result := result0;
    var count := |result|;
    PageStep(visit, total, rows, start);
    if total >= start && count < rows {
      result := result + [keyValue];
    }
  }

  /**
    findByKeyPrefix: walks forwards, or from the last record backwards, collecting the rows
    asked for and counting on until the matches, in the order of the walk, or the limit are exhausted.
   */
  method FindByIterator(iter: Iterator, asc: bool, rows: int, start: int, ghost visit: seq<KeyValue>)
    returns (total: nat, result: seq<KeyValue>)
    requires iter.Valid() && iter.pos == -1 && |visit| == |iter.entries|
    requires forall i :: 0 <= i < |visit| ==> visit[i] == iter.entries[if asc then i else |visit| - 1 - i]
    modifies iter
    ensures total == Total(|iter.entries|)
    ensures result == Page(visit, rows, start)
  {
    hide Page, First, End;
    NoPage(visit, rows, start);
    result := [];
    total := 0;
    if !asc {
      var hasLast := iter.Last();
      if !hasLast {
        return 0, [];
      }
      result := AddToResult(visit, 0, rows, start, iter.Current(), []);
      total := 1;
    }
    while true
      invariant iter.Valid()
      invariant total <= |visit| && total <= NUM_MAX_TRANSACTION
      invariant iter.pos == if asc then total - 1 else |visit| - total
      invariant result == Page(visit[..total], rows, start)
      decreases |visit| - total
    {
      var moved;
      if asc {
        moved := iter.Next();
      } else {
        moved := iter.Prev();
      }
      if !moved {
        break;
      }
      assert iter.Current() == visit[total];
      result := AddToResult(visit, total, rows, start, iter.Current(), result);
      total := total + 1;
      if total > NUM_MAX_TRANSACTION {
        break;
      }
    }
    WholePage(visit, total, rows, start);
  }

  lemma NoPage<T>(visit: seq<T>, rows: int, start: int)
    ensures Page(visit[..0], rows, start) == []
    ensures visit == [] ==> Page(visit, rows, start) == []
  {
  }

  lemma WholePage<T>(visit: seq<T>, total: nat, rows: int, start: int)
    requires total == Total(|visit|)
    ensures Page(visit[..total], rows, start) == Page(visit, rows, start)
  {
    PageOfPrefix(visit, total, rows, start);
  }

  method Count(iter: Iterator) returns (result: nat)
    requires iter.Valid() && iter.pos == -1
    modifies iter
    ensures result == |iter.entries|
  {
    result := 0;
    var moved := iter.Next();
    while moved
      invariant iter.Valid() && iter.pos == result
      invariant moved <==> result < |iter.entries|
      decreases |iter.entries| - result
    {
      result := result + 1;
      moved := iter.Next();
    }
  }

  method FirstRecords(iter: Iterator, n: int) returns (result: seq<KeyValue>)
    requires iter.Valid() && iter.pos == -1
    modifies iter
    ensures result == iter.entries[..Min(Max(n, 0), |iter.entries|)]
  {
    result := [];
    var count := 0;
    while count < n
      invariant iter.Valid() && 0 <= count <= Max(n, 0)
      invariant count <= |iter.entries| && iter.pos == count - 1
      invariant result == iter.entries[..count]
    {
      var moved := iter.Next();
      if !moved {
        break;
      }
      count := count + 1;
      result := result + [iter.Current()];
    }
  }

  /** The records from the first one up to, not including, the first that fails the predicate. */
  ghost predicate LongestRun(run: seq<KeyValue>, all: seq<KeyValue>, prep: KeyValue --> bool) {
    && run <= all
    && (forall i :: 0 <= i < |run| ==> prep.requires(run[i]) && prep(run[i]))
    && (|run| < |all| ==> prep.requires(all[|run|]) && !prep(all[|run|]))
  }

  method FirstPredicate(iter: Iterator, prep: KeyValue --> bool) returns (result: seq<KeyValue>)
    requires iter.Valid() && iter.pos == -1
    requires forall i :: 0 <= i < |iter.entries| ==> prep.requires(iter.entries[i])
    modifies iter
    ensures LongestRun(result, iter.entries, prep)
  {
    result := [];
    var moved := iter.Next();
    while moved
      invariant iter.Valid() && iter.pos == |result|
      invariant moved <==> |result| < |iter.entries|
      invariant result <= iter.entries
      invariant forall i :: 0 <= i < |result| ==> prep.requires(result[i]) && prep(result[i])
      decreases |iter.entries| - |result|
    {
      var keyValue := iter.Current();
      if !prep(keyValue) {
        break;
      }
      result := result + [keyValue];
      moved := iter.Next();
    }
  }

  method AllRecords(iter: Iterator) returns (result: seq<KeyValue>)
    requires iter.Valid() && iter.pos == -1
    modifies iter
    ensures result == iter.entries
  {
    result := [];
    var moved := iter.Next();
    while moved
      invariant iter.Valid() && iter.pos == |result|
      invariant moved <==> |result| < |iter.entries|
      invariant result == iter.entries[..|result|]
      decreases |iter.entries| - |result|
    {
      result := result + [iter.Current()];
      moved := iter.Next();
    }
  }

  /** getNLastRecords, over the records listed backwards. */
  method LastRecords(iter: Iterator, n: int, ghost back: seq<KeyValue>) returns (result: seq<KeyValue>)
    requires iter.Valid() && |back| == |iter.entries|
    requires forall i :: 0 <= i < |back| ==> back[i] == iter.entries[|back| - 1 - i]
    modifies iter
    ensures result == back[..Min(Max(n, 1), |back|)]
  {
    result := [];
    var hasLast := iter.Last();
    if !hasLast {
      return;
    }
    result := result + [iter.Current()];
    var count := 0;
    while count < n - 1
      invariant iter.Valid() && 0 <= count <= Max(n - 1, 0)
      invariant count < |back| && iter.pos == |back| - 1 - count
      invariant result == back[..count + 1]
    {
      var moved := iter.Prev();
      if !moved {
        break;
      }
      assert back[count + 1] == iter.Current();
      result := result + [iter.Current()];
      count := count + 1;
    }
  }

  class LevelDbDAO {
    var db: Db

    constructor ()
      ensures db == map[]
    {
      db := map[];
    }

    method NewIterator(rg: Range) returns (iter: Iterator)
      ensures fresh(iter) && iter.Valid() && iter.pos == -1
      ensures iter.entries == Scan(db, rg)
    {
      iter := new Iterator(Scan(db, rg));
    }

    method Put(record: KeyValue)
      modifies this
      ensures db == old(db)[record.key := record.value]
    {
      db := db[record.key := record.value];
    }

    /** A write batch takes effect as a whole; later puts of a key win. */
    method BatchPut(records: seq<KeyValue>)
      modifies this
      ensures db == PutAll(old(db), records)
    {
      var batch := db;
      for i := 0 to |records|
        invariant batch == PutAll(old(db), records[..i])
      {
        assert records[..i + 1][..i] == records[..i];
        batch := batch[records[i].key := records[i].value];
      }
      assert records[..|records|] == records;
      db := batch;
    }

    /** Deleting an absent key does nothing. */
    method BatchDelete(keys: seq<Bytes>)
      modifies this
      ensures db == old(db) - (set k | k in keys)
    {
      var batch := db;
      for i := 0 to |keys|
        invariant batch == old(db) - (set k | k in keys[..i])
      {
        assert keys[..i + 1] == keys[..i] + [keys[i]];
        batch := batch - {keys[i]};
      }
      assert keys[..|keys|] == keys;
      db := batch;
    }

    method DeleteByKey(key: Bytes)
      modifies this
      ensures db == old(db) - {key}
    {
      db := db - {key};
    }

    method CountByKeyPrefix(prefix: Bytes) returns (total: nat)
      ensures total == |Scan(db, BytesPrefix(prefix))|
    {
      var iter := NewIterator(BytesPrefix(prefix));
      total := Count(iter);
    }

    method FindByKeyPrefix(prefix: Bytes, asc: bool, rows: int, start: int)
      returns (total: nat, result: seq<KeyValue>)
      ensures total == Total(|Scan(db, BytesPrefix(prefix))|)
      ensures result == Page(Directed(Scan(db, BytesPrefix(prefix)), asc), rows, start)
    {
      hide Page, Total, IsScan, BytesPrefix;
      var iter := NewIterator(BytesPrefix(prefix));
      DirectedAt(iter.entries, asc);
      total, result := FindByIterator(iter, asc, rows, start, Directed(iter.entries, asc));
    }

    method FindByRange(rg: Range, asc: bool, rows: int, start: int)
      returns (total: nat, result: seq<KeyValue>)
      ensures total == Total(|Scan(db, rg)|)
      ensures result == Page(Directed(Scan(db, rg), asc), rows, start)
    {
      hide Page, Total, IsScan;
      var iter := NewIterator(rg);
      DirectedAt(iter.entries, asc);
      total, result := FindByIterator(iter, asc, rows, start, Directed(iter.entries, asc));
    }

    method CountByRange(rg: Range) returns (total: nat)
      ensures total == |Scan(db, rg)|
    {
      var iter := NewIterator(rg);
      total := Count(iter);
    }

    method FindByKey(key: Bytes) returns (result: Option<KeyValue>)
      ensures result == if key in db then Some(KeyValue(key, db[key])) else None
    {
      result := if key in db then Some(KeyValue(key, db[key])) else None;
    }

    method GetNFirstRecords(n: int) returns (result: seq<KeyValue>)
      ensures result == Scan(db, EVERYTHING)[..Min(Max(n, 0), |Scan(db, EVERYTHING)|)]
    {
      var iter := NewIterator(EVERYTHING);
      result := FirstRecords(iter, n);
    }

    /** The last records of the database, last one first; at least one is returned if there is any. */
    method GetNLastRecords(n: int) returns (result: seq<KeyValue>)
      ensures var back := Reverse(Scan(db, EVERYTHING));
        result == back[..Min(Max(n, 1), |back|)]
    {
      var iter := NewIterator(EVERYTHING);
      result := LastRecords(iter, n, Reverse(iter.entries));
    }

    method GetNFirstPredicate(prep: KeyValue --> bool) returns (result: seq<KeyValue>)
      requires forall kv: KeyValue :: kv.key in db && db[kv.key] == kv.value ==> prep.requires(kv)
      ensures LongestRun(result, Scan(db, EVERYTHING), prep)
    {
      var iter := NewIterator(EVERYTHING);
      result := FirstPredicate(iter, prep);
    }

    method GetAllRecords() returns (result: seq<KeyValue>)
      ensures result == Scan(db, EVERYTHING)
    {
      var iter := NewIterator(EVERYTHING);
      result := AllRecords(iter);
    }
  }
}

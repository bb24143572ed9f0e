/**
  What the address database means: the index entries of a chain, one version per block number.
  A block's entries are the keys and values a store puts for it.
 */
module ChainIndex {
  import opened ByteStrings
  import opened Datetime
  import opened Types
  import opened ByteMarshaller
  import opened OrderedStore
  import opened IndexData
  import opened IndexRepo

  // ----- Blocks -----

  function SidesOf(b: BlockDetail): seq<Side> {
    Sides(b.transactions)
  }

  predicate TransactionOk(tx: TransactionDetail) {
    && (tx.from == [] || |tx.from| == ADDRESS_LENGTH)
    && (tx.to == [] || |tx.to| == ADDRESS_LENGTH)
    && |tx.txHash| == HASH_LENGTH
  }

  /** The blocks the formats can hold: a four-byte time, and addresses and hashes of their lengths. */
  predicate BlockOk(b: BlockDetail) {
    && TimeFits(b.time)
    && (forall i :: 0 <= i < |b.transactions| ==> TransactionOk(b.transactions[i]))
  }

  /** No address occurs more often than that in the block. */
  predicate Sparse(b: BlockDetail, bound: nat) {
    OccursAtMost(SidesOf(b), bound)
  }

  predicate SideOk(s: Side) {
    |s.address| == |s.coupleAddress| == ADDRESS_LENGTH && |s.txHash| == HASH_LENGTH
  }

  lemma {:induction false} SidesOk(transactions: seq<TransactionDetail>)
    requires forall i :: 0 <= i < |transactions| ==> TransactionOk(transactions[i])
    ensures forall k :: 0 <= k < |Sides(transactions)| ==> SideOk(Sides(transactions)[k])
  {
    if transactions != [] {
      SidesOk(transactions[..|transactions| - 1]);
    }
  }

  /** The number of the p-th side among the sides of its address. */
  function Number(b: BlockDetail, p: nat): nat
    requires p < |SidesOf(b)|
  {
    Occurrences(SidesOf(b)[..p + 1], SidesOf(b)[p].address)
  }

  /** The entry of a side holds the number of the side in a uint8. */
  lemma EntryOf(b: BlockDetail, p: nat)
    requires BlockOk(b) && p < |SidesOf(b)|
    ensures |Entries(b)| == |SidesOf(b)|
    ensures var e, s := Entries(b)[p], SidesOf(b)[p];
      && EntryFits(e) && e.time == b.time && e.address == s.address
      && e.txHash == s.txHash && e.coupleAddress == s.coupleAddress && e.value == s.value
      && e.sequence as nat == Number(b, p) % 256
    ensures 1 <= Number(b, p) <= Occurrences(SidesOf(b), SidesOf(b)[p].address)
  {
    EntryAt(SidesOf(b), p, b.time);
    SidesOk(b.transactions);
    OccursAt(SidesOf(b), p);
    OccursAt(SidesOf(b)[..p + 1], p);
  }

  // ----- The keys of a block -----

  /** What a store of the block puts into the address database. */
  function BlockPuts(b: BlockDetail): Db {
    PutAll(map[], Records(Entries(b)))
  }

  function EntryKey(b: BlockDetail, p: nat): Bytes
    requires p < |Entries(b)|
  {
    MarshallAddressKey(Entries(b)[p])
  }

  /** Two sides get one key exactly if they have one address and their numbers agree modulo 256. */
  lemma SameKey(b: BlockDetail, p: nat, q: nat)
    requires BlockOk(b) && p < |SidesOf(b)| && q < |SidesOf(b)|
    ensures |Entries(b)| == |SidesOf(b)|
    ensures EntryKey(b, p) == EntryKey(b, q) <==>
            SidesOf(b)[p].address == SidesOf(b)[q].address && Number(b, p) % 256 == Number(b, q) % 256
  {
    EntryOf(b, p);
    EntryOf(b, q);
    var e, f := Entries(b)[p], Entries(b)[q];
    AddressKeyOrder(e.address, e.time, e.sequence, f.address, f.time, f.sequence);
  }

  ghost predicate KeysDistinct(b: BlockDetail) {
    forall p, q :: 0 <= p < q < |Entries(b)| ==> EntryKey(b, p) != EntryKey(b, q)
  }

  /** The keys a block puts are pairwise distinct exactly up to 256 occurrences of an address. */
  lemma DistinctKeys(b: BlockDetail)
    requires BlockOk(b)
    ensures KeysDistinct(b) <==> Sparse(b, 256)
  {
    hide BlockOk, EntryKey, Entries, SidesOf, Sparse;
    if Sparse(b, 256) {
      forall p, q | 0 <= p < q < |Entries(b)|
        ensures EntryKey(b, p) != EntryKey(b, q)
      {
        SidesAndEntries(b);
        SparseAt(b, 256, q);
        KeysDiffer(b, p, q);
      }
    } else {
      var p, q := KeysClash(b);
    }
  }

  lemma KeysDiffer(b: BlockDetail, p: nat, q: nat)
    requires BlockOk(b) && p < q < |SidesOf(b)|
    requires SidesOf(b)[p].address == SidesOf(b)[q].address ==>
      Occurrences(SidesOf(b), SidesOf(b)[q].address) <= 256
    ensures |Entries(b)| == |SidesOf(b)| && EntryKey(b, p) != EntryKey(b, q)
  {
    hide BlockOk, EntryKey, Entries, SidesOf;
    SameKey(b, p, q);
    if SidesOf(b)[p].address == SidesOf(b)[q].address {
      EntryOf(b, p);
      EntryOf(b, q);
      NumbersGrow(SidesOf(b), p, q);
      DifferBelow257(Number(b, p), Number(b, q));
    }
  }

  lemma KeysClash(b: BlockDetail) returns (p: nat, q: nat)
    requires BlockOk(b) && !Sparse(b, 256)
    ensures p < |Entries(b)| && q < |Entries(b)| && p != q && EntryKey(b, p) == EntryKey(b, q)
  {
    hide BlockOk, EntryKey, Entries, SidesOf;
    SidesAndEntries(b);
    var x := Crowded(b, 256);
    p := OccurrenceAt(SidesOf(b), x, 1);
    q := OccurrenceAt(SidesOf(b), x, 257);
    SameKey(b, p, q);
  }

  lemma SidesAndEntries(b: BlockDetail)
    ensures |Entries(b)| == |SidesOf(b)|
  {
  }

  lemma SparseAt(b: BlockDetail, bound: nat, p: nat)
    requires Sparse(b, bound) && p < |SidesOf(b)|
    ensures Occurrences(SidesOf(b), SidesOf(b)[p].address) <= bound
  {
  }

  lemma DifferBelow257(m: nat, n: nat)
    requires 1 <= m < n <= 256
    ensures m % 256 != n % 256
  {
  }

  /** The key of a side, which is put. */
  lemma SideKey(b: BlockDetail, p: nat)
    requires BlockOk(b) && p < |SidesOf(b)|
    ensures |Entries(b)| == |SidesOf(b)| && EntryKey(b, p) in BlockPuts(b)
    ensures EntryKey(b, p) == MarshallAddressKeyStr(SidesOf(b)[p].address, b.time, Number(b, p) % 256)
  {
    hide BlockOk, BlockPuts, Entries, SidesOf, MarshallAddressKeyStr;
    EntryOf(b, p);
    KeyIsPut(b, p);
  }

  lemma KeyIsPut(b: BlockDetail, p: nat)
    requires p < |Entries(b)|
    ensures EntryKey(b, p) in BlockPuts(b)
  {
    hide Entries;
    var records := Records(Entries(b));
    RecordAt(Entries(b), p);
    PutAllKeys(records);
    assert Keys(records)[p] == EntryKey(b, p);
  }

  /** A block puts as many records as it has entries exactly up to 256 occurrences of an address. */
  lemma NothingLost(b: BlockDetail)
    requires BlockOk(b)
    ensures |BlockPuts(b)| <= |Entries(b)|
    ensures |BlockPuts(b)| == |Entries(b)| <==> Sparse(b, 256)
  {
    hide Entries, Sparse, BlockOk;
    var records := Records(Entries(b));
    forall p | 0 <= p < |records|
      ensures records[p].key == EntryKey(b, p)
    {
      RecordAt(Entries(b), p);
    }
    PutAllCount(records);
    DistinctKeys(b);
    if !KeysDistinct(b) {
      var p, q :| 0 <= p < q < |Entries(b)| && EntryKey(b, p) == EntryKey(b, q);
      assert records[p].key == records[q].key;
    }
  }

  /** Whatever is put comes from some entry. */
  lemma EntryOfPut(b: BlockDetail, k: Bytes) returns (p: nat)
    requires k in BlockPuts(b)
    ensures p < |Entries(b)| && k == EntryKey(b, p) && BlockPuts(b)[k] == MarshallAddressValue(Entries(b)[p])
  {
    hide Entries;
    p := PutAllSource(Records(Entries(b)), k);
    RecordAt(Entries(b), p);
  }

  /** An entry is put with its value if its own address occurs at most 256 times, however often others do. */
  lemma PutOfEntry(b: BlockDetail, p: nat)
    requires BlockOk(b) && p < |SidesOf(b)| && Occurrences(SidesOf(b), SidesOf(b)[p].address) <= 256
    ensures |Entries(b)| == |SidesOf(b)| && EntryKey(b, p) in BlockPuts(b)
    ensures BlockPuts(b)[EntryKey(b, p)] == MarshallAddressValue(Entries(b)[p])
  {
    hide BlockOk, BlockPuts, EntryKey, Entries, SidesOf, Number, Occurrences, MarshallAddressKeyStr,
         MarshallAddressValue;
    SideKey(b, p);
    var q := EntryOfPut(b, EntryKey(b, p));
    if p < q {
      KeysDiffer(b, p, q);
    } else if q < p {
      KeysDiffer(b, q, p);
    }
  }

  /** Every key of a block carries the time of the block. */
  lemma PutShape(b: BlockDetail, k: Bytes)
    requires BlockOk(b) && k in BlockPuts(b)
    ensures |k| == 25 && KeyTime(k) == b.time
    ensures |BlockPuts(b)[k]| >= HASH_LENGTH + ADDRESS_LENGTH
  {
    hide BlockPuts, BlockOk, Entries, SidesOf;
    var p := EntryOfPut(b, k);
    SidesAndEntries(b);
    EntryOf(b, p);
    var e := Entries(b)[p];
    AddressKeyParts(e.address, e.time, e.sequence);
  }

  // ----- Undoing a block -----

  lemma ListedAddress(b: BlockDetail, addresses: seq<AddressSequence>, i: nat)
    requires BlockOk(b) && Describes(addresses, SidesOf(b)) && i < |addresses|
    ensures |addresses[i].address| == ADDRESS_LENGTH
    ensures Occurrences(SidesOf(b), addresses[i].address) > 0
    ensures addresses[i].sequence as nat == Occurrences(SidesOf(b), addresses[i].address) % 256
  {
    OccursOk(b, addresses[i].address);
  }

  lemma OccursOk(b: BlockDetail, address: Bytes)
    requires BlockOk(b) && Occurrences(SidesOf(b), address) > 0
    ensures |address| == ADDRESS_LENGTH
    ensures forall bound :: Sparse(b, bound) ==> Occurrences(SidesOf(b), address) <= bound
  {
    var p := OccurrenceAt(SidesOf(b), address, 1);
    SidesOk(b.transactions);
    assert SideOk(SidesOf(b)[p]);
  }

  /**
    Reorganisation keys: whatever the order of the record, a reorganisation deletes only keys that
    the store of the block put, and it deletes all of them exactly if no address occurs more than
    255 times. The 256th entry of an address has sequence 0, which no record accounts for.
   */
  lemma ReorgKeyAgreement(b: BlockDetail, addresses: seq<AddressSequence>)
    requires BlockOk(b) && Describes(addresses, SidesOf(b))
    ensures ReorgKeys(b.time, addresses) <= BlockPuts(b).Keys
    ensures ReorgKeys(b.time, addresses) == BlockPuts(b).Keys <==> Sparse(b, 255)
  {
    hide BlockOk, BlockPuts, Describes, SidesOf, ReorgKeys;
    forall k | k in ReorgKeys(b.time, addresses)
      ensures k in BlockPuts(b)
    {
      ReorgKeyIsPut(b, addresses, k);
    }
    if Sparse(b, 255) {
      forall k | k in BlockPuts(b)
        ensures k in ReorgKeys(b.time, addresses)
      {
        PutIsReorgKey(b, addresses, k);
      }
    } else {
      var k := MissedKey(b, addresses);
    }
  }

  lemma ReorgKeyIsPut(b: BlockDetail, addresses: seq<AddressSequence>, k: Bytes)
    requires BlockOk(b) && Describes(addresses, SidesOf(b)) && k in ReorgKeys(b.time, addresses)
    ensures k in BlockPuts(b)
  {
    hide BlockOk, BlockPuts, Describes, SidesOf, ReorgKeys, Entries, EntryKey, MarshallAddressKeyStr;
    var i, j := ReorgKeyParts(b.time, addresses, k);
    ListedAddress(b, addresses, i);
    var p := OccurrenceAt(SidesOf(b), addresses[i].address, j);
    SideKey(b, p);
  }

  lemma PutIsReorgKey(b: BlockDetail, addresses: seq<AddressSequence>, k: Bytes)
    requires BlockOk(b) && Describes(addresses, SidesOf(b)) && Sparse(b, 255) && k in BlockPuts(b)
    ensures k in ReorgKeys(b.time, addresses)
  {
    hide BlockOk, BlockPuts, Sparse, Entries, SidesOf, Describes, ReorgKeys;
    var p := EntryOfPut(b, k);
    SidesAndEntries(b);
    EntryOf(b, p);
    var i := ListedAt(addresses, SidesOf(b), p);
    ListedAddress(b, addresses, i);
    OccursOk(b, SidesOf(b)[p].address);
    IsReorgKey(b.time, addresses, i, Number(b, p));
  }

  lemma ListedAt(addresses: seq<AddressSequence>, sides: seq<Side>, p: nat) returns (i: nat)
    requires Describes(addresses, sides) && p < |sides|
    ensures i < |addresses| && addresses[i].address == sides[p].address
    ensures addresses[i].sequence as nat == Occurrences(sides, sides[p].address) % 256
  {
    assert Lists(addresses, sides[p].address);
    i :| 0 <= i < |addresses| && addresses[i].address == sides[p].address;
  }

  lemma MissedKey(b: BlockDetail, addresses: seq<AddressSequence>) returns (k: Bytes)
    requires BlockOk(b) && Describes(addresses, SidesOf(b)) && !Sparse(b, 255)
    ensures k in BlockPuts(b) && k !in ReorgKeys(b.time, addresses)
  {
    hide BlockOk, BlockPuts, Describes, SidesOf, Entries, EntryKey, ReorgKeys, MarshallAddressKeyStr;
    var x := Crowded(b, 255);
    var p := OccurrenceAt(SidesOf(b), x, 256);
    SideKey(b, p);
    k := EntryKey(b, p);
    if k in ReorgKeys(b.time, addresses) {
      var i, j := ReorgKeyParts(b.time, addresses, k);
      ListedAddress(b, addresses, i);
      AddressKeyOrder(x, b.time, 0, addresses[i].address, b.time, j);
      assert false;
    }
  }

  lemma Crowded(b: BlockDetail, bound: nat) returns (address: Bytes)
    requires BlockOk(b) && !Sparse(b, bound)
    ensures |address| == ADDRESS_LENGTH && Occurrences(SidesOf(b), address) > bound && TimeFits(b.time)
  {
    var k :| 0 <= k < |SidesOf(b)| && Occurrences(SidesOf(b), SidesOf(b)[k].address) > bound;
    address := SidesOf(b)[k].address;
    OccursOk(b, address);
  }

  /** The deletion loops of a reorganisation end exactly if no address occurs 255 times modulo 256. */
  lemma ReorgEnds(b: BlockDetail, addresses: seq<AddressSequence>)
    requires Describes(addresses, SidesOf(b))
    ensures LoopsEnd(addresses) <==>
            forall p :: 0 <= p < |SidesOf(b)| ==> Occurrences(SidesOf(b), SidesOf(b)[p].address) % 256 != 255
  {
    hide SidesOf, LoopsEnd;
    LoopsEndIff(addresses);
    var sides := SidesOf(b);
    if i :| 0 <= i < |addresses| && addresses[i].sequence == 255 {
      var p := OccurrenceAt(sides, addresses[i].address, 1);
      assert Occurrences(sides, sides[p].address) % 256 == 255;
    }
    if p :| 0 <= p < |sides| && Occurrences(sides, sides[p].address) % 256 == 255 {
      var i := ListedAt(addresses, sides, p);
    }
  }

  lemma LoopsEndIff(addresses: seq<AddressSequence>)
    ensures LoopsEnd(addresses) <==> forall i :: 0 <= i < |addresses| ==> addresses[i].sequence <= 254
  {
    hide LoopEnds;
    forall i | 0 <= i < |addresses|
      ensures LoopEnds(addresses[i].sequence) <==> addresses[i].sequence <= 254
    {
      ReorgLoopEnds(addresses[i].sequence);
    }
  }

  // ----- Chains -----

  type Chain = map<nat, BlockDetail>

  ghost predicate ChainOk(chain: Chain) {
    && (forall n :: n in chain ==> BlockOk(chain[n]) && chain[n].number == n)
    && (forall m, n :: m in chain && n in chain && m != n ==> chain[m].time != chain[n].time)
  }

  function Parts(chain: Chain): map<nat, Db> {
    map n | n in chain :: BlockPuts(chain[n])
  }

  /** The database is exactly the union of what the blocks of the chain put. */
  ghost predicate Represents(db: Db, chain: Chain) {
    IsUnion(db, Parts(chain))
  }

  /** A chain has at most one database, so two runs that index the same chain end up equal. */
  lemma RepresentsUnique(db: Db, db': Db, chain: Chain)
    requires Represents(db, chain) && Represents(db', chain)
    ensures db == db'
  {
    UnionUnique(db, db', Parts(chain));
  }

  // ----- Keys of different blocks -----

  predicate ShareAccount(a: BlockDetail, b: BlockDetail) {
    exists p, q :: 0 <= p < |SidesOf(a)| && 0 <= q < |SidesOf(b)| && SidesOf(a)[p].address == SidesOf(b)[q].address
  }

  /** Two blocks write to a common key exactly if they have the same time and share an account. */
  lemma CommonKeyIff(a: BlockDetail, b: BlockDetail)
    requires BlockOk(a) && BlockOk(b)
    ensures !(BlockPuts(a).Keys !! BlockPuts(b).Keys) <==> a.time == b.time && ShareAccount(a, b)
  {
    hide BlockPuts, BlockOk, SidesOf, Entries;
    if k :| k in BlockPuts(a) && k in BlockPuts(b) {
      PutShape(a, k);
      PutShape(b, k);
      SharedAccount(a, b, k);
    }
    if a.time == b.time && ShareAccount(a, b) {
      var p, q :| 0 <= p < |SidesOf(a)| && 0 <= q < |SidesOf(b)| && SidesOf(a)[p].address == SidesOf(b)[q].address;
      var k := FirstKeyOf(a, p);
      var l := FirstKeyOf(b, q);
    }
  }

  lemma SharedAccount(a: BlockDetail, b: BlockDetail, k: Bytes)
    requires BlockOk(a) && BlockOk(b) && k in BlockPuts(a) && k in BlockPuts(b)
    ensures ShareAccount(a, b)
  {
    hide BlockPuts, BlockOk, SidesOf, Entries;
    var p := EntryOfPut(a, k);
    var q := EntryOfPut(b, k);
    SidesAndEntries(a);
    SidesAndEntries(b);
    EntryOf(a, p);
    EntryOf(b, q);
    var e, f := Entries(a)[p], Entries(b)[q];
    AddressKeyOrder(e.address, e.time, e.sequence, f.address, f.time, f.sequence);
    assert SidesOf(a)[p].address == SidesOf(b)[q].address;
  }

  /** Of every account in the block, the block puts the key with sequence 1. */
  lemma FirstKeyOf(b: BlockDetail, p: nat) returns (k: Bytes)
    requires BlockOk(b) && p < |SidesOf(b)|
    ensures k == MarshallAddressKeyStr(SidesOf(b)[p].address, b.time, 1) && k in BlockPuts(b)
  {
    hide BlockPuts, BlockOk, SidesOf, Entries, EntryKey, MarshallAddressKeyStr;
    EntryOf(b, p);
    var q := OccurrenceAt(SidesOf(b), SidesOf(b)[p].address, 1);
    SideKey(b, q);
    k := EntryKey(b, q);
  }

  lemma DisjointKeys(a: BlockDetail, b: BlockDetail)
    requires BlockOk(a) && BlockOk(b) && a.time != b.time
    ensures BlockPuts(a).Keys !! BlockPuts(b).Keys
  {
    CommonKeyIff(a, b);
  }

  ghost predicate TimeFresh(chain: Chain, b: BlockDetail) {
    forall n :: n in chain && n != b.number ==> chain[n].time != b.time
  }

  // ----- Adding and removing blocks -----

  /**
    When putting a block extends the index by it, with no premise on times: exactly if every key
    it shares with another block has the same value there.
   */
  lemma AddBlockIff(db: Db, chain: Chain, b: BlockDetail)
    requires Represents(db, chain) && (b.number in chain ==> chain[b.number] == b)
    ensures Represents(db + BlockPuts(b), chain[b.number := b]) <==>
            forall m :: m in chain && m != b.number ==> Agree(BlockPuts(chain[m]), BlockPuts(b))
  {
    hide BlockPuts, IsUnion, Agree;
    UnionAdd(db, Parts(chain), b.number, BlockPuts(b));
    assert Parts(chain[b.number := b]) == Parts(chain)[b.number := BlockPuts(b)];
    forall m | m in chain
      ensures Parts(chain)[m] == BlockPuts(chain[m])
    {
    }
  }

  /**
    When deleting the keys of a block takes exactly that block out of the index, with no premise
    on times: exactly if no other block has both the same time and an account in common with it.
   */
  lemma RemoveBlockIff(db: Db, chain: Chain, n: nat)
    requires Represents(db, chain) && n in chain
    requires forall m :: m in chain ==> BlockOk(chain[m])
    ensures Represents(db - BlockPuts(chain[n]).Keys, chain - {n}) <==>
            forall m :: m in chain && m != n ==> !(chain[m].time == chain[n].time && ShareAccount(chain[m], chain[n]))
  {
    hide BlockPuts, BlockOk, IsUnion, ShareAccount;
    UnionRemove(db, Parts(chain), n);
    assert Parts(chain - {n}) == Parts(chain) - {n};
    forall m | m in chain
      ensures Parts(chain)[m] == BlockPuts(chain[m])
      ensures !(BlockPuts(chain[m]).Keys !! BlockPuts(chain[n]).Keys) <==>
              chain[m].time == chain[n].time && ShareAccount(chain[m], chain[n])
    {
      CommonKeyIff(chain[m], chain[n]);
    }
  }

  /** Putting a block with a time of its own that the chain does not have yet, or has in this very version. */
  lemma AddBlock(db: Db, chain: Chain, b: BlockDetail)
    requires ChainOk(chain) && Represents(db, chain)
    requires BlockOk(b) && TimeFresh(chain, b) && (b.number in chain ==> chain[b.number] == b)
    ensures ChainOk(chain[b.number := b]) && Represents(db + BlockPuts(b), chain[b.number := b])
  {
    hide BlockOk, BlockPuts, Represents;
    forall m | m in chain && m != b.number
      ensures Agree(BlockPuts(chain[m]), BlockPuts(b))
    {
      DisjointKeys(chain[m], b);
    }
    AddBlockIff(db, chain, b);
  }

  /** Deleting the keys of a block of the chain. */
  lemma RemoveBlock(db: Db, chain: Chain, n: nat)
    requires ChainOk(chain) && Represents(db, chain) && n in chain
    ensures ChainOk(chain - {n}) && Represents(db - BlockPuts(chain[n]).Keys, chain - {n})
  {
    hide BlockOk, BlockPuts, Represents;
    RemoveBlockIff(db, chain, n);
  }

  lemma OwnerOf(db: Db, chain: Chain, k: Bytes) returns (n: nat)
    requires Represents(db, chain) && k in db
    ensures n in chain && k in BlockPuts(chain[n]) && db[k] == BlockPuts(chain[n])[k]
  {
    hide BlockPuts;
    n :| n in Parts(chain) && k in Parts(chain)[n];
    WithinAt(Parts(chain)[n], db, k);
  }

  lemma HeldIn(db: Db, chain: Chain, n: nat, k: Bytes)
    requires Represents(db, chain) && n in chain && k in BlockPuts(chain[n])
    ensures k in db && db[k] == BlockPuts(chain[n])[k]
  {
    hide BlockPuts;
    assert Parts(chain)[n] == BlockPuts(chain[n]);
    WithinAt(Parts(chain)[n], db, k);
  }

  lemma RepresentedDbOk(db: Db, chain: Chain)
    requires ChainOk(chain) && Represents(db, chain)
    ensures AddressDbOk(db)
  {
    hide BlockOk, BlockPuts, Represents;
    forall k | k in db
      ensures |k| >= ADDRESS_LENGTH + TIMESTAMP_LENGTH && |db[k]| >= HASH_LENGTH + ADDRESS_LENGTH
    {
      var n := OwnerOf(db, chain, k);
      PutShape(chain[n], k);
    }
  }
}

/**
  What happens outside the premises of the main results: blocks with too many transactions of one
  account, blocks of equal times, and new versions of blocks whose record does not describe what
  is indexed.
 */
module Limits {
  import opened ByteStrings
  import opened Datetime
  import opened Types
  import opened ByteMarshaller
  import opened OrderedStore
  import opened IndexData
  import opened IndexRepo
  import opened ChainIndex
  import opened IndexRun

  // ----- Blocks of one account -----

  function Repeat<T>(x: T, count: nat): (r: seq<T>)
    ensures |r| == count
    ensures forall i :: 0 <= i < count ==> r[i] == x
  {
    if count == 0 then [] else Repeat(x, count - 1) + [x]
  }

  lemma RepeatFront<T>(x: T, count: nat)
    requires count > 0
    ensures Repeat(x, count)[..count - 1] == Repeat(x, count - 1)
  {
  }

  /** A block in which one account sends a number of transactions that create contracts. */
  function Burst(number: nat, time: int, account: Bytes, txHash: Bytes, count: nat): BlockDetail {
    BlockDetail(number, time, Repeat(TransactionDetail(account, [], txHash, 1), count))
  }

  function BurstSide(account: Bytes, txHash: Bytes): Side {
    Side(account, txHash, -1, AddressZero())
  }

  lemma {:induction false} BurstSides(account: Bytes, txHash: Bytes, count: nat)
    requires account != []
    ensures Sides(Repeat(TransactionDetail(account, [], txHash, 1), count)) ==
            Repeat(BurstSide(account, txHash), count)
  {
    hide Repeat, BurstSide;
    var tx, side := TransactionDetail(account, [], txHash, 1), BurstSide(account, txHash);
    if count == 0 {
      assert Repeat(tx, 0) == [] && Repeat(side, 0) == [];
    } else {
      BurstSides(account, txHash, count - 1);
      RepeatFront(tx, count);
      RepeatFront(side, count);
      SidesOfOne(account, txHash);
      assert Sides(Repeat(tx, count)) == Repeat(side, count - 1) + [side];
      assert Repeat(side, count) == Repeat(side, count)[..count - 1] + [side];
    }
  }

  lemma SidesOfOne(account: Bytes, txHash: Bytes)
    requires account != []
    ensures TransactionSides(TransactionDetail(account, [], txHash, 1)) == [BurstSide(account, txHash)]
  {
  }

  lemma {:induction false} AllOccur(side: Side, count: nat)
    ensures Occurrences(Repeat(side, count), side.address) == count
  {
    if count > 0 {
      AllOccur(side, count - 1);
      RepeatFront(side, count);
    }
  }

  /** What the main results ask of the account, the hash and the time of such a block. */
  predicate BurstOk(time: int, account: Bytes, txHash: Bytes) {
    TimeFits(time) && |account| == ADDRESS_LENGTH && |txHash| == HASH_LENGTH
  }

  lemma BurstIs(number: nat, time: int, account: Bytes, txHash: Bytes, count: nat)
    requires BurstOk(time, account, txHash)
    ensures var b := Burst(number, time, account, txHash, count);
      && b.number == number && b.time == time
      && BlockOk(b) && SidesOf(b) == Repeat(BurstSide(account, txHash), count)
      && Occurrences(SidesOf(b), account) == count
      && |Entries(b)| == count
  {
    hide Repeat;
    BurstSides(account, txHash, count);
    AllOccur(BurstSide(account, txHash), count);
  }

  lemma BurstSparse(number: nat, time: int, account: Bytes, txHash: Bytes, count: nat, bound: nat)
    requires BurstOk(time, account, txHash)
    ensures Sparse(Burst(number, time, account, txHash, count), bound) <==> count <= bound
  {
    hide Burst, BlockOk;
    BurstIs(number, time, account, txHash, count);
    var sides := SidesOf(Burst(number, time, account, txHash, count));
    if count > 0 {
      assert sides[0].address == account;
    }
    assert forall k :: 0 <= k < |sides| ==> sides[k].address == account;
  }

  /**
    The limits of the uint8 sequences, on one block for every count. Up to 254 transactions of the
    account all is well. With 255 the block is indexed, but undoing it never ends. With 256 the
    undo misses the key of the last one. From 257 on, the block itself loses transactions.
   */
  lemma BurstLimits(number: nat, time: int, account: Bytes, txHash: Bytes, count: nat,
                    addresses: seq<AddressSequence>)
    requires BurstOk(time, account, txHash)
    requires Describes(addresses, SidesOf(Burst(number, time, account, txHash, count)))
    ensures var b := Burst(number, time, account, txHash, count);
      && (LoopsEnd(addresses) <==> count % 256 != 255)
      && (ReorgKeys(time, addresses) == BlockPuts(b).Keys <==> count <= 255)
      && (|BlockPuts(b)| == count <==> count <= 256)
  {
    hide Describes, BlockOk, BlockPuts, ReorgKeys, LoopsEnd, Sparse, Entries, SidesOf;
    var b := Burst(number, time, account, txHash, count);
    BurstIs(number, time, account, txHash, count);
    ReorgEnds(b, addresses);
    ReorgKeyAgreement(b, addresses);
    NothingLost(b);
    BurstSparse(number, time, account, txHash, count, 255);
    BurstSparse(number, time, account, txHash, count, 256);
    if count > 0 {
      assert SidesOf(b)[0].address == account;
    }
  }

  // ----- Storing such blocks -----

  /** The record of such a block: the account, if it occurs, with its last sequence. */
  function BurstAttempt(account: Bytes, count: nat, createdAt: int): Attempt {
    Attempt(if count == 0 then [] else [AddressSequence(account, count % 256)], createdAt)
  }

  lemma BurstRecorded(number: nat, time: int, account: Bytes, txHash: Bytes, count: nat, createdAt: int)
    requires BurstOk(time, account, txHash) && TimeFits(createdAt)
    ensures AttemptOk(Burst(number, time, account, txHash, count), BurstAttempt(account, count, createdAt))
  {
    hide Burst, BlockOk;
    BurstIs(number, time, account, txHash, count);
    var sides := SidesOf(Burst(number, time, account, txHash, count));
    var addresses := BurstAttempt(account, count, createdAt).addresses;
    forall k | 0 <= k < |sides|
      ensures Lists(addresses, sides[k].address)
    {
      assert addresses[0].address == sides[k].address;
    }
  }

  /** A block with one transaction writes one key, and the value starts with the hash. */
  lemma OneKey(number: nat, time: int, account: Bytes, txHash: Bytes)
    requires BurstOk(time, account, txHash)
    ensures var puts, k := BlockPuts(Burst(number, time, account, txHash, 1)), MarshallAddressKeyStr(account, time, 1);
      puts.Keys == {k} && |puts[k]| >= HASH_LENGTH && puts[k][..HASH_LENGTH] == txHash
  {
    hide Burst, BlockOk, BlockPuts, MarshallAddressKeyStr, Entries, SidesOf, Number, BurstSide;
    BurstIs(number, time, account, txHash, 1);
    SideIs(account, txHash);
    OneEntry(Burst(number, time, account, txHash, 1));
  }

  lemma SideIs(account: Bytes, txHash: Bytes)
    ensures BurstSide(account, txHash).address == account && BurstSide(account, txHash).txHash == txHash
    ensures Repeat(BurstSide(account, txHash), 1) == [BurstSide(account, txHash)]
  {
    RepeatOnce(BurstSide(account, txHash));
  }

  lemma OneEntry(b: BlockDetail)
    requires BlockOk(b) && |SidesOf(b)| == 1
    ensures var puts, k := BlockPuts(b), MarshallAddressKeyStr(SidesOf(b)[0].address, b.time, 1);
      puts.Keys == {k} && |puts[k]| >= HASH_LENGTH && puts[k][..HASH_LENGTH] == SidesOf(b)[0].txHash
  {
    hide BlockOk, BlockPuts, MarshallAddressKeyStr, Entries, SidesOf, EntryFits;
    SideKey(b, 0);
    EntryOf(b, 0);
    NumberOfFirst(b);
    ValueStarts(Entries(b)[0]);
    forall k | k in BlockPuts(b)
      ensures k == EntryKey(b, 0) && BlockPuts(b)[k] == MarshallAddressValue(Entries(b)[0])
    {
      var p := EntryOfPut(b, k);
    }
  }

  lemma NumberOfFirst(b: BlockDetail)
    requires |SidesOf(b)| == 1
    ensures Number(b, 0) == 1
  {
    hide SidesOf, Repeat;
    var first := SidesOf(b)[0];
    assert SidesOf(b)[..0 + 1] == [first];
    AllOccur(first, 1);
    RepeatOnce(first);
  }

  lemma RepeatOnce<T>(x: T)
    ensures Repeat(x, 1) == [x]
  {
  }

  lemma ValueStarts(e: AddressIndex)
    requires EntryFits(e)
    ensures |MarshallAddressValue(e)| >= HASH_LENGTH && MarshallAddressValue(e)[..HASH_LENGTH] == e.txHash
  {
  }

  lemma NoKeys(number: nat, time: int, account: Bytes, txHash: Bytes)
    ensures BlockPuts(Burst(number, time, account, txHash, 0)) == map[]
  {
  }

  // ----- Equal times -----

  function TwoBlocks(a: BlockDetail, b: BlockDetail): Chain {
    map[a.number := a, b.number := b]
  }

  /** Two blocks of the same time with a transaction of the same account each: no database indexes both. */
  lemma EqualTimes(db: Db, m: nat, n: nat, time: int, account: Bytes, txHash: Bytes, txHash': Bytes)
    requires BurstOk(time, account, txHash) && |txHash'| == HASH_LENGTH && m != n && txHash != txHash'
    ensures !Represents(db, TwoBlocks(Burst(m, time, account, txHash, 1), Burst(n, time, account, txHash', 1)))
  {
    hide BlockPuts, Represents, MarshallAddressKeyStr;
    var chain := TwoBlocks(Burst(m, time, account, txHash, 1), Burst(n, time, account, txHash', 1));
    OneKey(m, time, account, txHash);
    OneKey(n, time, account, txHash');
    if Represents(db, chain) {
      HeldIn(db, chain, m, MarshallAddressKeyStr(account, time, 1));
      HeldIn(db, chain, n, MarshallAddressKeyStr(account, time, 1));
    }
  }

  /** A realtime store after others; None once one of them cannot be carried out. */
  function After(dbs: Option<Dbs>, b: BlockDetail, a: Attempt): Option<Dbs> {
    if dbs.Some? && CanStore(dbs.value.block, RecordOf(b, a)) then
      Some(Stored(dbs.value, Entries(b), RecordOf(b, a), false))
    else None
  }

  ghost predicate Indexed(dbs: Option<Dbs>, chain: Chain) {
    dbs.Some? && Represents(dbs.value.address, chain)
  }

  lemma AfterIs(dbs: Dbs, b: BlockDetail, a: Attempt)
    requires BlockOk(b) && AttemptOk(b, a) && CanUndo(dbs.block, Decimal(b.number))
    ensures BlockFits(RecordOf(b, a))
    ensures After(Some(dbs), b, a) ==
            Some(Dbs(dbs.address - KeysToUndo(dbs.block, Decimal(b.number)) + BlockPuts(b),
                     dbs.block[Decimal(b.number) := BlockValue(RecordOf(b, a))]))
  {
    hide BlockOk, AttemptOk, Stored, Undoable, BlockValue, KeysToUndo, BlockPuts, BlockFits;
    CanStoreOk(dbs.block, b, a);
    StoredIs(dbs, b, a);
  }

  /** The block under a number is just recorded: a realtime store of it can start, and undoes its keys. */
  lemma RecordedNow(block: Db, b: BlockDetail, a: Attempt)
    requires BlockOk(b) && AttemptOk(b, a) && Sparse(b, 254) && BlockFits(RecordOf(b, a))
    requires Decimal(b.number) in block && block[Decimal(b.number)] == BlockValue(RecordOf(b, a))
    ensures CanUndo(block, Decimal(b.number))
    ensures KeysToUndo(block, Decimal(b.number)) == BlockPuts(b).Keys
  {
    hide BlockOk, AttemptOk, BlockPuts, BlockValue, IsRecord, ReorgKeys, DecodedBlock, Sparse, Undoable;
    NewRecord(b, a);
    RecordUndoes(BlockValue(RecordOf(b, a)), b);
  }

  /**
    Storing a block of any number of transactions is right up to 256 of them, and a new version of
    it can be stored at all unless there are 255 of them modulo 256: then undoing never ends.
   */
  lemma BurstReorg(n: nat, time: int, account: Bytes, txHash: Bytes, count: nat, createdAt: int,
                   b: BlockDetail, a: Attempt)
    requires BurstOk(time, account, txHash) && TimeFits(createdAt) && BlockOk(b) && AttemptOk(b, a) && b.number == n
    ensures var burst := Burst(n, time, account, txHash, count);
      var stored := After(Some(EMPTY_DBS), burst, BurstAttempt(account, count, createdAt));
      && stored.Some?
      && (|stored.value.address| == count <==> count <= 256)
      && (After(stored, b, a).Some? <==> count % 256 != 255)
  {
    hide Burst, BlockOk, AttemptOk, BlockPuts, Represents, Stored, Sparse, BlockValue, BlockFits, Undoable, Decimal,
         BurstAttempt, KeysToUndo, IsRecord, Entries, SidesOf, Occurrences;
    var burst, first := Burst(n, time, account, txHash, count), BurstAttempt(account, count, createdAt);
    BurstIs(n, time, account, txHash, count);
    BurstRecorded(n, time, account, txHash, count, createdAt);
    BurstSparse(n, time, account, txHash, count, 256);
    NothingLost(burst);
    AfterIs(EMPTY_DBS, burst, first);
    NewRecord(burst, first);
    RecordUndoableIff(BlockValue(RecordOf(burst, first)), burst);
    NewRecord(b, a);
    var stored := After(Some(EMPTY_DBS), burst, first).value;
    assert stored.address == BlockPuts(burst);
    if count > 0 {
      assert SidesOf(burst)[0].address == account;
    }
  }

  /** A block with one transaction, and its record. */
  function One(number: nat, time: int, account: Bytes, txHash: Bytes): BlockDetail {
    Burst(number, time, account, txHash, 1)
  }

  const EMPTY_DBS: Dbs := Dbs(map[], map[])

  lemma OneIs(number: nat, time: int, account: Bytes, txHash: Bytes, createdAt: int)
    requires BurstOk(time, account, txHash) && TimeFits(createdAt)
    ensures var b, a := One(number, time, account, txHash), BurstAttempt(account, 1, createdAt);
      && b.number == number && b.time == time && BlockOk(b) && Sparse(b, 254) && AttemptOk(b, a)
      && BlockPuts(b).Keys == {MarshallAddressKeyStr(account, time, 1)}
  {
    hide Burst, BlockOk, AttemptOk, BlockPuts, Sparse, MarshallAddressKeyStr, BurstAttempt;
    BurstIs(number, time, account, txHash, 1);
    BurstSparse(number, time, account, txHash, 1, 254);
    BurstRecorded(number, time, account, txHash, 1, createdAt);
    OneKey(number, time, account, txHash);
  }

  lemma KeysOfTimes(account: Bytes, s: int, t: int)
    requires TimeFits(s) && TimeFits(t) && s != t
    ensures MarshallAddressKeyStr(account, s, 1) != MarshallAddressKeyStr(account, t, 1)
  {
    AddressKeyOrder(account, s, 1, account, t, 1);
  }

  /**
    Times that are equal only in passing: a reorganisation of two blocks whose first new block has
    the time of the second old one. The old two and the new two have distinct times, and all have a
    transaction of one account. Storing the second new block undoes the second old one, and with
    it the entry that the first new one has put under the same key.
   */
  lemma PassingEqualTimes(n: nat, t0: int, t1: int, t2: int, account: Bytes,
                          h0: Bytes, h1: Bytes, h2: Bytes, h3: Bytes, createdAt: int)
    requires BurstOk(t0, account, h0) && BurstOk(t1, account, h1)
    requires BurstOk(t1, account, h2) && BurstOk(t2, account, h3)
    requires t0 < t1 < t2 && TimeFits(createdAt)
    ensures var a := BurstAttempt(account, 1, createdAt);
      var first, second := One(n, t0, account, h0), One(n + 1, t1, account, h1);
      var first', second' := One(n, t1, account, h2), One(n + 1, t2, account, h3);
      var before := After(After(Some(EMPTY_DBS), first, a), second, a);
      var after := After(After(before, first', a), second', a);
      && Indexed(before, TwoBlocks(first, second))
      && after.Some? && !Indexed(after, TwoBlocks(first', second'))
  {
    hide Burst, BlockOk, AttemptOk, BlockPuts, Represents, MarshallAddressKeyStr, After, Sparse, BlockValue, BlockFits,
         Undoable, KeysToUndo, Decimal, One;
    var a := BurstAttempt(account, 1, createdAt);
    var first, second := One(n, t0, account, h0), One(n + 1, t1, account, h1);
    var first', second' := One(n, t1, account, h2), One(n + 1, t2, account, h3);
    OneIs(n, t0, account, h0, createdAt);
    OneIs(n + 1, t1, account, h1, createdAt);
    OneIs(n, t1, account, h2, createdAt);
    OneIs(n + 1, t2, account, h3, createdAt);
    var s2 := TwoStored(first, second, a);
    AfterNext(s2, first, second, first', second', a);
    KeysOfTimes(account, t1, t2);
    var after := After(After(Some(s2), first', a), second', a).value;
    if Represents(after.address, TwoBlocks(first', second')) {
      HeldIn(after.address, TwoBlocks(first', second'), n, MarshallAddressKeyStr(account, t1, 1));
    }
  }

  lemma TwoStored(first: BlockDetail, second: BlockDetail, a: Attempt) returns (s: Dbs)
    requires BlockOk(first) && AttemptOk(first, a) && BlockOk(second) && AttemptOk(second, a)
    requires second.number == first.number + 1 && first.time != second.time
    ensures After(After(Some(EMPTY_DBS), first, a), second, a) == Some(s)
    ensures Represents(s.address, TwoBlocks(first, second))
    ensures BlockFits(RecordOf(first, a)) && BlockFits(RecordOf(second, a))
    ensures Decimal(first.number) in s.block && s.block[Decimal(first.number)] == BlockValue(RecordOf(first, a))
    ensures Decimal(second.number) in s.block && s.block[Decimal(second.number)] == BlockValue(RecordOf(second, a))
  {
    hide BlockOk, AttemptOk, BlockPuts, Represents, After, BlockValue, BlockFits, Undoable, Decimal;
    if Decimal(first.number) == Decimal(second.number) {
      DecimalInjective(first.number, second.number);
    }
    AfterIs(EMPTY_DBS, first, a);
    var s1 := After(Some(EMPTY_DBS), first, a).value;
    AfterIs(s1, second, a);
    s := After(Some(s1), second, a).value;
    EmptyIndexed();
    AddBlock(map[], map[], first);
    assert s1.address == map[] + BlockPuts(first);
    AddBlock(s1.address, map[first.number := first], second);
    assert s.address == s1.address + BlockPuts(second);
  }

  lemma EmptyIndexed()
    ensures ChainOk(map[]) && Represents(map[], map[])
  {
    EmptyInv();
    assert EMPTY_INDEX.dbs.address + EMPTY_INDEX.view.missing == map[];
  }

  lemma AfterNext(s: Dbs, first: BlockDetail, second: BlockDetail, first': BlockDetail, second': BlockDetail,
                  a: Attempt)
    requires BlockOk(first) && AttemptOk(first, a) && Sparse(first, 254) && BlockFits(RecordOf(first, a))
    requires BlockOk(second) && AttemptOk(second, a) && Sparse(second, 254) && BlockFits(RecordOf(second, a))
    requires BlockOk(first') && AttemptOk(first', a) && BlockOk(second') && AttemptOk(second', a)
    requires first'.number == first.number && second'.number == second.number == first.number + 1
    requires Decimal(first.number) in s.block && s.block[Decimal(first.number)] == BlockValue(RecordOf(first, a))
    requires Decimal(second.number) in s.block && s.block[Decimal(second.number)] == BlockValue(RecordOf(second, a))
    ensures var after := After(After(Some(s), first', a), second', a);
      after.Some? && forall k :: k in BlockPuts(second) && k !in BlockPuts(second') ==> k !in after.value.address
  {
    hide BlockOk, AttemptOk, BlockPuts, After, BlockValue, BlockFits, Undoable, Decimal, Sparse, KeysToUndo;
    if Decimal(first.number) == Decimal(second.number) {
      DecimalInjective(first.number, second.number);
    }
    RecordedNow(s.block, first, a);
    AfterIs(s, first', a);
    var s' := After(Some(s), first', a).value;
    RecordedNow(s'.block, second, a);
    AfterIs(s', second', a);
  }

  // ----- Versions without their record -----

  lemma EmptyVersion(number: nat, time: int, account: Bytes, txHash: Bytes, createdAt: int)
    requires BurstOk(time, account, txHash) && TimeFits(createdAt)
    ensures var b, a := Burst(number, time, account, txHash, 0), BurstAttempt(account, 0, createdAt);
      b.number == number && BlockOk(b) && AttemptOk(b, a) && BlockPuts(b) == map[]
  {
    hide BlockOk, AttemptOk, BlockPuts, BurstAttempt, Burst;
    BurstIs(number, time, account, txHash, 0);
    BurstRecorded(number, time, account, txHash, 0, createdAt);
    NoKeys(number, time, account, txHash);
  }

  lemma OnlyItsKeys(db: Db, n: nat, b: BlockDetail, k: Bytes)
    requires k in db && k !in BlockPuts(b)
    ensures !Represents(db, map[n := b])
  {
    hide BlockPuts, Represents;
    if Represents(db, map[n := b]) {
      var m := OwnerOf(db, map[n := b], k);
    }
  }

  /** A block with one transaction, stored in batch mode, and a new version without transactions: the entry stays. */
  lemma NoRecord(n: nat, t0: int, t1: int, account: Bytes, txHash: Bytes, createdAt: int)
    requires BurstOk(t0, account, txHash) && TimeFits(t1) && TimeFits(createdAt)
    ensures var empty := Burst(n, t1, account, txHash, 0);
      var stored := PutEntries(EMPTY_DBS, Entries(One(n, t0, account, txHash)));
      var after := After(Some(stored), empty, BurstAttempt(account, 0, createdAt));
      after.Some? && !Indexed(after, map[n := empty])
  {
    hide Burst, BlockOk, AttemptOk, BlockPuts, Represents, MarshallAddressKeyStr, After, Sparse, BlockValue, BlockFits,
         Undoable, Decimal, BurstAttempt, Entries, PutEntries;
    var first, empty := One(n, t0, account, txHash), Burst(n, t1, account, txHash, 0);
    OneKey(n, t0, account, txHash);
    EmptyVersion(n, t1, account, txHash, createdAt);
    PutEntriesAdds(EMPTY_DBS, first);
    var stored := PutEntries(EMPTY_DBS, Entries(first));
    AfterIs(stored, empty, BurstAttempt(account, 0, createdAt));
    OnlyItsKeys(After(Some(stored), empty, BurstAttempt(account, 0, createdAt)).value.address, n, empty,
                   MarshallAddressKeyStr(account, t0, 1));
  }

  /** A block with one transaction, and then a batch store of a version with another time: the entry stays. */
  lemma BatchVersion(n: nat, t0: int, t1: int, account: Bytes, txHash: Bytes, createdAt: int)
    requires BurstOk(t0, account, txHash) && TimeFits(t1) && TimeFits(createdAt) && t0 != t1
    ensures var first, second := One(n, t0, account, txHash), One(n, t1, account, txHash);
      var stored := After(Some(EMPTY_DBS), first, BurstAttempt(account, 1, createdAt));
      && Indexed(stored, map[n := first])
      && !Indexed(Some(PutEntries(stored.value, Entries(second))), map[n := second])
  {
    hide Burst, BlockOk, AttemptOk, BlockPuts, Represents, MarshallAddressKeyStr, After, Sparse, BlockValue, BlockFits,
         Undoable, Decimal, BurstAttempt, Entries, PutEntries, One;
    var first, second := One(n, t0, account, txHash), One(n, t1, account, txHash);
    OneIs(n, t0, account, txHash, createdAt);
    OneIs(n, t1, account, txHash, createdAt);
    AfterIs(EMPTY_DBS, first, BurstAttempt(account, 1, createdAt));
    var stored := After(Some(EMPTY_DBS), first, BurstAttempt(account, 1, createdAt)).value;
    EmptyIndexed();
    AddBlock(map[], map[], first);
    assert stored.address == map[] + BlockPuts(first);
    PutEntriesAdds(stored, second);
    KeysOfTimes(account, t0, t1);
    OnlyItsKeys(stored.address + BlockPuts(second), n, second, MarshallAddressKeyStr(account, t0, 1));
  }

  /**
    A store of a new version cut off before its record, and then yet another version instead of a
    retry: what is undone is the first version, and the entry of the second one stays.
   */
  lemma StaleRecord(n: nat, t0: int, t1: int, t2: int, account: Bytes, txHash: Bytes, createdAt: int)
    requires BurstOk(t0, account, txHash) && TimeFits(t1) && TimeFits(t2) && TimeFits(createdAt) && t0 != t1
    ensures var a, empty := BurstAttempt(account, 1, createdAt), Burst(n, t2, account, txHash, 0);
      var first, second := One(n, t0, account, txHash), One(n, t1, account, txHash);
      var stored := After(Some(EMPTY_DBS), first, a);
      && stored.Some? && CanStore(stored.value.block, RecordOf(second, a))
      && var crashed := CutOff(stored.value, Entries(second), RecordOf(second, a), 2);
         var after := After(Some(crashed), empty, BurstAttempt(account, 0, createdAt));
         after.Some? && !Indexed(after, map[n := empty])
  {
    hide Burst, BlockOk, AttemptOk, BlockPuts, Represents, MarshallAddressKeyStr, After, Sparse, BlockValue, BlockFits,
         Undoable, Decimal, BurstAttempt, Entries, KeysToUndo, One, CanStore, CutOff;
    var a, empty := BurstAttempt(account, 1, createdAt), Burst(n, t2, account, txHash, 0);
    var first, second := One(n, t0, account, txHash), One(n, t1, account, txHash);
    OneIs(n, t0, account, txHash, createdAt);
    OneIs(n, t1, account, txHash, createdAt);
    EmptyVersion(n, t2, account, txHash, createdAt);
    AfterIs(EMPTY_DBS, first, a);
    var stored := After(Some(EMPTY_DBS), first, a).value;
    RecordedNow(stored.block, first, a);
    CanStoreOk(stored.block, second, a);
    CutOffIs(stored, second, a, 2);
    var crashed := CutOff(stored, Entries(second), RecordOf(second, a), 2);
    AfterIs(crashed, empty, BurstAttempt(account, 0, createdAt));
    KeysOfTimes(account, t0, t1);
    OnlyItsKeys(After(Some(crashed), empty, BurstAttempt(account, 0, createdAt)).value.address, n, empty,
                   MarshallAddressKeyStr(account, t1, 1));
  }
}

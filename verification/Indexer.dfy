/** indexer/indexer.go: storing fetched blocks, the batch workers, and the batches to run after a restart. */
module Indexer {
  import opened ByteStrings
  import opened Datetime
  import opened Types
  import opened ByteMarshaller
  import opened OrderedStore
  import opened Dao
  import opened IndexData
  import opened IndexRepo
  import opened BatchStatuses
  import opened BatchRepo

  // ----- What a worker does -----

  /** The numbers a worker gets through: up to the first one that cannot be fetched. */
  function Fetched(visits: seq<nat>, fetch: nat -> Option<BlockDetail>): (done: seq<nat>)
    ensures done <= visits
    ensures forall i :: 0 <= i < |done| ==> fetch(done[i]).Some?
    ensures |done| < |visits| ==> fetch(visits[|done|]).None?
  {
    if visits == [] || fetch(visits[0]).None? then [] else [visits[0]] + Fetched(visits[1..], fetch)
  }

  /** The address database after batch stores of the given blocks, one by one. */
  function StoreAll(db: Db, done: seq<nat>, fetch: nat -> Option<BlockDetail>): Db
    requires forall i :: 0 <= i < |done| ==> fetch(done[i]).Some?
  {
    if done == [] then db
    else
      var n := |done| - 1;
      PutAll(StoreAll(db, done[..n], fetch), Records(Entries(fetch(done[n]).value)))
  }

  /** The batch database after the worker's updates: the last one counts. */
  function Progress(db: Db, b: Batch, done: seq<nat>, clock: nat -> int): Db {
    if done == [] then db
    else
      var n := done[|done| - 1];
      Updated(db, b.(current := Some(n), updatedAt := clock(n)))
  }

  // ----- Which batches run after a restart -----

  /** Unfinished batches go on; the one that starts at the last known block is extended to the latest. */
  function Pending(statuses: seq<Batch>, lastBlockNum: nat, latestBlock: nat): seq<Batch> {
    if statuses == [] then []
    else
      var b := statuses[|statuses| - 1];
      Pending(statuses[..|statuses| - 1], lastBlockNum, latestBlock) +
      if Done(b) then []
      else [if b.key.from == lastBlockNum then b.(key := b.key.(to := latestBlock)) else b]
  }

  predicate StartsAt(b: Batch, lastBlockNum: nat) {
    !Done(b) && b.key.from == lastBlockNum
  }

  predicate Found(statuses: seq<Batch>, lastBlockNum: nat) {
    exists i :: 0 <= i < |statuses| && StartsAt(statuses[i], lastBlockNum)
  }

  /** Unless some unfinished batch starts at the last known block, a new one does. */
  function RestartBatches(statuses: seq<Batch>, lastBlockNum: nat, latestBlock: nat, now: nat): seq<Batch> {
    Pending(statuses, lastBlockNum, latestBlock) +
    if Found(statuses, lastBlockNum) then [] else [Batch(BatchKey(lastBlockNum, latestBlock, 1, now), None, 0)]
  }

  /** The number of the last record of the block database; 0 when there is none. */
  ghost function LastNumber(block: Db): nat
    requires BlockDbOk(block)
  {
    if block == map[] then 0 else UnmarshallBlockKey(LastKey(block))
  }

  predicate RealtimeOk(block: Db, b: BlockDetail, now: int) {
    && |MarshallTime(now)| <= TIMESTAMP_LENGTH && |MarshallTime(b.time)| <= TIMESTAMP_LENGTH
    && (forall k :: 0 <= k < |Sides(b.transactions)| ==> |Sides(b.transactions)[k].address| <= ADDRESS_LENGTH)
    && (Decimal(b.number) in block ==> Undoable(block[Decimal(b.number)]))
  }

  lemma RecordFits(b: BlockDetail, blockIndex: BlockIndex, block: Db)
    requires RealtimeOk(block, b, blockIndex.createdAt)
    requires blockIndex.blockNumber == Decimal(b.number) && blockIndex.time == b.time
    requires Describes(blockIndex.addresses, Sides(b.transactions))
    ensures CanStore(block, blockIndex)
  {
    hide Undoable;
    forall i | 0 <= i < |blockIndex.addresses|
      ensures |blockIndex.addresses[i].address| <= ADDRESS_LENGTH
    {
      var p := OccurrenceAt(Sides(b.transactions), blockIndex.addresses[i].address, 1);
    }
  }

  class Indexer {
    const indexRepo: KVIndexRepo
    const batchRepo: KVBatchRepo

    ghost predicate Valid() {
      && indexRepo.Valid()
      && batchRepo.batchDAO != indexRepo.addressDAO && batchRepo.batchDAO != indexRepo.blockDAO
    }

    constructor (indexRepo: KVIndexRepo, batchRepo: KVBatchRepo)
      requires indexRepo.Valid()
      requires batchRepo.batchDAO != indexRepo.addressDAO && batchRepo.batchDAO != indexRepo.blockDAO
      ensures Valid() && this.indexRepo == indexRepo && this.batchRepo == batchRepo
    {
      this.indexRepo, this.batchRepo := indexRepo, batchRepo;
    }

    /** A batch store puts the entries of the block; a realtime store also keeps a record that describes it. */
    method ProcessBlock(blockDetail: BlockDetail, isBatch: bool, now: int)
      requires Valid()
      requires !isBatch ==> RealtimeOk(indexRepo.blockDAO.db, blockDetail, now)
      modifies indexRepo, indexRepo.addressDAO, indexRepo.blockDAO
      ensures isBatch ==> indexRepo.State() == PutEntries(old(indexRepo.State()), Entries(blockDetail))
      ensures !isBatch ==> exists blockIndex: BlockIndex ::
        && Describes(blockIndex.addresses, Sides(blockDetail.transactions))
        && blockIndex.blockNumber == Decimal(blockDetail.number)
        && blockIndex.time == blockDetail.time && blockIndex.createdAt == now
        && CanStore(old(indexRepo.State()).block, blockIndex)
        && indexRepo.State() == Stored(old(indexRepo.State()), Entries(blockDetail), blockIndex, false)
    {
      hide CanStore, RealtimeOk, Describes;
      var addressIndex, blockIndex := CreateIndexData(blockDetail, now);
      if !isBatch {
        RecordFits(blockDetail, blockIndex, indexRepo.blockDAO.db);
      }
      indexRepo.Store(addressIndex, blockIndex, isBatch);
    }

    /** The batches to run when indexing starts: the initial ones, or those that a restart has to go on with. */
    method GetBatches(latestBlock: nat, numBatch: nat, now: nat) returns (batches: seq<Batch>)
      requires Valid() && BatchDbOk(batchRepo.batchDAO.db) && BlockDbOk(indexRepo.blockDAO.db)
      modifies batchRepo.batchDAO
      ensures batchRepo.batchDAO.db == old(batchRepo.batchDAO.db)
      ensures var statuses := Statuses(batchRepo.batchDAO.db);
        if statuses == [] then
          |batches| == numBatch && forall i :: 0 <= i < numBatch ==>
            batches[i] == InitBatch(numBatch, 0, latestBlock, now, i)
        else
          batches == RestartBatches(statuses, LastNumber(indexRepo.blockDAO.db), latestBlock, now)
    {
      hide Statuses, BatchDbOk, BlockDbOk, InitBatch;
      var allBatches := batchRepo.GetAllBatchStatuses();
      if |allBatches| == 0 {
        batches := GetInitBatches(numBatch, 0, latestBlock, now);
        return;
      }
      var lastBlockNum := LastBlockNumber();
      allBatches := batchRepo.GetAllBatchStatuses();
      var found := false;
      batches := [];
      for i := 0 to |allBatches|
        invariant batchRepo.batchDAO.db == old(batchRepo.batchDAO.db)
        invariant batches == Pending(allBatches[..i], lastBlockNum, latestBlock)
        invariant found <==> Found(allBatches[..i], lastBlockNum)
      {
        PendingStep(allBatches, i, lastBlockNum, latestBlock);
        var batch := new BatchStatus(allBatches[i]);
        if !batch.IsDone() {
          if lastBlockNum == batch.key.from {
            batch.key := batch.key.(to := latestBlock);
            batchRepo.ReplaceBatch(batch.key.from, latestBlock);
            found := true;
          }
          batches := batches + [batch.Value()];
        }
      }
      assert allBatches[..|allBatches|] == allBatches;
      if !found {
        batches := batches + [Batch(BatchKey(lastBlockNum, latestBlock, 1, now), None, 0)];
      }
    }

    /** The number of the last block record; the parse of the empty text leaves 0. */
    method LastBlockNumber() returns (n: nat)
      requires BlockDbOk(indexRepo.blockDAO.db)
      ensures n == LastNumber(indexRepo.blockDAO.db)
    {
      var lastBlock := indexRepo.GetLastBlock();
      if lastBlock.None? {
        return 0;
      }
      DecimalRoundTrip(UnmarshallBlockKey(LastKey(indexRepo.blockDAO.db)));
      n := ParseDecimal(lastBlock.value.blockNumber);
    }

    /**
      One worker: takes the batch through its numbers until it is done or a block cannot be
      fetched, storing each block and then persisting the batch. The stop channel is polled every
      ten blocks, but the break there only leaves the select, so it has no effect.
     */
    method BatchIndex(batch0: Batch, fetch: nat -> Option<BlockDetail>, clock: nat -> int)
      requires Valid() && batch0.key.step > 0
      modifies indexRepo, indexRepo.addressDAO, indexRepo.blockDAO, batchRepo.batchDAO
      ensures var done := Fetched(Visits(batch0), fetch);
        && indexRepo.addressDAO.db == StoreAll(old(indexRepo.addressDAO.db), done, fetch)
        && batchRepo.batchDAO.db == Progress(old(batchRepo.batchDAO.db), batch0, done, clock)
      ensures indexRepo.blockDAO.db == old(indexRepo.blockDAO.db)
    {
      hide WorkState, Fetched, StoreAll, Progress, Visits, PutAll, Entries, Records, Updated;
      var batch := new BatchStatus(batch0);
      ghost var addr0, bat0 := indexRepo.addressDAO.db, batchRepo.batchDAO.db;
      ghost var block0 := indexRepo.blockDAO.db;
      ghost var done: seq<nat> := [];
      WorkStarts(batch0, fetch, clock, addr0, bat0);
      while !batch.IsDone()
        invariant batch.key.step > 0
        invariant WorkState(batch0, fetch, clock, addr0, bat0, done, batch.Value(), indexRepo.addressDAO.db,
                            batchRepo.batchDAO.db)
        invariant indexRepo.blockDAO.db == block0
        decreases |Visits(batch.Value())|
      {
        ghost var before := batch.Value();
        VisitsStep(before);
        var blockNumber := batch.Next();
        var blockDetail := fetch(blockNumber);
        if blockDetail.None? {
          WorkEnds(batch0, fetch, clock, addr0, bat0, done, before, indexRepo.addressDAO.db, batchRepo.batchDAO.db);
          return;
        }
        WorkGoesOn(batch0, fetch, clock, addr0, bat0, done, before, indexRepo.addressDAO.db, batchRepo.batchDAO.db);
        VisitsIgnoreTime(before.(current := Some(blockNumber)), clock(blockNumber));
        ProcessBlock(blockDetail.value, true, 0);
        batch.updatedAt := clock(blockNumber);
        var ok := batchRepo.UpdateBatch(batch.Value());
        done := done + [blockNumber];
      }
      WorkEnds(batch0, fetch, clock, addr0, bat0, done, batch.Value(), indexRepo.addressDAO.db, batchRepo.batchDAO.db);
    }
  }

  // ----- What a restart runs -----

  /** Every unfinished batch goes on as it was, but that the one from the last known block ends at the latest one. */
  lemma RestartGoesOn(statuses: seq<Batch>, lastBlockNum: nat, latestBlock: nat, now: nat, i: nat)
    requires i < |statuses| && !Done(statuses[i])
    ensures exists b ::
      && b in RestartBatches(statuses, lastBlockNum, latestBlock, now)
      && b.key.from == statuses[i].key.from && b.key.step == statuses[i].key.step
      && b.key.createdAt == statuses[i].key.createdAt
      && b.current == statuses[i].current && b.updatedAt == statuses[i].updatedAt
      && b.key.to == if statuses[i].key.from == lastBlockNum then latestBlock else statuses[i].key.to
  {
    var b := PendingOf(statuses, lastBlockNum, latestBlock, i);
    assert b in RestartBatches(statuses, lastBlockNum, latestBlock, now);
  }

  lemma {:induction false} PendingOf(statuses: seq<Batch>, lastBlockNum: nat, latestBlock: nat, i: nat)
    returns (b: Batch)
    requires i < |statuses| && !Done(statuses[i])
    ensures b in Pending(statuses, lastBlockNum, latestBlock)
    ensures b.key.from == statuses[i].key.from && b.key.step == statuses[i].key.step
    ensures b.key.createdAt == statuses[i].key.createdAt
    ensures b.current == statuses[i].current && b.updatedAt == statuses[i].updatedAt
    ensures b.key.to == if statuses[i].key.from == lastBlockNum then latestBlock else statuses[i].key.to
  {
    hide Done;
    var n := |statuses| - 1;
    if i < n {
      b := PendingOf(statuses[..n], lastBlockNum, latestBlock, i);
    } else {
      var kept := statuses[n];
      b := if kept.key.from == lastBlockNum then kept.(key := kept.key.(to := latestBlock)) else kept;
    }
  }

  /**
    Catching up: unless an unfinished batch starts at the last known block, every number from that
    block to the latest one is visited by some batch of the restart.
   */
  lemma RestartCatchesUp(statuses: seq<Batch>, lastBlockNum: nat, latestBlock: nat, now: nat, n: nat)
    requires forall i :: 0 <= i < |statuses| && statuses[i].key.from == lastBlockNum ==> Done(statuses[i])
    requires lastBlockNum <= n <= latestBlock
    ensures exists b ::
      b in RestartBatches(statuses, lastBlockNum, latestBlock, now) && b.key.step > 0 && n in Visits(b)
  {
    hide Visits, Pending, Done;
    assert !Found(statuses, lastBlockNum);
    var b := Batch(BatchKey(lastBlockNum, latestBlock, 1, now), None, 0);
    assert b in RestartBatches(statuses, lastBlockNum, latestBlock, now);
    VisitsFresh(b, n);
    EveryNumber(lastBlockNum, n);
  }

  lemma {:induction false} EveryNumber(from: nat, n: nat)
    requires from <= n
    ensures OnStride(from, 1, n)
    decreases n
  {
    if n > from {
      EveryNumber(from, n - 1);
    }
  }

  /** b is the unfinished batch of a status, ending at the latest block if it starts at the last known one. */
  predicate GoesOnAs(status: Batch, b: Batch, lastBlockNum: nat, latestBlock: nat) {
    && !Done(status)
    && b == status.(key := status.key.(to := b.key.to))
    && b.key.to == if status.key.from == lastBlockNum then latestBlock else status.key.to
  }

  /**
    A restart forgets what was never persisted: every batch it runs is an unfinished persisted one,
    with at most its end moved to the latest block, or, if none of these starts at the last known
    block, the one batch that goes from there to the latest block in steps of one.
   */
  lemma RestartOnlyPersisted(statuses: seq<Batch>, lastBlockNum: nat, latestBlock: nat, now: nat, b: Batch)
    requires b in RestartBatches(statuses, lastBlockNum, latestBlock, now)
    ensures
      || (exists i :: 0 <= i < |statuses| && GoesOnAs(statuses[i], b, lastBlockNum, latestBlock))
      || (&& (forall i :: 0 <= i < |statuses| && statuses[i].key.from == lastBlockNum ==> Done(statuses[i]))
          && b.key == BatchKey(lastBlockNum, latestBlock, 1, now) && b.current.None?)
  {
    hide Done;
    if b in Pending(statuses, lastBlockNum, latestBlock) {
      var i := PendingFrom(statuses, lastBlockNum, latestBlock, b);
    } else {
      assert !Found(statuses, lastBlockNum);
      forall i | 0 <= i < |statuses| && statuses[i].key.from == lastBlockNum
        ensures Done(statuses[i])
      {
        assert !StartsAt(statuses[i], lastBlockNum);
      }
    }
  }

  lemma {:induction false} PendingFrom(statuses: seq<Batch>, lastBlockNum: nat, latestBlock: nat, b: Batch)
    returns (i: nat)
    requires b in Pending(statuses, lastBlockNum, latestBlock)
    ensures i < |statuses| && GoesOnAs(statuses[i], b, lastBlockNum, latestBlock)
  {
    hide Done;
    var n := |statuses| - 1;
    if b in Pending(statuses[..n], lastBlockNum, latestBlock) {
      i := PendingFrom(statuses[..n], lastBlockNum, latestBlock, b);
    } else {
      i := n;
    }
  }

  /** One batch runs for each unfinished one, and one more unless one of these starts at the last known block. */
  lemma RestartCount(statuses: seq<Batch>, lastBlockNum: nat, latestBlock: nat, now: nat)
    ensures |RestartBatches(statuses, lastBlockNum, latestBlock, now)| ==
            |set i | 0 <= i < |statuses| && !Done(statuses[i])|
            + if exists i :: 0 <= i < |statuses| && !Done(statuses[i]) && statuses[i].key.from == lastBlockNum
              then 0 else 1
  {
    hide Done, Pending;
    PendingCount(statuses, lastBlockNum, latestBlock);
    if i :| 0 <= i < |statuses| && !Done(statuses[i]) && statuses[i].key.from == lastBlockNum {
      assert StartsAt(statuses[i], lastBlockNum);
    }
  }

  lemma {:induction false} PendingCount(statuses: seq<Batch>, lastBlockNum: nat, latestBlock: nat)
    ensures |Pending(statuses, lastBlockNum, latestBlock)| == |set i | 0 <= i < |statuses| && !Done(statuses[i])|
  {
    hide Done;
    if statuses != [] {
      var n := |statuses| - 1;
      PendingCount(statuses[..n], lastBlockNum, latestBlock);
      var shorter := set i | 0 <= i < |statuses[..n]| && !Done(statuses[..n][i]);
      var longer := set i | 0 <= i < |statuses| && !Done(statuses[i]);
      assert longer == shorter + if Done(statuses[n]) then {} else {n};
    }
  }

  /** The last known number is that of the last record, and 0 without one. */
  lemma LastNumberIs(block: Db, n: nat)
    requires BlockDbOk(block) && if block == map[] then n == 0 else IsLastKey(Decimal(n), block)
    ensures LastNumber(block) == n
  {
    if block == map[] {
      return;
    }
    LastKeyUnique(LastKey(block), Decimal(n), block);
    NumberRoundTrip(n);
  }

  // ----- Lemmas behind the methods -----

  lemma PendingStep(statuses: seq<Batch>, i: nat, lastBlockNum: nat, latestBlock: nat)
    requires i < |statuses|
    ensures Pending(statuses[..i + 1], lastBlockNum, latestBlock) ==
            Pending(statuses[..i], lastBlockNum, latestBlock) +
            if Done(statuses[i]) then []
            else [if statuses[i].key.from == lastBlockNum
                  then statuses[i].(key := statuses[i].key.(to := latestBlock)) else statuses[i]]
    ensures Found(statuses[..i + 1], lastBlockNum) <==>
            Found(statuses[..i], lastBlockNum) || StartsAt(statuses[i], lastBlockNum)
  {
    hide StartsAt, Done;
    var longer, shorter := statuses[..i + 1], statuses[..i];
    assert longer[..i] == shorter;
    if Found(shorter, lastBlockNum) {
      var j :| 0 <= j < i && StartsAt(shorter[j], lastBlockNum);
      assert longer[j] == shorter[j];
    }
    if Found(longer, lastBlockNum) && !StartsAt(longer[i], lastBlockNum) {
      var j :| 0 <= j < i + 1 && StartsAt(longer[j], lastBlockNum);
      assert longer[j] == shorter[j];
    }
    assert longer[i] == statuses[i];
  }

  /** The state of a worker that has got through the given numbers. */
  ghost predicate WorkState(batch0: Batch, fetch: nat -> Option<BlockDetail>, clock: nat -> int, addr0: Db, bat0: Db,
                            done: seq<nat>, b: Batch, addr: Db, bat: Db)
  {
    && b.key == batch0.key && b.key.step > 0
    && (forall i :: 0 <= i < |done| ==> fetch(done[i]).Some?)
    && Fetched(Visits(batch0), fetch) == done + Fetched(Visits(b), fetch)
    && addr == StoreAll(addr0, done, fetch)
    && bat == Progress(bat0, batch0, done, clock)
  }

  lemma WorkStarts(batch0: Batch, fetch: nat -> Option<BlockDetail>, clock: nat -> int, addr0: Db, bat0: Db)
    requires batch0.key.step > 0
    ensures WorkState(batch0, fetch, clock, addr0, bat0, [], batch0, addr0, bat0)
  {
    hide Visits;
    assert [] + Fetched(Visits(batch0), fetch) == Fetched(Visits(batch0), fetch);
  }

  lemma WorkGoesOn(batch0: Batch, fetch: nat -> Option<BlockDetail>, clock: nat -> int, addr0: Db, bat0: Db,
                   done: seq<nat>, b: Batch, addr: Db, bat: Db)
    requires WorkState(batch0, fetch, clock, addr0, bat0, done, b, addr, bat)
    requires !Done(b) && fetch(NextNumber(b)).Some?
    ensures var n := NextNumber(b);
      WorkState(batch0, fetch, clock, addr0, bat0, done + [n], b.(current := Some(n), updatedAt := clock(n)),
                PutAll(addr, Records(Entries(fetch(n).value))),
                Updated(bat, b.(current := Some(n), updatedAt := clock(n))))
  {
    hide Visits, Fetched, StoreAll, PutAll, Entries, Records, EncodeKey, EncodeValue;
    var n := NextNumber(b);
    FetchedStep(b, fetch, clock(n));
    StoreAllStep(addr0, done, n, fetch);
    var rest := Fetched(Visits(b.(current := Some(n), updatedAt := clock(n))), fetch);
    assert done + ([n] + rest) == (done + [n]) + rest;
    assert (done + [n])[|done|] == n;
    if done != [] {
      UpdatedTwice(bat0, batch0, done[|done| - 1], clock(done[|done| - 1]), n, clock(n));
    }
  }

  lemma FetchedStep(b: Batch, fetch: nat -> Option<BlockDetail>, t: int)
    requires b.key.step > 0 && !Done(b) && fetch(NextNumber(b)).Some?
    ensures var n := NextNumber(b);
      Fetched(Visits(b), fetch) == [n] + Fetched(Visits(b.(current := Some(n), updatedAt := t)), fetch)
  {
    var n := NextNumber(b);
    VisitsStep(b);
    VisitsIgnoreTime(b.(current := Some(n)), t);
    hide Visits;
    assert Visits(b)[1..] == Visits(b.(current := Some(n), updatedAt := t));
  }

  lemma StoreAllStep(db: Db, done: seq<nat>, n: nat, fetch: nat -> Option<BlockDetail>)
    requires forall i :: 0 <= i < |done| ==> fetch(done[i]).Some?
    requires fetch(n).Some?
    ensures StoreAll(db, done + [n], fetch) == PutAll(StoreAll(db, done, fetch), Records(Entries(fetch(n).value)))
  {
    assert (done + [n])[..|done|] == done;
  }

  /** A later update of a batch takes the place of the earlier one. */
  lemma UpdatedTwice(db: Db, b: Batch, m: nat, s: int, n: nat, t: int)
    ensures Updated(Updated(db, b.(current := Some(m), updatedAt := s)), b.(current := Some(n), updatedAt := t)) ==
            Updated(db, b.(current := Some(n), updatedAt := t))
  {
  }

  /** Nothing more is fetched once the batch is done or a fetch fails. */
  lemma WorkEnds(batch0: Batch, fetch: nat -> Option<BlockDetail>, clock: nat -> int, addr0: Db, bat0: Db,
                 done: seq<nat>, b: Batch, addr: Db, bat: Db)
    requires WorkState(batch0, fetch, clock, addr0, bat0, done, b, addr, bat)
    requires Done(b) || fetch(NextNumber(b)).None?
    ensures Fetched(Visits(batch0), fetch) == done
    ensures addr == StoreAll(addr0, done, fetch) && bat == Progress(bat0, batch0, done, clock)
  {
    hide StoreAll, Progress;
    assert Fetched(Visits(b), fetch) == [] by {
      if !Done(b) {
        VisitsStep(b);
      }
    }
  }

  lemma VisitsStep(b: Batch)
    requires b.key.step > 0 && !Done(b)
    ensures Visits(b) == [NextNumber(b)] + Visits(b.(current := Some(NextNumber(b))))
  {
  }

  lemma {:induction false} VisitsIgnoreTime(b: Batch, t: int)
    requires b.key.step > 0
    ensures Visits(b.(updatedAt := t)) == Visits(b)
    decreases b.current.None?, if b.current.Some? then b.key.to - b.current.value else 0
  {
    if !Done(b) {
      VisitsIgnoreTime(b.(current := Some(NextNumber(b))), t);
      assert b.(updatedAt := t).(current := Some(NextNumber(b))) ==
             b.(current := Some(NextNumber(b))).(updatedAt := t);
    }
  }
}

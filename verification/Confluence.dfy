/** Schedules against one fixed version of the chain: whatever the order of the work, the index comes out the same. */
module Confluence {
  import opened ByteStrings
  import opened Types
  import opened ByteMarshaller
  import opened OrderedStore
  import opened Dao
  import opened IndexData
  import opened IndexRepo
  import opened ChainIndex
  import opened IndexRun
  import opened BatchStatuses
  import opened BatchRepo
  import opened Indexer
  import opened Scheduler

  // ----- Running a block again -----

  /** Storing the latest version of a block once more in batch mode changes nothing, unless the block is open. */
  lemma RerunChangesNothing(dbs: Dbs, log: Log, n: nat)
    requires Indexes(dbs, log) && n in log.latest && n !in log.open
    ensures PutEntries(dbs, Entries(log.latest[n])) == dbs
  {
    hide BlockPuts, Represents, OfLatest, IsRecord, BlockDbOk;
    PutEntriesAdds(dbs, log.latest[n]);
    AlreadyThere(dbs.address, BlockPuts(log.latest[n]));
  }

  lemma AlreadyThere(db: Db, puts: Db)
    requires Within(puts, db)
    ensures db + puts == db
  {
  }

  // ----- A node with one version of its blocks -----

  /** The node serves the blocks below the bound, in one version each, with distinct times. */
  ghost predicate NodeOk(node: nat -> BlockDetail, bound: nat) {
    && (forall n: nat :: n < bound ==> BlockOk(node(n)) && node(n).number == n)
    && (forall m: nat, n: nat :: m < n < bound ==> node(m).time != node(n).time)
  }

  function Prefix(node: nat -> BlockDetail, count: nat): Chain {
    map n: nat | 0 <= n < count :: node(n)
  }

  /** The plain index: one block after the other, in order. */
  function SequentialDb(node: nat -> BlockDetail, count: nat): Db {
    if count == 0 then map[]
    else PutAll(SequentialDb(node, count - 1), Records(Entries(node(count - 1))))
  }

  lemma {:induction false} SequentialRepresents(node: nat -> BlockDetail, count: nat)
    requires NodeOk(node, count)
    ensures ChainOk(Prefix(node, count)) && Represents(SequentialDb(node, count), Prefix(node, count))
  {
    hide Represents, ChainOk, NodeOk, PutAll, Entries, Records;
    if count == 0 {
      EmptyRepresents(Prefix(node, 0));
    } else {
      NodeBelow(node, count);
      SequentialRepresents(node, count - 1);
      SequentialStep(node, count - 1, SequentialDb(node, count - 1));
    }
  }

  lemma NodeBelow(node: nat -> BlockDetail, count: nat)
    requires NodeOk(node, count) && count > 0
    ensures NodeOk(node, count - 1)
  {
    hide BlockOk;
  }

  lemma SequentialStep(node: nat -> BlockDetail, count: nat, db: Db)
    requires NodeOk(node, count + 1) && ChainOk(Prefix(node, count)) && Represents(db, Prefix(node, count))
    ensures ChainOk(Prefix(node, count + 1))
    ensures Represents(PutAll(db, Records(Entries(node(count)))), Prefix(node, count + 1))
  {
    hide BlockOk, Represents, BlockPuts, Entries, Records, PutAll;
    AddBlock(db, Prefix(node, count), node(count));
    PutEntriesAdds(Dbs(db, map[]), node(count));
    assert Prefix(node, count)[count := node(count)] == Prefix(node, count + 1);
  }

  lemma EmptyRepresents(chain: Chain)
    requires chain == map[]
    ensures ChainOk(chain) && Represents(map[], chain)
  {
    assert Parts(chain) == map[];
  }

  /** Workers store what the node serves, and nothing else happens to the index. */
  ghost predicate FromNode(actions: seq<Action>, node: nat -> BlockDetail, bound: nat) {
    forall i :: 0 <= i < |actions| ==>
      && !actions[i].Environment?
      && (actions[i].Process? ==> actions[i].block.number < bound && actions[i].block == node(actions[i].block.number))
  }

  /** What has been put is the node's, and no realtime store has begun. */
  ghost predicate OfNode(index: Index, node: nat -> BlockDetail, bound: nat) {
    && (forall n :: n in index.log.latest ==> n < bound && index.log.latest[n] == node(n))
    && index.log.open == {} && index.log.flight.None?
    && index.view.records == map[] && index.view.found.None?
  }

  lemma NodeBlockOk(index: Index, node: nat -> BlockDetail, bound: nat, b: BlockDetail)
    requires NodeOk(node, bound) && OfNode(index, node, bound) && Inv(index)
    requires b.number < bound && b == node(b.number)
    ensures EventOk(index, BatchStore(b)) && OfNode(Indexed(index, BatchStore(b)), node, bound)
  {
    hide BlockOk, AddressOk, RecordsOk, FlightOk, Apart, PutEntries, Entries, BlockPuts;
    forall n | n in index.view.chain && n != b.number
      ensures index.view.chain[n].time != b.time
    {
      assert index.view.chain[n] == node(n);
      if n < b.number {
        assert node(n).time != node(b.number).time;
      } else {
        assert node(b.number).time != node(n).time;
      }
    }
  }

  /** Then every schedule is admissible, and puts a part of the node's blocks. */
  lemma {:induction false} NodeSchedule(actions: seq<Action>, node: nat -> BlockDetail, bound: nat)
    requires NodeOk(node, bound) && FromNode(actions, node, bound)
    ensures EventsOk(actions) && OfNode(RunSystem(actions).index, node, bound)
  {
    hide NodeOk, EventOk, Indexed, StartBatches, UpdatedIn, Inv, OfNode;
    if actions == [] {
      NothingOfNode(node, bound);
    } else {
      var front, last := actions[..|actions| - 1], actions[|actions| - 1];
      NodeSchedule(front, node, bound);
      SystemInv(front);
      if last.Process? {
        NodeBlockOk(RunSystem(front).index, node, bound, last.block);
      }
    }
  }

  lemma NothingOfNode(node: nat -> BlockDetail, bound: nat)
    ensures OfNode(EMPTY_INDEX, node, bound)
  {
  }

  /** A schedule against a node ends in the index of the blocks it has put. */
  lemma NodeIndex(actions: seq<Action>, node: nat -> BlockDetail, bound: nat)
    requires NodeOk(node, bound) && FromNode(actions, node, bound)
    ensures var index := RunSystem(actions).index;
      && Represents(index.dbs.address, index.log.latest)
      && forall n :: n in index.log.latest ==> n < bound && index.log.latest[n] == node(n)
  {
    hide NodeOk, FromNode, RunSystem, EventsOk, Inv, Represents;
    NodeSchedule(actions, node, bound);
    SystemInv(actions);
    NothingMissing(RunSystem(actions).index);
  }

  /** Two schedules that indexed the same numbers end with the same address database. */
  lemma SameNumbersSameIndex(actions: seq<Action>, actions': seq<Action>, node: nat -> BlockDetail, bound: nat)
    requires NodeOk(node, bound) && FromNode(actions, node, bound) && FromNode(actions', node, bound)
    requires Numbers(RunSystem(actions)) == Numbers(RunSystem(actions'))
    ensures RunSystem(actions).index.dbs.address == RunSystem(actions').index.dbs.address
  {
    hide NodeOk, FromNode, RunSystem, Represents;
    NodeIndex(actions, node, bound);
    NodeIndex(actions', node, bound);
    var index, index' := RunSystem(actions).index, RunSystem(actions').index;
    assert index.log.latest == index'.log.latest;
    RepresentsUnique(index.dbs.address, index'.dbs.address, index.log.latest);
  }

  /**
    Confluence: any schedule that has a batch of every stripe persisted as done, with any deaths,
    restarts and duplicate workers on the way, leaves the address database that indexing the
    blocks one by one in order leaves. How often an address occurs in a block plays no part.
   */
  lemma Confluence(actions: seq<Action>, node: nat -> BlockDetail, numBatch: nat, latestBlock: nat)
    requires 1 <= numBatch <= MAX_BATCHES
    requires NodeOk(node, Max(latestBlock + 1, numBatch))
    requires FromNode(actions, node, Max(latestBlock + 1, numBatch)) && StartsOk(actions)
    requires AllDone(RunSystem(actions).persisted, numBatch, latestBlock)
    ensures RunSystem(actions).index.dbs.address == SequentialDb(node, Max(latestBlock + 1, numBatch))
  {
    hide NodeOk, FromNode, StartsOk, RunSystem, AllDone, Represents, ChainOk;
    var bound := Max(latestBlock + 1, numBatch);
    NodeIndex(actions, node, bound);
    SequentialRepresents(node, bound);
    var index := RunSystem(actions).index;
    forall n: nat | n < bound
      ensures n in index.log.latest
    {
      Coverage(actions, numBatch, latestBlock, n);
    }
    assert index.log.latest == Prefix(node, bound);
    RepresentsUnique(index.dbs.address, SequentialDb(node, bound), Prefix(node, bound));
  }

  // ----- One worker on its own -----

  ghost function ActAll(s: System, actions: seq<Action>): System {
    if actions == [] then s else Act(ActAll(s, actions[..|actions| - 1]), actions[|actions| - 1])
  }

  lemma ActThree(s: System, actions: seq<Action>, a: Action, b: Action, c: Action)
    ensures ActAll(s, actions + [a, b, c]) == Act(Act(Act(ActAll(s, actions), a), b), c)
  {
    hide Act, ActAll;
    ActOne(s, actions, a);
    ActOne(s, actions + [a], b);
    ActOne(s, actions + [a] + [b], c);
    assert actions + [a, b, c] == actions + [a] + [b] + [c];
  }

  lemma ActOne(s: System, actions: seq<Action>, a: Action)
    ensures ActAll(s, actions + [a]) == Act(ActAll(s, actions), a)
  {
    hide Act;
    assert (actions + [a])[..|actions|] == actions;
  }

  /** The actions of worker w getting through the given numbers undisturbed. */
  function Alone(w: nat, done: seq<nat>, fetch: nat -> Option<BlockDetail>, clock: nat -> int): seq<Action>
    requires forall i :: 0 <= i < |done| ==> fetch(done[i]).Some?
  {
    if done == [] then []
    else
      var n := done[|done| - 1];
      Alone(w, done[..|done| - 1], fetch, clock) + [Next(w), Process(w, fetch(n).value), Persist(w, clock(n))]
  }

  /** A batch after the given numbers. */
  function At(b: Batch, done: seq<nat>, clock: nat -> int): Batch {
    if done == [] then b
    else b.(current := Some(done[|done| - 1]), updatedAt := clock(done[|done| - 1]))
  }

  lemma {:induction false} VisitsSuffix(b: Batch, k: nat)
    requires b.key.step > 0 && k < |Visits(b)|
    ensures var at := if k == 0 then b else b.(current := Some(Visits(b)[k - 1]));
      !Done(at) && NextNumber(at) == Visits(b)[k]
    decreases k
  {
    VisitsStep(b);
    if k > 0 {
      VisitsSuffix(b.(current := Some(NextNumber(b))), k - 1);
    }
  }

  /** What the worker has left after the given numbers: what BatchIndex leaves. */
  ghost predicate HasWorked(s: System, s': System, w: nat, done: seq<nat>, fetch: nat -> Option<BlockDetail>,
                            clock: nat -> int)
    requires w < |s.workers| && forall i :: 0 <= i < |done| ==> fetch(done[i]).Some?
  {
    var b := s.workers[w].batch;
    && s'.index.dbs == Dbs(StoreAll(s.index.dbs.address, done, fetch), s.index.dbs.block)
    && s'.workers == s.workers[w := Worker(At(b, done, clock), Ready)]
    && s'.persisted == (if done == [] then s.persisted else s.persisted[b.key := At(b, done, clock)])
    && s'.batchDb == Progress(s.batchDb, b, done, clock)
  }

  /**
    The worker loop is a run of the scheduler: on its own, worker w changes the databases and its
    status as BatchIndex does.
   */
  lemma {:induction false} WorkerAlone(s: System, w: nat, done: seq<nat>, fetch: nat -> Option<BlockDetail>,
                                       clock: nat -> int)
    requires w < |s.workers| && s.workers[w].phase == Ready && s.workers[w].batch.key.step > 0
    requires done <= Visits(s.workers[w].batch)
    requires forall i :: 0 <= i < |done| ==> fetch(done[i]).Some? && fetch(done[i]).value.number == done[i]
    ensures HasWorked(s, ActAll(s, Alone(w, done, fetch, clock)), w, done, fetch, clock)
  {
    hide Act, Visits, Entries, Records, PutAll, Done, NextNumber, Updated, HasWorked;
    if done == [] {
      NoWork(s, w, fetch, clock);
    } else {
      var k := |done| - 1;
      WorkerAlone(s, w, done[..k], fetch, clock);
      VisitsSuffix(s.workers[w].batch, k);
      AtIgnoresTime(s.workers[w].batch, done[..k], clock);
      ActThree(s, Alone(w, done[..k], fetch, clock), Next(w), Process(w, fetch(done[k]).value),
               Persist(w, clock(done[k])));
      WorkStep(s, ActAll(s, Alone(w, done[..k], fetch, clock)), w, done, fetch, clock);
    }
  }

  lemma NoWork(s: System, w: nat, fetch: nat -> Option<BlockDetail>, clock: nat -> int)
    requires w < |s.workers| && s.workers[w].phase == Ready
    ensures HasWorked(s, s, w, [], fetch, clock)
  {
  }

  lemma WorkStep(s: System, s': System, w: nat, done: seq<nat>, fetch: nat -> Option<BlockDetail>, clock: nat -> int)
    requires w < |s.workers| && s.workers[w].batch.key.step > 0 && done != []
    requires forall i :: 0 <= i < |done| ==> fetch(done[i]).Some? && fetch(done[i]).value.number == done[i]
    requires HasWorked(s, s', w, done[..|done| - 1], fetch, clock)
    requires var at := At(s.workers[w].batch, done[..|done| - 1], clock);
      !Done(at) && NextNumber(at) == done[|done| - 1]
    ensures var n := done[|done| - 1];
      HasWorked(s, Act(Act(Act(s', Next(w)), Process(w, fetch(n).value)), Persist(w, clock(n))), w, done, fetch, clock)
  {
    hide Act, Entries, Records, PutAll, Done, NextNumber, Progress, Updated;
    var n := done[|done| - 1];
    ProgressStep(s.batchDb, s.workers[w].batch, done, clock);
    OneRound(s', w, fetch(n).value, clock(n));
  }

  /** The records of a worker's updates lie under one key, so the last one stays. */
  lemma ProgressStep(db: Db, b: Batch, done: seq<nat>, clock: nat -> int)
    ensures done == [] ==> Progress(db, b, done, clock) == db
    ensures done != [] ==>
      Progress(db, b, done, clock) ==
      Updated(Progress(db, b, done[..|done| - 1], clock), At(b, done, clock))
  {
    if |done| > 1 {
      var m, n := done[|done| - 2], done[|done| - 1];
      UpdatedTwice(db, b, m, clock(m), n, clock(n));
    }
  }

  lemma AtIgnoresTime(b: Batch, done: seq<nat>, clock: nat -> int)
    ensures var at := if done == [] then b else b.(current := Some(done[|done| - 1]));
      NextNumber(At(b, done, clock)) == NextNumber(at) && (Done(At(b, done, clock)) <==> Done(at))
  {
  }

  lemma OneRound(s: System, w: nat, block: BlockDetail, t: int)
    requires w < |s.workers| && s.workers[w].phase == Ready && !Done(s.workers[w].batch)
    requires block.number == NextNumber(s.workers[w].batch) && s.workers[w].batch.key.step > 0
    ensures var s', b := Act(Act(Act(s, Next(w)), Process(w, block)), Persist(w, t)), s.workers[w].batch;
      var after := b.(current := Some(block.number), updatedAt := t);
      && s'.index.dbs == PutEntries(s.index.dbs, Entries(block))
      && s'.workers == s.workers[w := Worker(after, Ready)]
      && s'.persisted == s.persisted[b.key := after]
      && s'.batchDb == Updated(s.batchDb, after)
  {
    hide Done, Entries, PutEntries, Note, Look, Updated;
    var s1 := Act(s, Next(w));
    var s2 := Act(s1, Process(w, block));
    assert s1.workers[w].phase == Fetching;
    assert s2.workers[w].phase == Stored;
  }
}

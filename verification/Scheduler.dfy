/**
  The indexer as a whole: any number of batch workers, several of them on one batch if need be,
  that can die at any point; restarts that start the unfinished batches again while old workers
  may still run; and, at any point between their steps, the single operations of realtime stores
  and cleanings, crashes of these, and reruns.
 */
module Scheduler {
  import opened ByteStrings
  import opened Datetime
  import opened Types
  import opened ByteMarshaller
  import opened OrderedStore
  import opened IndexData
  import opened IndexRepo
  import opened ChainIndex
  import opened IndexRun
  import opened BatchStatuses
  import opened BatchRepo
  import opened Indexer

  // ----- The system -----

  /** Where a worker is in its loop: before Next, waiting for the block, or before UpdateBatch. */
  datatype Phase = Ready | Fetching | Stored

  datatype Worker = Worker(batch: Batch, phase: Phase)

  /** The persisted batches as a map, and as the records of the batch database. */
  datatype System = System(index: Index, persisted: BatchMap, batchDb: Db, workers: seq<Worker>)

  const EMPTY_SYSTEM: System := System(EMPTY_INDEX, map[], map[], [])

  datatype Action =
    | Next(w: nat)
    | Process(w: nat, block: BlockDetail)
    | Persist(w: nat, updatedAt: int)
    | Die(w: nat)
    | Start(statuses: seq<Batch>, lastBlockNum: nat, latestBlock: nat, numBatch: nat, now: nat)
    | Environment(event: Event)

  predicate Enabled(s: System, a: Action) {
    match a
    case Next(w) => w < |s.workers| && s.workers[w].phase == Ready && !Done(s.workers[w].batch)
    case Process(w, b) =>
      w < |s.workers| && s.workers[w].phase == Fetching && s.workers[w].batch.current == Some(b.number)
    case Persist(w, _) => w < |s.workers| && s.workers[w].phase == Stored
    case Die(w) => w < |s.workers|
    case Start(_, _, _, _, _) => true
    case Environment(_) => true
  }

  /** UpdateBatch: a batch without a step is refused, and one that has not got to a block is never persisted. */
  function UpdatedIn(db: Db, b: Batch): Db {
    if b.current.Some? && b.key.step != 0 then Updated(db, b) else db
  }

  /** The index after an event; a worker or a goroutine that panics changes nothing. */
  ghost function Indexed(index: Index, e: Event): Index {
    match Step(index, e)
    case None => index
    case Some(after) => after
  }

  function InitBatches(numBatch: nat, latestBlock: nat, now: nat): seq<Batch> {
    seq(numBatch, i requires 0 <= i < numBatch => InitBatch(numBatch, 0, latestBlock, now, i))
  }

  function StartBatches(statuses: seq<Batch>, lastBlockNum: nat, latestBlock: nat, numBatch: nat, now: nat)
    : seq<Batch>
  {
    if statuses == [] then InitBatches(numBatch, latestBlock, now)
    else RestartBatches(statuses, lastBlockNum, latestBlock, now)
  }

  function Workers(batches: seq<Batch>): seq<Worker> {
    seq(|batches|, i requires 0 <= i < |batches| => Worker(batches[i], Ready))
  }

  /** One action; an action that is not enabled does nothing. */
  ghost function Act(s: System, a: Action): System {
    if !Enabled(s, a) then s
    else
      match a
      case Next(w) =>
        var b := s.workers[w].batch;
        s.(workers := s.workers[w := Worker(b.(current := Some(NextNumber(b))), Fetching)])
      case Process(w, b) =>
        s.(index := Indexed(s.index, BatchStore(b)), workers := s.workers[w := s.workers[w].(phase := Stored)])
      case Persist(w, now) =>
        var b := s.workers[w].batch.(updatedAt := now);
        s.(persisted := s.persisted[b.key := b], batchDb := UpdatedIn(s.batchDb, b),
           workers := s.workers[w := Worker(b, Ready)])
      case Die(w) => s.(workers := s.workers[..w] + s.workers[w + 1..])
      case Start(statuses, lastBlockNum, latestBlock, numBatch, now) =>
        s.(workers := s.workers + Workers(StartBatches(statuses, lastBlockNum, latestBlock, numBatch, now)))
      case Environment(e) => s.(index := Indexed(s.index, e))
  }

  /** The configured number of batches is 1 to 127: the guard at cmd/indexer/main.go:123. */
  const MAX_BATCHES := 127

  ghost function RunSystem(actions: seq<Action>): System {
    if actions == [] then EMPTY_SYSTEM else Act(RunSystem(actions[..|actions| - 1]), actions[|actions| - 1])
  }

  // ----- What is asked of the actions -----

  /** A start lists what is persisted, as the batch repository does. */
  ghost predicate ListsPersisted(s: System, a: Action) {
    a.Start? ==> ListsAll(a.statuses, s.persisted) && 1 <= a.numBatch <= MAX_BATCHES
  }

  /** All that the progress of the workers asks for: nothing about blocks, versions, times or other events. */
  ghost predicate StartsOk(actions: seq<Action>) {
    actions == [] ||
    (StartsOk(actions[..|actions| - 1]) && ListsPersisted(RunSystem(actions[..|actions| - 1]), actions[|actions| - 1]))
  }

  /** The block of a worker and other events are as in a run of the index. */
  ghost predicate ActionOk(s: System, a: Action) {
    match a
    case Process(w, b) => Enabled(s, a) ==> EventOk(s.index, BatchStore(b))
    case Environment(e) => EventOk(s.index, e)
    case _ => true
  }

  /** All that the content of the index asks for: nothing about starts. */
  ghost predicate EventsOk(actions: seq<Action>) {
    actions == [] ||
    (EventsOk(actions[..|actions| - 1]) && ActionOk(RunSystem(actions[..|actions| - 1]), actions[|actions| - 1]))
  }

  // ----- The invariant -----

  /** The numbers of the blocks whose entries have been put, in whatever version. */
  function Numbers(s: System): set<nat> {
    s.index.log.latest.Keys
  }

  /** Every number of the stride below a bound is indexed. */
  ghost predicate CoveredBelow(numbers: set<nat>, key: BatchKey, bound: nat) {
    forall n: nat :: n < bound && OnStride(key.from, key.step, n) ==> n in numbers
  }

  /** A batch that has got to its current block: that block is on the stride, and all up to it are indexed. */
  ghost predicate Reached(numbers: set<nat>, b: Batch) {
    b.current.Some? ==>
      && OnStride(b.key.from, b.key.step, b.current.value)
      && CoveredBelow(numbers, b.key, b.current.value + 1)
  }

  ghost predicate WorkerOk(numbers: set<nat>, w: Worker) {
    && w.batch.key.step > 0
    && match w.phase
       case Fetching =>
         && w.batch.current.Some? && OnStride(w.batch.key.from, w.batch.key.step, w.batch.current.value)
         && CoveredBelow(numbers, w.batch.key, w.batch.current.value)
       case Ready => Reached(numbers, w.batch)
       case Stored => w.batch.current.Some? && Reached(numbers, w.batch)
  }

  ghost predicate StatusOk(numbers: set<nat>, b: Batch) {
    b.key.step > 0 && b.current.Some? && Reached(numbers, b)
  }

  ghost predicate StartOk(numbers: set<nat>, b: Batch) {
    b.key.step > 0 && Reached(numbers, b)
  }

  ghost predicate AllStartOk(numbers: set<nat>, batches: seq<Batch>) {
    forall i :: 0 <= i < |batches| ==> StartOk(numbers, batches[i])
  }

  /** What is persisted and what every worker holds has been reached. */
  ghost predicate AllReached(s: System) {
    && (forall k :: k in s.persisted ==> s.persisted[k].key == k && StatusOk(Numbers(s), s.persisted[k]))
    && (forall i :: 0 <= i < |s.workers| ==> WorkerOk(Numbers(s), s.workers[i]))
  }

  // ----- Steps keep it -----

  lemma ReachedGrows(numbers: set<nat>, more: set<nat>, b: Batch)
    requires numbers <= more && Reached(numbers, b)
    ensures Reached(more, b)
  {
  }

  lemma WorkerGrows(numbers: set<nat>, more: set<nat>, w: Worker)
    requires numbers <= more && WorkerOk(numbers, w)
    ensures WorkerOk(more, w)
  {
  }

  /** The index may go on as long as no number is forgotten. */
  lemma ReachedOn(s: System, index: Index)
    requires AllReached(s) && Numbers(s) <= index.log.latest.Keys
    ensures AllReached(s.(index := index))
  {
    hide Reached, WorkerOk;
    var more := index.log.latest.Keys;
    forall k | k in s.persisted
      ensures StatusOk(more, s.persisted[k])
    {
      ReachedGrows(Numbers(s), more, s.persisted[k]);
    }
    forall i | 0 <= i < |s.workers|
      ensures WorkerOk(more, s.workers[i])
    {
      WorkerGrows(Numbers(s), more, s.workers[i]);
    }
  }

  /** No event makes the index forget a number, admissible or not; a batch store adds its own. */
  lemma IndexedGrows(index: Index, e: Event)
    ensures index.log.latest.Keys <= Indexed(index, e).log.latest.Keys
    ensures e.BatchStore? ==> Indexed(index, e).log.latest.Keys == index.log.latest.Keys + {e.block.number}
  {
    hide Look, PutEntries, Undo, PutBlock, BlockFits, BlockDbOk, OldRun, CanUndo;
  }

  /** Going on to the next number: what lies below it on the stride has been reached. */
  lemma NextIsCovered(numbers: set<nat>, b: Batch)
    requires b.key.step > 0 && Reached(numbers, b)
    ensures OnStride(b.key.from, b.key.step, NextNumber(b))
    ensures CoveredBelow(numbers, b.key, NextNumber(b))
  {
    if b.current.None? {
      forall n: nat | OnStride(b.key.from, b.key.step, n)
        ensures n >= b.key.from
      {
        StrideAtLeast(b.key.from, b.key.step, n);
      }
    } else {
      var c, step := b.current.value, b.key.step;
      StrideAtLeast(b.key.from, step, c);
      forall n: nat | n < c + step && OnStride(b.key.from, step, n)
        ensures n in numbers
      {
        StrideGap(b.key.from, step, c, n);
      }
    }
  }

  /** Between a number of the stride and the next one there is none. */
  lemma {:induction false} StrideGap(from: nat, step: nat, c: nat, n: nat)
    requires step > 0 && OnStride(from, step, c) && OnStride(from, step, n) && n < c + step
    ensures n <= c
  {
    StrideAtLeast(from, step, c);
    if c > from && n > from {
      StrideGap(from, step, c - step, n - step);
    }
  }

  lemma NextKeeps(s: System, w: nat)
    requires AllReached(s) && Enabled(s, Next(w))
    ensures AllReached(Act(s, Next(w)))
  {
    hide Done, CoveredBelow;
    NextIsCovered(Numbers(s), s.workers[w].batch);
  }

  lemma ProcessKeeps(s: System, w: nat, b: BlockDetail)
    requires AllReached(s) && Enabled(s, Process(w, b))
    ensures AllReached(Act(s, Process(w, b)))
  {
    hide CoveredBelow, StatusOk, Reached, Indexed;
    var index := Indexed(s.index, BatchStore(b));
    IndexedGrows(s.index, BatchStore(b));
    ReachedOn(s, index);
    StoredReached(Numbers(s), index.log.latest.Keys, s.workers[w].batch);
  }

  lemma StoredReached(numbers: set<nat>, more: set<nat>, b: Batch)
    requires b.current.Some? && OnStride(b.key.from, b.key.step, b.current.value)
    requires CoveredBelow(numbers, b.key, b.current.value)
    requires more == numbers + {b.current.value}
    ensures Reached(more, b)
  {
  }

  lemma PersistKeeps(s: System, w: nat, now: int)
    requires AllReached(s) && Enabled(s, Persist(w, now))
    ensures AllReached(Act(s, Persist(w, now)))
  {
    hide CoveredBelow, UpdatedIn;
  }

  lemma DieKeeps(s: System, w: nat)
    requires AllReached(s) && Enabled(s, Die(w))
    ensures AllReached(Act(s, Die(w)))
  {
    hide WorkerOk, StatusOk;
  }

  lemma {:induction false} PendingSafe(numbers: set<nat>, statuses: seq<Batch>, lastBlockNum: nat, latestBlock: nat)
    requires forall i :: 0 <= i < |statuses| ==> StatusOk(numbers, statuses[i])
    ensures AllStartOk(numbers, Pending(statuses, lastBlockNum, latestBlock))
  {
    hide Done, Reached;
    if statuses != [] {
      var n := |statuses| - 1;
      PendingSafe(numbers, statuses[..n], lastBlockNum, latestBlock);
      assert StatusOk(numbers, statuses[n]);
      Retargeted(numbers, statuses[n], latestBlock);
    }
  }

  /** The end of a batch plays no part in what it has reached. */
  lemma Retargeted(numbers: set<nat>, b: Batch, to: nat)
    requires Reached(numbers, b)
    ensures Reached(numbers, b.(key := b.key.(to := to)))
  {
  }

  lemma StartKeeps(s: System, a: Action)
    requires AllReached(s) && a.Start? && ListsPersisted(s, a)
    ensures AllReached(Act(s, a))
  {
    var Start(statuses, lastBlockNum, latestBlock, numBatch, now) := a;
    StartedBatches(Numbers(s), s.persisted, statuses, lastBlockNum, latestBlock, numBatch, now);
    hide StartBatches, StatusOk, ListsAll;
  }

  lemma StartedBatches(numbers: set<nat>, persisted: BatchMap, statuses: seq<Batch>, lastBlockNum: nat,
                       latestBlock: nat, numBatch: nat, now: nat)
    requires forall k :: k in persisted ==> persisted[k].key == k && StatusOk(numbers, persisted[k])
    requires ListsAll(statuses, persisted) && 1 <= numBatch <= MAX_BATCHES
    ensures AllStartOk(numbers, StartBatches(statuses, lastBlockNum, latestBlock, numBatch, now))
  {
    hide CoveredBelow, OnStride, Pending, Found;
    if statuses != [] {
      forall i | 0 <= i < |statuses|
        ensures StatusOk(numbers, statuses[i])
      {
        assert statuses[i].key in persisted;
      }
      PendingSafe(numbers, statuses, lastBlockNum, latestBlock);
    }
  }

  lemma EnvironmentKeeps(s: System, e: Event)
    requires AllReached(s)
    ensures AllReached(Act(s, Environment(e)))
  {
    hide Indexed, WorkerOk, StatusOk;
    IndexedGrows(s.index, e);
    ReachedOn(s, Indexed(s.index, e));
  }

  /** Every action keeps it, whatever block a worker gets and whatever else happens to the index. */
  lemma ActKeeps(s: System, a: Action)
    requires AllReached(s) && ListsPersisted(s, a)
    ensures AllReached(Act(s, a))
  {
    hide AllReached, ListsAll;
    if Enabled(s, a) {
      match a
      case Next(w) => NextKeeps(s, w);
      case Process(w, b) => ProcessKeeps(s, w, b);
      case Persist(w, now) => PersistKeeps(s, w, now);
      case Die(w) => DieKeeps(s, w);
      case Start(_, _, _, _, _) => StartKeeps(s, a);
      case Environment(e) => EnvironmentKeeps(s, e);
    }
  }

  // ----- Main results -----

  /**
    Scheduler progress: however workers interleave, die and are started again, whatever blocks and
    versions the node returns and whatever else happens to the index, a persisted current block
    means that every block of the batch up to it has been put.
   */
  lemma {:induction false} SchedulerProgress(actions: seq<Action>)
    requires StartsOk(actions)
    ensures AllReached(RunSystem(actions))
  {
    hide AllReached, Act, ListsPersisted;
    if actions == [] {
      NothingReached();
    } else {
      SchedulerProgress(actions[..|actions| - 1]);
      ActKeeps(RunSystem(actions[..|actions| - 1]), actions[|actions| - 1]);
    }
  }

  lemma NothingReached()
    ensures AllReached(EMPTY_SYSTEM)
  {
  }

  lemma ActIndex(s: System, a: Action)
    requires Inv(s.index) && ActionOk(s, a)
    ensures Inv(Act(s, a).index)
  {
    hide Inv, EventOk, Write, Look, StartBatches, UpdatedIn;
    if Enabled(s, a) {
      match a
      case Process(w, b) => StepKeeps(s.index, BatchStore(b));
      case Environment(e) => StepKeeps(s.index, e);
      case _ =>
    }
  }

  lemma {:induction false} SystemInv(actions: seq<Action>)
    requires EventsOk(actions)
    ensures Inv(RunSystem(actions).index)
  {
    hide Inv, Act, ActionOk;
    if actions == [] {
      EmptyInv();
    } else {
      SystemInv(actions[..|actions| - 1]);
      ActIndex(RunSystem(actions[..|actions| - 1]), actions[|actions| - 1]);
    }
  }

  /**
    Scheduler safety: under every such interleaving of workers with each other and with the
    operations of realtime stores and cleanings, the databases index what has been put, as long as
    the blocks and events are admissible in a run of the index.
   */
  lemma SchedulerSafety(actions: seq<Action>)
    requires EventsOk(actions)
    ensures Indexes(RunSystem(actions).index.dbs, RunSystem(actions).index.log)
  {
    hide EventsOk, RunSystem, Inv, Indexes;
    SystemInv(actions);
    InvIndexes(RunSystem(actions).index);
  }

  ghost predicate DoneFrom(persisted: BatchMap, i: nat, numBatch: nat, latestBlock: nat) {
    exists key :: key in persisted && key.from == i && key.step as nat == numBatch && key.to >= latestBlock &&
                  Done(persisted[key])
  }

  /** Of every stripe of a first start, some batch that goes at least as far has been persisted as done. */
  ghost predicate AllDone(persisted: BatchMap, numBatch: nat, latestBlock: nat) {
    forall i :: 0 <= i < numBatch ==> DoneFrom(persisted, i, numBatch, latestBlock)
  }

  /**
    Coverage: once a batch of every stripe is persisted as done, perhaps with an end that a restart
    has moved, every block from 0 to the latest one of the first start has been put, whatever
    deaths, restarts and new versions there were.
   */
  lemma Coverage(actions: seq<Action>, numBatch: nat, latestBlock: nat, n: nat)
    requires StartsOk(actions) && 1 <= numBatch <= MAX_BATCHES
    requires AllDone(RunSystem(actions).persisted, numBatch, latestBlock)
    requires n <= latestBlock || n < numBatch
    ensures n in Numbers(RunSystem(actions))
  {
    hide StartsOk, RunSystem, Reached, WorkerOk;
    SchedulerProgress(actions);
    var i := Stripe(0, numBatch, n);
    StripeUnique(0, numBatch, n, i);
    assert DoneFrom(RunSystem(actions).persisted, i, numBatch, latestBlock);
    var key :| key in RunSystem(actions).persisted && key.from == i && key.step as nat == numBatch &&
               key.to >= latestBlock && Done(RunSystem(actions).persisted[key]);
    DoneCovers(Numbers(RunSystem(actions)), RunSystem(actions).persisted[key], n);
  }

  /**
    Completeness: then, if the blocks and events are admissible, each of these blocks is in the
    address database as a whole, unless a realtime store is just replacing it or has given up doing so.
   */
  lemma Completeness(actions: seq<Action>, numBatch: nat, latestBlock: nat, n: nat)
    requires StartsOk(actions) && EventsOk(actions) && 1 <= numBatch <= MAX_BATCHES
    requires AllDone(RunSystem(actions).persisted, numBatch, latestBlock)
    requires n <= latestBlock || n < numBatch
    ensures var index := RunSystem(actions).index;
      && n in index.log.latest
      && (n !in index.log.open ==> Within(BlockPuts(index.log.latest[n]), index.dbs.address))
      && (index.log.open == {} ==> Represents(index.dbs.address, index.log.latest))
  {
    hide StartsOk, EventsOk, RunSystem, AllDone, Represents, Within, BlockPuts, IsRecord, OfLatest, BlockDbOk;
    Coverage(actions, numBatch, latestBlock, n);
    SchedulerSafety(actions);
  }

  /** A done batch has reached every number of its stride up to its end, and its first one in any case. */
  lemma DoneCovers(numbers: set<nat>, b: Batch, n: nat)
    requires StatusOk(numbers, b) && Done(b) && OnStride(b.key.from, b.key.step, n)
    requires n <= b.key.to || n == b.key.from
    ensures n in numbers
  {
    StrideAtLeast(b.key.from, b.key.step, b.current.value);
    if n > b.current.value {
      StrideAbove(b.key.from, b.key.step, b.current.value, n);
    }
  }

  lemma {:induction false} StrideAbove(from: nat, step: nat, c: nat, n: nat)
    requires step > 0 && OnStride(from, step, c) && OnStride(from, step, n) && n > c
    ensures n >= c + step
  {
    if n < c + step {
      StrideGap(from, step, c, n);
    }
  }

  // ----- What a start makes up for -----

  /** The batches that a start runs. */
  function Started(a: Action): seq<Batch>
    requires a.Start?
  {
    StartBatches(a.statuses, a.lastBlockNum, a.latestBlock, a.numBatch, a.now)
  }

  lemma FinishedStride(actions: seq<Action>, b: Batch, n: nat)
    requires StartsOk(actions) && b.key in RunSystem(actions).persisted && Done(RunSystem(actions).persisted[b.key])
    requires OnStride(b.key.from, b.key.step, n) && (n <= b.key.to || n == b.key.from)
    ensures n in Numbers(RunSystem(actions))
  {
    hide StartsOk, RunSystem, Reached, WorkerOk, Done;
    SchedulerProgress(actions);
    DoneCovers(Numbers(RunSystem(actions)), RunSystem(actions).persisted[b.key], n);
  }

  lemma {:induction false} StartOkAt(actions: seq<Action>, k: nat)
    requires StartsOk(actions) && k < |actions|
    ensures StartsOk(actions[..k]) && ListsPersisted(RunSystem(actions[..k]), actions[k])
  {
    hide ListsPersisted, RunSystem;
    var n := |actions| - 1;
    if k < n {
      StartOkAt(actions[..n], k);
      assert actions[..n][..k] == actions[..k];
    }
  }

  /** A started batch that has got to a block has got there along its stride. */
  lemma StartedOnStride(actions: seq<Action>, k: nat, b: Batch)
    requires StartsOk(actions) && k < |actions| && actions[k].Start? && b in Started(actions[k])
    ensures b.key.step > 0 && (b.current.Some? ==> OnStride(b.key.from, b.key.step, b.current.value))
  {
    hide StartsOk, RunSystem, ListsAll, StartBatches, CoveredBelow, OnStride;
    StartOkAt(actions, k);
    SchedulerProgress(actions[..k]);
    var s := RunSystem(actions[..k]);
    var Start(statuses, lastBlockNum, latestBlock, numBatch, now) := actions[k];
    StartedBatches(Numbers(s), s.persisted, statuses, lastBlockNum, latestBlock, numBatch, now);
    var i :| 0 <= i < |Started(actions[k])| && Started(actions[k])[i] == b;
    assert StartOk(Numbers(s), Started(actions[k])[i]);
  }

  /** Whatever a started batch visits has been put once the batch is persisted as done. */
  lemma VisitsFinished(actions: seq<Action>, k: nat, b: Batch, n: nat)
    requires StartsOk(actions) && k < |actions| && actions[k].Start? && b in Started(actions[k])
    requires b.key in RunSystem(actions).persisted && Done(RunSystem(actions).persisted[b.key])
    requires b.key.step > 0 && n in Visits(b)
    ensures n in Numbers(RunSystem(actions))
  {
    hide StartsOk, RunSystem, Started, Visits, Done, OnStride;
    StartedOnStride(actions, k, b);
    if b.current.None? {
      VisitsFresh(b, n);
      StrideStart(b.key.from, b.key.step);
    } else {
      VisitsAfter(b, n);
      StrideThrough(b.key.from, b.key.step, b.current.value, n);
    }
    FinishedStride(actions, b, n);
  }

  lemma StrideStart(from: nat, step: nat)
    ensures OnStride(from, step, from)
  {
  }

  /** Every batch that a start ran has been persisted as done, under the key it was started with. */
  ghost predicate AllFinished(persisted: BatchMap, started: seq<Batch>) {
    forall b :: b in started ==> b.key in persisted && Done(persisted[b.key])
  }

  /**
    Catching up: once the batches of a restart are persisted as done, every block from the last
    known one to the latest one has been put. If an unfinished batch with a wider step starts at the
    last known block, the restart goes on with that one alone, and this holds for its stride.
   */
  lemma CatchUp(actions: seq<Action>, k: nat, n: nat)
    requires StartsOk(actions) && k < |actions| && actions[k].Start? && actions[k].statuses != []
    requires AllFinished(RunSystem(actions).persisted, Started(actions[k]))
    requires actions[k].lastBlockNum <= n <= actions[k].latestBlock
    requires forall i :: 0 <= i < |actions[k].statuses| ==>
      var status := actions[k].statuses[i];
      status.key.from == actions[k].lastBlockNum && !Done(status) ==> OnStride(status.key.from, status.key.step, n)
    ensures n in Numbers(RunSystem(actions))
  {
    hide StartsOk, RunSystem, RestartBatches, Done, Visits, OnStride;
    var Start(statuses, lastBlockNum, latestBlock, numBatch, now) := actions[k];
    var started := RestartBatches(statuses, lastBlockNum, latestBlock, now);
    assert Started(actions[k]) == started;
    if i :| 0 <= i < |statuses| && statuses[i].key.from == lastBlockNum && !Done(statuses[i]) {
      RestartGoesOn(statuses, lastBlockNum, latestBlock, now, i);
      var b :| b in started && b.key.from == lastBlockNum && b.key.to == latestBlock &&
               b.key.step == statuses[i].key.step;
      FinishedStride(actions, b, n);
    } else {
      RestartCatchesUp(statuses, lastBlockNum, latestBlock, now, n);
      var b :| b in started && b.key.step > 0 && n in Visits(b);
      VisitsFinished(actions, k, b, n);
    }
  }

  // ----- The batch database on disk -----

  /** The block numbers and times that the batch records can hold. */
  predicate ActionFits(a: Action) {
    match a
    case Start(_, lastBlockNum, latestBlock, _, _) => lastBlockNum < 1_000_000_000 && latestBlock < 1_000_000_000
    case Persist(_, now) => TimeFits(now)
    case _ => true
  }

  /** A start reads the batch database. */
  ghost predicate ReadsDisk(s: System, a: Action) {
    a.Start? ==> BatchDbOk(s.batchDb) && a.statuses == Statuses(s.batchDb) && 1 <= a.numBatch <= MAX_BATCHES
  }

  ghost predicate StartsRead(actions: seq<Action>) {
    actions == [] ||
    (StartsRead(actions[..|actions| - 1]) && ReadsDisk(RunSystem(actions[..|actions| - 1]), actions[|actions| - 1]))
  }

  predicate KeyFits(b: Batch) {
    b.key.from < 1_000_000_000 && b.key.to < 1_000_000_000
  }

  predicate AllKeysFit(batches: seq<Batch>) {
    forall i :: 0 <= i < |batches| ==> KeyFits(batches[i])
  }

  ghost predicate OnDisk(s: System) {
    && Encodes(s.batchDb, s.persisted)
    && forall i :: 0 <= i < |s.workers| ==> KeyFits(s.workers[i].batch)
  }

  lemma {:induction false} PendingFits(statuses: seq<Batch>, lastBlockNum: nat, latestBlock: nat)
    requires AllKeysFit(statuses) && latestBlock < 1_000_000_000
    ensures AllKeysFit(Pending(statuses, lastBlockNum, latestBlock))
  {
    hide Done;
    if statuses != [] {
      PendingFits(statuses[..|statuses| - 1], lastBlockNum, latestBlock);
      assert KeyFits(statuses[|statuses| - 1]);
    }
  }

  lemma PersistOnDisk(s: System, w: nat, now: int)
    requires AllReached(s) && OnDisk(s) && Enabled(s, Persist(w, now)) && TimeFits(now)
    ensures OnDisk(Act(s, Persist(w, now)))
  {
    hide Encodes, CoveredBelow, Reached, Updated;
    var b := s.workers[w].batch.(updatedAt := now);
    assert WorkerOk(Numbers(s), s.workers[w]) && KeyFits(s.workers[w].batch);
    UpdateEncodes(s.batchDb, s.persisted, b);
  }

  lemma StartOnDisk(s: System, a: Action)
    requires OnDisk(s) && a.Start? && ActionFits(a) && ReadsDisk(s, a)
    ensures ListsPersisted(s, a) && OnDisk(Act(s, a))
  {
    hide Statuses, BatchDbOk, Encodes, Pending, Found;
    var Start(statuses, lastBlockNum, latestBlock, numBatch, now) := a;
    StatusesListAll(s.batchDb, s.persisted);
    ListedFit(s, statuses);
    PendingFits(statuses, lastBlockNum, latestBlock);
  }

  lemma ListedFit(s: System, statuses: seq<Batch>)
    requires OnDisk(s) && ListsAll(statuses, s.persisted)
    ensures AllKeysFit(statuses)
  {
    hide EncodeKey, EncodeValue, EncodedBy;
    forall i | 0 <= i < |statuses|
      ensures KeyFits(statuses[i])
    {
      assert statuses[i].key in s.persisted;
      assert BatchOk(s.persisted[statuses[i].key]);
    }
  }

  lemma ActOnDisk(s: System, a: Action)
    requires AllReached(s) && OnDisk(s) && ActionFits(a) && ReadsDisk(s, a)
    ensures ListsPersisted(s, a) && OnDisk(Act(s, a))
  {
    hide AllReached, Encodes, Indexed, Statuses, BatchDbOk, ListsAll, StartBatches, UpdatedIn;
    if Enabled(s, a) {
      match a
      case Persist(w, now) => PersistOnDisk(s, w, now);
      case Start(_, _, _, _, _) => StartOnDisk(s, a);
      case _ =>
    }
  }

  /**
    On disk: if every start reads the batch database, and block numbers and times fit its records,
    then the database encodes the persisted batches throughout, every start lists them, and every
    status it holds has been reached.
   */
  lemma {:induction false} ProgressOnDisk(actions: seq<Action>)
    requires StartsRead(actions) && forall i :: 0 <= i < |actions| ==> ActionFits(actions[i])
    ensures StartsOk(actions) && OnDisk(RunSystem(actions))
    ensures var s := RunSystem(actions);
      && BatchDbOk(s.batchDb)
      && forall i :: 0 <= i < |Statuses(s.batchDb)| ==> StatusOk(Numbers(s), Statuses(s.batchDb)[i])
  {
    hide Act, ActionFits, ListsPersisted, ReadsDisk, OnDisk, Statuses, BatchDbOk, StatusOk, AllReached;
    if actions == [] {
      NothingOnDisk();
    } else {
      var n := |actions| - 1;
      ProgressOnDisk(actions[..n]);
      SchedulerProgress(actions[..n]);
      ActOnDisk(RunSystem(actions[..n]), actions[n]);
    }
    SchedulerProgress(actions);
    StatusesReached(RunSystem(actions));
  }

  lemma NothingOnDisk()
    ensures OnDisk(EMPTY_SYSTEM)
  {
    EmptyEncodes();
  }

  lemma StatusesReached(s: System)
    requires OnDisk(s) && AllReached(s)
    ensures BatchDbOk(s.batchDb)
    ensures forall i :: 0 <= i < |Statuses(s.batchDb)| ==> StatusOk(Numbers(s), Statuses(s.batchDb)[i])
  {
    hide Encodes, Statuses, BatchDbOk, WorkerOk, Reached;
    StatusesListAll(s.batchDb, s.persisted);
  }
}

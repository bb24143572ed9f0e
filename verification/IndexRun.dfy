/**
  Runs of the index, one database operation at a time: a realtime store reads the old record,
  deletes, puts its entries and puts its record; a cleaning reads the last record, reads which
  records are old, and deletes them. Crashes, batch stores and the steps of the other goroutine
  come at any point in between.
 */
module IndexRun {
  import opened ByteStrings
  import opened Datetime
  import opened Types
  import opened ByteMarshaller
  import opened OrderedStore
  import opened IndexData
  import opened IndexRepo
  import opened Cleaner
  import opened ChainIndex

  // ----- Events -----

  /** The block record of one attempt at storing a block: any order of the addresses, any clock. */
  datatype Attempt = Attempt(addresses: seq<AddressSequence>, createdAt: int)

  /** A realtime store under way: the old record is read, its keys are deleted, the entries are put. */
  datatype Flight =
    | FoundOld(block: BlockDetail, attempt: Attempt)
    | Undone(block: BlockDetail, attempt: Attempt)
    | Put(block: BlockDetail, attempt: Attempt)

  /**
    One operation, or a crash: it ends the realtime store under way, which may be tried again at any
    time, or never.
   */
  datatype Event =
    | FindOld(block: BlockDetail, attempt: Attempt)
    | DeleteOld
    | StoreEntries
    | StoreRecord
    | Crash
    | BatchStore(block: BlockDetail)
    | CleanRead(ttl: int)
    | CleanScan
    | CleanDelete

  function RecordOf(b: BlockDetail, a: Attempt): BlockIndex {
    BlockIndex(Decimal(b.number), a.addresses, b.time, a.createdAt)
  }

  // ----- What the events alone tell -----

  /**
    The store under way; the version of each block that was put last; the blocks for which a
    realtime store has deleted what a record described and has not put its entries yet, nor has a
    batch store since; and those whose record may describe another version, because a realtime
    store has never got to its record or a batch store brought a new version.
   */
  datatype Log = Log(flight: Option<Flight>, latest: Chain, open: set<nat>, unrecorded: set<nat>)

  const NO_EVENTS: Log := Log(None, map[], {}, {})

  function Entered(log: Log, b: BlockDetail): Log {
    var n := b.number;
    log.(latest := log.latest[n := b], open := log.open - {n},
         unrecorded := log.unrecorded + if n in log.latest && log.latest[n] != b then {n} else {})
  }

  predicate IsFound(flight: Option<Flight>) {
    flight.Some? && flight.value.FoundOld?
  }

  predicate IsUndone(flight: Option<Flight>) {
    flight.Some? && flight.value.Undone?
  }

  predicate IsPut(flight: Option<Flight>) {
    flight.Some? && flight.value.Put?
  }

  /** An operation that is not due, like putting entries without a deletion before, is no event at all. */
  function Note(log: Log, e: Event): Log {
    match e
    case FindOld(b, a) => if log.flight.Some? then log else log.(flight := Some(FoundOld(b, a)))
    case DeleteOld =>
      if IsFound(log.flight) then
        var FoundOld(b, a) := log.flight.value;
        log.(flight := Some(Undone(b, a)), open := log.open + {b.number}, unrecorded := log.unrecorded + {b.number})
      else log
    case StoreEntries =>
      if IsUndone(log.flight) then
        var Undone(b, a) := log.flight.value;
        Entered(log, b).(flight := Some(Put(b, a)))
      else log
    case StoreRecord =>
      if IsPut(log.flight) then
        log.(flight := None, unrecorded := log.unrecorded - {log.flight.value.block.number})
      else log
    case Crash => log.(flight := None)
    case BatchStore(b) => Entered(log, b)
    case _ => log
  }

  function LogOf(events: seq<Event>): Log {
    if events == [] then NO_EVENTS else Note(LogOf(events[..|events| - 1]), events[|events| - 1])
  }

  // ----- What the events do to the databases -----

  predicate CanUndo(block: Db, number: Bytes) {
    number in block ==> Undoable(block[number])
  }

  /** How far a cleaning has got: the time below which it deletes, then the keys to delete. */
  datatype Cleaning = Idle | Until(time: int) | Doomed(keys: set<Bytes>)

  /** What the goroutines hold between their operations: the keys to delete for the old version, and the cleaning. */
  datatype Memory = Memory(undo: set<Bytes>, cleaning: Cleaning)

  /** None when the source would panic or its deletion loop would never end. */
  ghost function Write(dbs: Dbs, memory: Memory, flight: Option<Flight>, e: Event): Option<(Dbs, Memory)> {
    match e
    case FindOld(b, a) =>
      var number := Decimal(b.number);
      if flight.Some? then Some((dbs, memory))
      else if CanUndo(dbs.block, number) then Some((dbs, memory.(undo := KeysToUndo(dbs.block, number))))
      else None
    case DeleteOld =>
      if IsFound(flight) then Some((dbs.(address := dbs.address - memory.undo), memory.(undo := {})))
      else Some((dbs, memory))
    case StoreEntries =>
      Some((if IsUndone(flight) then PutEntries(dbs, Entries(flight.value.block)) else dbs, memory))
    case StoreRecord =>
      if IsPut(flight) then
        var record := RecordOf(flight.value.block, flight.value.attempt);
        if BlockFits(record) then Some((PutBlock(dbs, record), memory)) else None
      else Some((dbs, memory))
    case Crash => Some((dbs, memory.(undo := {})))
    case BatchStore(b) => Some((PutEntries(dbs, Entries(b)), memory))
    case CleanRead(ttl) =>
      if BlockDbOk(dbs.block) then
        Some((dbs, memory.(cleaning := if dbs.block == map[] then Idle else Until(UntilTime(dbs.block, ttl)))))
      else None
    case CleanScan =>
      if !memory.cleaning.Until? then Some((dbs, memory))
      else if BlockDbOk(dbs.block) then
        Some((dbs, memory.(cleaning := Doomed(OldRun(dbs.block, memory.cleaning.time)))))
      else None
    case CleanDelete =>
      if memory.cleaning.Doomed? then
        Some((dbs.(block := dbs.block - memory.cleaning.keys), memory.(cleaning := Idle)))
      else Some((dbs, memory))
  }

  // ----- What the databases mean -----

  /**
    The blocks that are indexed, the blocks the records describe, the block whose record the store
    under way has read, and what a retried undo has taken out of blocks that are indexed.
   */
  datatype View = View(chain: Chain, records: Chain, found: Option<BlockDetail>, missing: Db)

  function PutIn(v: View, b: BlockDetail): View {
    v.(chain := v.chain[b.number := b], missing := v.missing - BlockPuts(b).Keys)
  }

  /**
    Deleting what the record described that was read for b. If that is the version indexed, the
    block is gone; if an earlier attempt already put the new version, some of its entries may be.
   */
  function TakenOut(v: View, b: BlockDetail): View {
    var n := b.number;
    if v.found.None? || n !in v.chain then v.(found := None)
    else if v.chain[n] == v.found.value then
      v.(chain := v.chain - {n}, missing := v.missing - BlockPuts(v.found.value).Keys, found := None)
    else v.(missing := v.missing + Restricted(BlockPuts(b), BlockPuts(v.found.value).Keys), found := None)
  }

  function Restricted(db: Db, keys: set<Bytes>): Db {
    map k | k in db && k in keys :: db[k]
  }

  function Look(v: View, flight: Option<Flight>, e: Event, block: Db): View {
    match e
    case FindOld(b, _) =>
      if flight.Some? then v
      else v.(found := if b.number in v.records then Some(v.records[b.number]) else None)
    case DeleteOld => if IsFound(flight) then TakenOut(v, flight.value.block) else v
    case StoreEntries => if IsUndone(flight) then PutIn(v, flight.value.block) else v
    case StoreRecord =>
      if IsPut(flight) then v.(records := v.records[flight.value.block.number := flight.value.block]) else v
    case Crash => v.(found := None)
    case BatchStore(b) => PutIn(v, b)
    case CleanDelete => v.(records := Kept(v.records, block))
    case _ => v
  }

  function Kept(records: Chain, block: Db): Chain {
    map n | n in records && Decimal(n) in block :: records[n]
  }

  // ----- Runs -----

  datatype Index = Index(dbs: Dbs, memory: Memory, log: Log, view: View)

  const EMPTY_INDEX: Index :=
    Index(Dbs(map[], map[]), Memory({}, Idle), NO_EVENTS, View(map[], map[], None, map[]))

  ghost function Step(s: Index, e: Event): Option<Index> {
    match Write(s.dbs, s.memory, s.log.flight, e)
    case None => None
    case Some((dbs, memory)) => Some(Index(dbs, memory, Note(s.log, e), Look(s.view, s.log.flight, e, dbs.block)))
  }

  ghost function Steps(s: Index, events: seq<Event>): Option<Index> {
    if events == [] then Some(s)
    else
      match Steps(s, events[..|events| - 1])
      case None => None
      case Some(before) => Step(before, events[|events| - 1])
  }

  ghost function Run(events: seq<Event>): Option<Index> {
    Steps(EMPTY_INDEX, events)
  }

  // ----- What is asked of the events -----

  ghost predicate AttemptOk(b: BlockDetail, a: Attempt) {
    Describes(a.addresses, SidesOf(b)) && TimeFits(a.createdAt)
  }

  /** No other block that is indexed, recorded, under way or about to be undone has the time of b. */
  ghost predicate Fresh(s: Index, b: BlockDetail) {
    && TimeFresh(s.view.chain, b) && TimeFresh(s.view.records, b)
    && (s.log.flight.Some? && s.log.flight.value.block.number != b.number ==> s.log.flight.value.block.time != b.time)
    && (s.view.found.Some? && s.view.found.value.number != b.number ==> s.view.found.value.time != b.time)
  }

  /** The version indexed, if there is one, has no key that b does not overwrite. */
  ghost predicate Overwrites(b: BlockDetail, chain: Chain) {
    b.number in chain ==> BlockPuts(chain[b.number]).Keys <= BlockPuts(b).Keys
  }

  /**
    A block has a time of its own. A realtime store that finds a record is asked that no address
    occurs more than 254 times in the recorded block, and a new version of a block that the record
    describes the version indexed. A batch store may bring a new version as far as it overwrites
    the one indexed.
   */
  ghost predicate EventOk(s: Index, e: Event) {
    match e
    case FindOld(b, a) =>
      var n, chain, records := b.number, s.view.chain, s.view.records;
      s.log.flight.None? ==>
        && BlockOk(b) && AttemptOk(b, a) && Fresh(s, b)
        && (n in records ==> Sparse(records[n], 254))
        && (n in chain && chain[n] != b ==> n in records && records[n] == chain[n])
    case BatchStore(b) =>
      && BlockOk(b) && Fresh(s, b) && Overwrites(b, s.view.chain)
      && (s.log.flight.Some? && s.log.flight.value.block.number == b.number ==> s.log.flight.value.block == b)
    case _ => true
  }

  ghost predicate RunOk(events: seq<Event>) {
    events == [] ||
    var front := events[..|events| - 1];
    RunOk(front) && (Run(front).Some? ==> EventOk(Run(front).value, events[|events| - 1]))
  }

  // ----- The invariant -----

  ghost predicate IsRecord(value: Bytes, b: BlockDetail) {
    && |value| >= 2 * TIMESTAMP_LENGTH
    && DecodedBlock(value).time == b.time
    && Describes(DecodedBlock(value).addresses, SidesOf(b))
  }

  ghost predicate NumberIn(k: Bytes, records: Chain) {
    exists n :: n in records && k == Decimal(n)
  }

  ghost predicate RecordsOk(block: Db, records: Chain) {
    && BlockDbOk(block)
    && (forall n :: n in records ==>
         && BlockOk(records[n]) && records[n].number == n
         && Decimal(n) in block && IsRecord(block[Decimal(n)], records[n]))
    && (forall k :: k in block ==> NumberIn(k, records))
  }

  ghost predicate OfOpen(k: Bytes, chain: Chain, open: set<nat>) {
    exists n :: n in open && n in chain && k in BlockPuts(chain[n])
  }

  ghost predicate MissingOpen(v: View, open: set<nat>) {
    forall k :: k in v.missing ==> OfOpen(k, v.chain, open)
  }

  /** With what is missing, the address database is the index of the chain; only open blocks miss anything. */
  ghost predicate AddressOk(address: Db, v: View, open: set<nat>) {
    && ChainOk(v.chain) && Represents(address + v.missing, v.chain)
    && address.Keys !! v.missing.Keys && MissingOpen(v, open)
  }

  ghost predicate Apart(records: Chain, chain: Chain) {
    forall m, n :: m in records && n in chain && m != n ==> records[m].time != chain[n].time
  }

  ghost predicate LogOk(log: Log, v: View) {
    && (forall n :: n in v.chain ==> n in log.latest && log.latest[n] == v.chain[n])
    && (forall n :: n in log.latest && n !in log.open ==> n in v.chain)
    && (forall n :: n in v.records && n !in log.unrecorded ==> n in v.chain && v.chain[n] == v.records[n])
  }

  /** The store under way can go on to its next operation. */
  ghost predicate FlightOk(log: Log, v: View) {
    log.flight.Some? ==>
      var b, n := log.flight.value.block, log.flight.value.block.number;
      && BlockOk(b) && AttemptOk(b, log.flight.value.attempt)
      && TimeFresh(v.chain, b) && TimeFresh(v.records, b)
      && (n in v.chain && v.chain[n] != b ==> IsFound(log.flight) && v.found == Some(v.chain[n]))
      && (IsPut(log.flight) ==> n in v.chain)
  }

  /** What the store under way is about to delete belongs to the block whose record it has read. */
  ghost predicate FoundOk(memory: Memory, log: Log, v: View) {
    && memory.undo == (if v.found.Some? then BlockPuts(v.found.value).Keys else {})
    && (v.found.Some? ==>
         && IsFound(log.flight) && v.found.value.number == log.flight.value.block.number
         && BlockOk(v.found.value) && TimeFresh(v.chain, v.found.value))
  }

  ghost predicate Inv(s: Index) {
    && AddressOk(s.dbs.address, s.view, s.log.open)
    && RecordsOk(s.dbs.block, s.view.records)
    && Apart(s.view.records, s.view.chain)
    && LogOk(s.log, s.view)
    && FlightOk(s.log, s.view)
    && FoundOk(s.memory, s.log, s.view)
  }

  // ----- Putting a block -----

  lemma PutEntriesAdds(dbs: Dbs, b: BlockDetail)
    ensures PutEntries(dbs, Entries(b)) == dbs.(address := dbs.address + BlockPuts(b))
  {
    PutAllOverrides(dbs.address, Records(Entries(b)));
  }

  lemma PutOverMissing(db: Db, missing: Db, puts: Db)
    ensures (db + puts) + (missing - puts.Keys) == (db + missing) + puts
  {
  }

  lemma PutInKeeps(address: Db, v: View, open: set<nat>, b: BlockDetail)
    requires AddressOk(address, v, open)
    requires BlockOk(b) && TimeFresh(v.chain, b) && Overwrites(b, v.chain)
    ensures AddressOk(address + BlockPuts(b), PutIn(v, b), open - {b.number})
  {
    hide BlockOk, BlockPuts, Represents, ChainOk;
    ReplaceBlock(address + v.missing, v.chain, b);
    PutOverMissing(address, v.missing, BlockPuts(b));
    forall k | k in PutIn(v, b).missing
      ensures OfOpen(k, PutIn(v, b).chain, open - {b.number})
    {
      var n :| n in open && n in v.chain && k in BlockPuts(v.chain[n]);
      assert n != b.number;
      assert PutIn(v, b).chain[n] == v.chain[n];
    }
  }

  lemma ReplaceBlock(db: Db, chain: Chain, b: BlockDetail)
    requires ChainOk(chain) && Represents(db, chain)
    requires BlockOk(b) && TimeFresh(chain, b) && Overwrites(b, chain)
    ensures ChainOk(chain[b.number := b]) && Represents(db + BlockPuts(b), chain[b.number := b])
  {
    hide BlockOk, BlockPuts, Represents, ChainOk, TimeFresh;
    if b.number in chain {
      RemoveBlock(db, chain, b.number);
      ChainReplaced(chain, b);
      AddBlock(db - BlockPuts(chain[b.number]).Keys, chain - {b.number}, b);
      Overwritten(db, {}, BlockPuts(chain[b.number]).Keys, BlockPuts(b));
      assert db - {} == db;
      assert (chain - {b.number})[b.number := b] == chain[b.number := b];
    } else {
      AddBlock(db, chain, b);
    }
  }

  lemma ChainPut(v: View, b: BlockDetail)
    requires Apart(v.records, v.chain) && TimeFresh(v.records, b)
    ensures Apart(v.records, PutIn(v, b).chain)
  {
    hide BlockPuts;
  }

  lemma EnteredOk(log: Log, v: View, b: BlockDetail)
    requires LogOk(log, v)
    ensures LogOk(Entered(log, b), PutIn(v, b))
  {
    hide BlockPuts;
  }

  lemma StoreEntriesKeeps(s: Index)
    requires Inv(s) && IsUndone(s.log.flight)
    ensures Step(s, StoreEntries).Some? && Inv(Step(s, StoreEntries).value)
  {
    hide BlockOk, AttemptOk, AddressOk, RecordsOk, LogOk, Apart, BlockPuts, Entries, PutEntries, PutIn, TimeFresh,
         Entered;
    var b := s.log.flight.value.block;
    PutEntriesAdds(s.dbs, b);
    InvPut(s, b);
    FlightPut(s.log, s.view);
    var s' := Step(s, StoreEntries).value;
    EnteredLog(s.log, b);
    SameLog(Entered(s.log, b), s'.log, s'.view);
  }

  lemma EnteredLog(log: Log, b: BlockDetail)
    ensures Entered(log, b).open == log.open - {b.number} && Entered(log, b).flight == log.flight
  {
  }

  lemma InvPut(s: Index, b: BlockDetail)
    requires Inv(s) && BlockOk(b) && TimeFresh(s.view.chain, b) && TimeFresh(s.view.records, b)
    requires Overwrites(b, s.view.chain)
    ensures AddressOk(s.dbs.address + BlockPuts(b), PutIn(s.view, b), s.log.open - {b.number})
    ensures PutIn(s.view, b).records == s.view.records && Apart(s.view.records, PutIn(s.view, b).chain)
    ensures PutIn(s.view, b).found == s.view.found
    ensures LogOk(Entered(s.log, b), PutIn(s.view, b))
  {
    hide BlockOk, AddressOk, RecordsOk, LogOk, FlightOk, FoundOk, Apart, BlockPuts, TimeFresh, Overwrites, Entered;
    PutInKeeps(s.dbs.address, s.view, s.log.open, b);
    ChainPut(s.view, b);
    EnteredOk(s.log, s.view, b);
  }

  /** What the log says of the blocks does not depend on the store under way. */
  lemma SameLog(log: Log, log': Log, v: View)
    requires LogOk(log, v) && log' == log.(flight := log'.flight)
    ensures LogOk(log', v)
  {
  }

  lemma FlightPut(log: Log, v: View)
    requires FlightOk(log, v) && IsUndone(log.flight)
    ensures FlightOk(Note(log, StoreEntries), PutIn(v, log.flight.value.block))
    ensures Overwrites(log.flight.value.block, v.chain)
  {
    hide BlockOk, AttemptOk, BlockPuts;
  }

  lemma BatchStoreKeeps(s: Index, b: BlockDetail)
    requires Inv(s) && EventOk(s, BatchStore(b))
    ensures Step(s, BatchStore(b)).Some? && Inv(Step(s, BatchStore(b)).value)
  {
    hide BlockOk, AttemptOk, AddressOk, RecordsOk, LogOk, Apart, BlockPuts, Entries, PutEntries, PutIn, Overwrites,
         Entered, FlightOk, FoundOk, TimeFresh;
    PutEntriesAdds(s.dbs, b);
    InvPut(s, b);
    EnteredLog(s.log, b);
    FlightBeside(s, b);
  }

  lemma FlightBeside(s: Index, b: BlockDetail)
    requires FlightOk(s.log, s.view) && FoundOk(s.memory, s.log, s.view) && EventOk(s, BatchStore(b))
    ensures FlightOk(Entered(s.log, b), PutIn(s.view, b)) && FoundOk(s.memory, Entered(s.log, b), PutIn(s.view, b))
  {
    hide BlockOk, AttemptOk, BlockPuts, Overwrites;
  }

  // ----- Undoing a block -----

  lemma RecordKeys(block: Db, records: Chain, n: nat)
    requires RecordsOk(block, records) && (n in records ==> Sparse(records[n], 254))
    ensures CanUndo(block, Decimal(n))
    ensures n in records <==> Decimal(n) in block
    ensures KeysToUndo(block, Decimal(n)) == if n in records then BlockPuts(records[n]).Keys else {}
  {
    hide BlockOk, BlockPuts, Describes, SidesOf, DecodedBlock, Sparse, ReorgKeys, BlockDbOk, Decimal;
    if Decimal(n) in block {
      assert NumberIn(Decimal(n), records);
      var m :| m in records && Decimal(n) == Decimal(m);
      DecimalInjective(n, m);
      RecordUndoes(block[Decimal(n)], records[n]);
    }
  }

  lemma RecordUndoes(value: Bytes, b: BlockDetail)
    requires IsRecord(value, b) && BlockOk(b) && Sparse(b, 254)
    ensures Undoable(value)
    ensures ReorgKeys(DecodedBlock(value).time, DecodedBlock(value).addresses) == BlockPuts(b).Keys
  {
    hide BlockOk, BlockPuts, Describes, SidesOf, DecodedBlock, ReorgKeys;
    var addresses := DecodedBlock(value).addresses;
    SparserBlock(b, 254, 255);
    ReorgKeyAgreement(b, addresses);
    forall i | 0 <= i < |addresses|
      ensures addresses[i].sequence <= 254
    {
      ListedAddress(b, addresses, i);
      OccursOk(b, addresses[i].address);
    }
  }

  /** A realtime store gets past the record of a block exactly if no address occurs 255 times modulo 256. */
  lemma RecordUndoableIff(value: Bytes, b: BlockDetail)
    requires IsRecord(value, b)
    ensures Undoable(value) <==>
            forall p :: 0 <= p < |SidesOf(b)| ==> Occurrences(SidesOf(b), SidesOf(b)[p].address) % 256 != 255
  {
    hide Describes, SidesOf, DecodedBlock, LoopsEnd;
    ReorgEnds(b, DecodedBlock(value).addresses);
    LoopsEndIff(DecodedBlock(value).addresses);
  }

  lemma SparserBlock(b: BlockDetail, bound: nat, more: nat)
    requires Sparse(b, bound) && bound <= more
    ensures Sparse(b, more)
  {
  }

  lemma TakenKeys(db: Db, missing: Db, keys: set<Bytes>)
    ensures (db - keys) + (missing - keys) == (db + missing) - keys
  {
  }

  lemma TakenElsewhere(db: Db, missing: Db, keys: set<Bytes>)
    requires (db + missing).Keys !! keys
    ensures (db - keys) + missing == db + missing
  {
    assert forall k :: k in db ==> k in db + missing;
  }

  lemma TakenPartly(db: Db, missing: Db, keys: set<Bytes>, puts: Db)
    requires Within(puts, db + missing)
    requires forall k :: k in db + missing && k in keys ==> k in puts
    ensures (db - keys) + (missing + Restricted(puts, keys)) == db + missing
  {
    assert forall k :: k in db ==> k in db + missing;
  }

  /** The keys of a version of a block lie in no block of another number. */
  lemma VersionKeysOwned(db: Db, chain: Chain, c: BlockDetail, k: Bytes)
    requires ChainOk(chain) && Represents(db, chain) && BlockOk(c) && TimeFresh(chain, c)
    requires k in db && k in BlockPuts(c)
    ensures c.number in chain && k in BlockPuts(chain[c.number])
  {
    hide BlockOk, BlockPuts, Represents;
    var m := OwnerOf(db, chain, k);
    if m != c.number {
      DisjointKeys(chain[m], c);
    }
  }

  /** The deletion of the store under way. */
  ghost predicate Deletes(v: View, b: BlockDetail, keys: set<Bytes>) {
    && keys == (if v.found.Some? then BlockPuts(v.found.value).Keys else {})
    && (v.found.Some? ==>
         v.found.value.number == b.number && BlockOk(v.found.value) && TimeFresh(v.chain, v.found.value))
    && (b.number in v.chain && v.chain[b.number] != b ==> v.found == Some(v.chain[b.number]))
  }

  lemma TakenOutRepresents(address: Db, v: View, b: BlockDetail, keys: set<Bytes>)
    requires ChainOk(v.chain) && Represents(address + v.missing, v.chain) && Deletes(v, b, keys)
    ensures var v' := TakenOut(v, b); ChainOk(v'.chain) && Represents((address - keys) + v'.missing, v'.chain)
  {
    hide BlockOk, BlockPuts, Represents, ChainOk, TimeFresh;
    var n, db := b.number, address + v.missing;
    if v.found.None? {
      assert address - keys == address;
    } else {
      forall k | k in db && k in keys
        ensures n in v.chain && k in BlockPuts(v.chain[n])
      {
        VersionKeysOwned(db, v.chain, v.found.value, k);
      }
      if n !in v.chain {
        TakenElsewhere(address, v.missing, keys);
      } else if v.chain[n] == v.found.value {
        RemoveBlock(db, v.chain, n);
        TakenKeys(address, v.missing, keys);
      } else {
        AllHeld(db, v.chain, n);
        TakenPartly(address, v.missing, keys, BlockPuts(b));
      }
    }
  }

  lemma AllHeld(db: Db, chain: Chain, n: nat)
    requires Represents(db, chain) && n in chain
    ensures Within(BlockPuts(chain[n]), db)
  {
    hide BlockPuts, Within;
    assert Parts(chain)[n] == BlockPuts(chain[n]);
  }

  lemma TakenOutApart(address: Db, v: View, b: BlockDetail, keys: set<Bytes>)
    requires address.Keys !! v.missing.Keys && Deletes(v, b, keys)
    ensures (address - keys).Keys !! TakenOut(v, b).missing.Keys
  {
    hide BlockPuts, BlockOk, TimeFresh;
  }

  lemma TakenOutMissing(v: View, b: BlockDetail, open: set<nat>, keys: set<Bytes>)
    requires MissingOpen(v, open) && Deletes(v, b, keys)
    ensures MissingOpen(TakenOut(v, b), open + {b.number})
  {
    hide BlockPuts, BlockOk, TimeFresh;
    var v' := TakenOut(v, b);
    forall k | k in v'.missing
      ensures OfOpen(k, v'.chain, open + {b.number})
    {
      if k in v.missing {
        var n :| n in open && n in v.chain && k in BlockPuts(v.chain[n]);
        assert n in v'.chain && v'.chain[n] == v.chain[n];
      } else {
        assert v'.chain[b.number] == b;
      }
    }
  }

  lemma TakenOutLog(log: Log, v: View)
    requires LogOk(log, v) && IsFound(log.flight)
    ensures LogOk(Note(log, DeleteOld), TakenOut(v, log.flight.value.block))
  {
    hide BlockPuts;
  }

  lemma TakenOutKeeps(v: View, b: BlockDetail)
    requires Apart(v.records, v.chain)
    ensures TakenOut(v, b).records == v.records && TakenOut(v, b).found.None?
    ensures Apart(v.records, TakenOut(v, b).chain)
  {
    hide BlockPuts;
  }

  lemma TakenOutFlight(log: Log, v: View)
    requires FlightOk(log, v) && IsFound(log.flight)
    ensures FlightOk(Note(log, DeleteOld), TakenOut(v, log.flight.value.block))
  {
    hide BlockOk, AttemptOk, BlockPuts;
  }

  lemma DeletesFound(s: Index)
    requires FlightOk(s.log, s.view) && FoundOk(s.memory, s.log, s.view) && IsFound(s.log.flight)
    ensures Deletes(s.view, s.log.flight.value.block, s.memory.undo)
  {
    hide BlockOk, AttemptOk, BlockPuts, TimeFresh;
  }

  lemma DeleteOldKeeps(s: Index)
    requires Inv(s) && IsFound(s.log.flight)
    ensures Step(s, DeleteOld).Some? && Inv(Step(s, DeleteOld).value)
  {
    hide BlockOk, RecordsOk, LogOk, FlightOk, Apart, BlockPuts, ChainOk, Represents, MissingOpen, TakenOut, Deletes;
    var b := s.log.flight.value.block;
    DeletesFound(s);
    TakenOutRepresents(s.dbs.address, s.view, b, s.memory.undo);
    TakenOutApart(s.dbs.address, s.view, b, s.memory.undo);
    TakenOutMissing(s.view, b, s.log.open, s.memory.undo);
    TakenOutLog(s.log, s.view);
    TakenOutKeeps(s.view, b);
    TakenOutFlight(s.log, s.view);
  }

  lemma FindOldKeeps(s: Index, b: BlockDetail, a: Attempt)
    requires Inv(s) && s.log.flight.None? && EventOk(s, FindOld(b, a))
    ensures Step(s, FindOld(b, a)).Some? && Inv(Step(s, FindOld(b, a)).value)
  {
    hide BlockOk, AttemptOk, RecordsOk, AddressOk, LogOk, FlightOk, BlockPuts, Sparse, KeysToUndo, Undoable, Apart,
         Fresh, TimeFresh;
    RecordKeys(s.dbs.block, s.view.records, b.number);
    RecordedOk(s.dbs.block, s.view.records, b.number);
    var v := Look(s.view, None, FindOld(b, a), s.dbs.block);
    SameChain(s.dbs.address, s.view, v, s.log.open);
    SameBlocks(s.log, s.view, Note(s.log, FindOld(b, a)), v);
    FlightStarts(s, b, a);
    if b.number in s.view.records {
      FoundFresh(s.view, b.number);
    }
  }

  /** What the log says of the blocks does not depend on the record that was read either. */
  lemma SameBlocks(log: Log, v: View, log': Log, v': View)
    requires LogOk(log, v) && log' == log.(flight := log'.flight) && v' == v.(found := v'.found)
    ensures LogOk(log', v')
  {
  }

  lemma FlightStarts(s: Index, b: BlockDetail, a: Attempt)
    requires s.log.flight.None? && EventOk(s, FindOld(b, a))
    ensures FlightOk(Note(s.log, FindOld(b, a)), Look(s.view, None, FindOld(b, a), s.dbs.block))
  {
    hide BlockOk, AttemptOk, BlockPuts, Sparse;
  }

  lemma FoundFresh(v: View, n: nat)
    requires Apart(v.records, v.chain) && n in v.records && v.records[n].number == n
    ensures TimeFresh(v.chain, v.records[n])
  {
  }

  lemma RecordedOk(block: Db, records: Chain, n: nat)
    requires RecordsOk(block, records)
    ensures n in records ==> BlockOk(records[n]) && records[n].number == n
  {
  }

  // ----- Records -----

  lemma NewRecord(b: BlockDetail, a: Attempt)
    requires BlockOk(b) && AttemptOk(b, a)
    ensures BlockFits(RecordOf(b, a)) && IsRecord(BlockValue(RecordOf(b, a)), b)
  {
    hide SidesOf, Describes, BlockFits;
    forall i | 0 <= i < |a.addresses|
      ensures |a.addresses[i].address| == ADDRESS_LENGTH
    {
      ListedAddress(b, a.addresses, i);
    }
    BlockRoundTrip(RecordOf(b, a));
  }

  lemma RecordPut(block: Db, records: Chain, b: BlockDetail, value: Bytes)
    requires RecordsOk(block, records) && BlockOk(b) && IsRecord(value, b)
    ensures RecordsOk(block[Decimal(b.number) := value], records[b.number := b])
  {
    hide BlockOk, Describes, DecodedBlock, Decimal;
    var block', records' := block[Decimal(b.number) := value], records[b.number := b];
    forall n | n in records'
      ensures BlockOk(records'[n]) && records'[n].number == n
      ensures Decimal(n) in block' && IsRecord(block'[Decimal(n)], records'[n])
    {
      if n != b.number && Decimal(n) == Decimal(b.number) {
        DecimalInjective(n, b.number);
      }
    }
    forall k | k in block'
      ensures NumberIn(k, records')
    {
      if k == Decimal(b.number) {
        assert b.number in records';
      } else {
        var n :| n in records && k == Decimal(n);
        assert n in records';
      }
    }
  }

  lemma StoreRecordKeeps(s: Index)
    requires Inv(s) && IsPut(s.log.flight)
    ensures Step(s, StoreRecord).Some? && Inv(Step(s, StoreRecord).value)
  {
    hide BlockOk, AttemptOk, RecordsOk, AddressOk, IsRecord, BlockFits, BlockValue, BlockPuts;
    var b, a := s.log.flight.value.block, s.log.flight.value.attempt;
    NewRecord(b, a);
    RecordPut(s.dbs.block, s.view.records, b, BlockValue(RecordOf(b, a)));
    SameChain(s.dbs.address, s.view, s.view.(records := s.view.records[b.number := b]), s.log.open);
  }

  /** The records play no part in what the address database means. */
  lemma SameChain(address: Db, v: View, v': View, open: set<nat>)
    requires AddressOk(address, v, open) && v'.chain == v.chain && v'.missing == v.missing
    ensures AddressOk(address, v', open) && ChainOk(v.chain)
  {
    hide ChainOk, Represents, OfOpen;
  }

  /** Whichever records are deleted, those left are as good as before. */
  lemma RecordsKept(block: Db, records: Chain, keys: set<Bytes>)
    requires RecordsOk(block, records)
    ensures RecordsOk(block - keys, Kept(records, block - keys))
  {
    hide BlockOk, IsRecord, Decimal;
    RestOk(block, keys);
    forall k | k in block - keys
      ensures NumberIn(k, Kept(records, block - keys))
    {
      assert NumberIn(k, records);
      var n :| n in records && k == Decimal(n);
      assert n in Kept(records, block - keys);
    }
  }

  lemma CleanDeleteKeeps(s: Index)
    requires Inv(s) && s.memory.cleaning.Doomed?
    ensures Step(s, CleanDelete).Some? && Inv(Step(s, CleanDelete).value)
  {
    hide BlockOk, AttemptOk, RecordsOk, AddressOk, BlockPuts;
    var block := s.dbs.block - s.memory.cleaning.keys;
    RecordsKept(s.dbs.block, s.view.records, s.memory.cleaning.keys);
    SameChain(s.dbs.address, s.view, s.view.(records := Kept(s.view.records, block)), s.log.open);
  }

  /** The reading steps of a cleaning change nothing but its memory. */
  lemma CleanReads(s: Index, e: Event)
    requires Inv(s) && (e.CleanRead? || e.CleanScan? || (e.CleanDelete? && !s.memory.cleaning.Doomed?))
    ensures Step(s, e).Some? && Inv(Step(s, e).value)
  {
    hide Inv, OldRun, UntilTime, BlockDbOk;
    RecordsOfInv(s);
    AllKept(s);
    var s' := Step(s, e).value;
    SameButCleaning(s, s');
  }

  lemma AllKept(s: Index)
    requires Inv(s)
    ensures s.view.records == Kept(s.view.records, s.dbs.block)
  {
    hide AddressOk, LogOk, FlightOk, FoundOk, Apart, IsRecord, BlockOk, Decimal;
  }

  lemma SameButCleaning(s: Index, s': Index)
    requires Inv(s) && s' == s.(memory := s.memory.(cleaning := s'.memory.cleaning))
    ensures Inv(s')
  {
    hide AddressOk, RecordsOk, LogOk, FlightOk, Apart, BlockOk, BlockPuts, TimeFresh;
  }

  // ----- Run refinement -----

  /** Every admissible event keeps the invariant, and completes. */
  lemma StepKeeps(s: Index, e: Event)
    requires Inv(s) && EventOk(s, e)
    ensures Step(s, e).Some? && Inv(Step(s, e).value)
  {
    hide Inv, EventOk;
    match e
    case FindOld(b, a) =>
      if s.log.flight.None? {
        FindOldKeeps(s, b, a);
      }
    case DeleteOld =>
      if IsFound(s.log.flight) {
        DeleteOldKeeps(s);
      }
    case StoreEntries =>
      if IsUndone(s.log.flight) {
        StoreEntriesKeeps(s);
      }
    case StoreRecord =>
      if IsPut(s.log.flight) {
        StoreRecordKeeps(s);
      }
    case Crash => CrashKeeps(s);
    case BatchStore(b) => BatchStoreKeeps(s, b);
    case CleanDelete =>
      if s.memory.cleaning.Doomed? {
        CleanDeleteKeeps(s);
      } else {
        CleanReads(s, e);
      }
    case _ => CleanReads(s, e);
  }

  lemma CrashKeeps(s: Index)
    requires Inv(s)
    ensures Step(s, Crash).Some? && Inv(Step(s, Crash).value)
  {
    hide AddressOk, RecordsOk, Apart, BlockPuts;
    SameChain(s.dbs.address, s.view, s.view.(found := None), s.log.open);
  }

  lemma EmptyInv()
    ensures Inv(EMPTY_INDEX)
  {
    assert Parts(map[]) == map[];
    assert EMPTY_INDEX.dbs.address + EMPTY_INDEX.view.missing == map[];
  }

  lemma {:induction false} StepsLog(s: Index, events: seq<Event>)
    requires s.log == NO_EVENTS && Steps(s, events).Some?
    ensures Steps(s, events).value.log == LogOf(events)
  {
    hide Write, Look, Note;
    if events != [] {
      StepsLog(s, events[..|events| - 1]);
    }
  }

  lemma {:induction false} RunKeeps(events: seq<Event>)
    requires RunOk(events)
    ensures Run(events).Some? && Inv(Run(events).value) && Run(events).value.log == LogOf(events)
  {
    hide Inv, EventOk, Step, Note;
    if events == [] {
      EmptyInv();
    } else {
      RunKeeps(events[..|events| - 1]);
      StepKeeps(Run(events[..|events| - 1]).value, events[|events| - 1]);
    }
    StepsLog(EMPTY_INDEX, events);
  }

  ghost predicate OfLatest(k: Bytes, value: Bytes, latest: Chain) {
    exists n :: n in latest && k in BlockPuts(latest[n]) && BlockPuts(latest[n])[k] == value
  }

  /**
    The databases index what the events brought: every block that is not open is there as a
    whole, every address record belongs to the latest version of some block, and with no block
    open the address database is exactly their union. A block record describes the latest version
    of its block unless a realtime store of the block has begun and not recorded it.
   */
  ghost predicate Indexes(dbs: Dbs, log: Log) {
    && (forall n :: n in log.latest && n !in log.open ==> Within(BlockPuts(log.latest[n]), dbs.address))
    && (forall k :: k in dbs.address ==> OfLatest(k, dbs.address[k], log.latest))
    && (log.open == {} ==> Represents(dbs.address, log.latest))
    && BlockDbOk(dbs.block)
    && (forall n: nat :: Decimal(n) in dbs.block && n !in log.unrecorded ==>
         n in log.latest && IsRecord(dbs.block[Decimal(n)], log.latest[n]))
  }

  lemma ClosedHeld(s: Index, n: nat)
    requires Inv(s) && n in s.log.latest && n !in s.log.open
    ensures Within(BlockPuts(s.log.latest[n]), s.dbs.address)
  {
    hide BlockPuts, BlockOk, RecordsOk, FlightOk, FoundOk, Apart, Represents;
    var chain, puts := s.view.chain, BlockPuts(s.view.chain[n]);
    AllHeld(s.dbs.address + s.view.missing, chain, n);
    forall k | k in puts
      ensures k in s.dbs.address && s.dbs.address[k] == puts[k]
    {
      if k in s.view.missing {
        var m :| m in s.log.open && m in chain && k in BlockPuts(chain[m]);
        DisjointKeys(chain[m], chain[n]);
      }
    }
  }

  lemma HeldIsLatest(s: Index, k: Bytes)
    requires Inv(s) && k in s.dbs.address
    ensures OfLatest(k, s.dbs.address[k], s.log.latest)
  {
    hide BlockPuts, BlockOk, RecordsOk, FlightOk, FoundOk, Apart, Represents, MissingOpen;
    var n := OwnerOf(s.dbs.address + s.view.missing, s.view.chain, k);
    assert s.log.latest[n] == s.view.chain[n];
    assert k !in s.view.missing;
  }

  lemma NothingMissing(s: Index)
    requires Inv(s) && s.log.open == {}
    ensures s.view.missing == map[] && s.view.chain == s.log.latest
    ensures Represents(s.dbs.address, s.log.latest)
  {
    hide BlockPuts, RecordsOk, FlightOk, FoundOk, Apart, Represents, ChainOk;
    assert forall k :: !OfOpen(k, s.view.chain, s.log.open);
    assert s.dbs.address + s.view.missing == s.dbs.address;
  }

  lemma RecordIsLatest(s: Index, n: nat)
    requires Inv(s) && Decimal(n) in s.dbs.block && n !in s.log.unrecorded
    ensures n in s.log.latest && IsRecord(s.dbs.block[Decimal(n)], s.log.latest[n])
  {
    hide BlockPuts, BlockOk, FlightOk, FoundOk, Apart, AddressOk, IsRecord, Decimal;
    assert NumberIn(Decimal(n), s.view.records);
    var m :| m in s.view.records && Decimal(n) == Decimal(m);
    DecimalInjective(n, m);
  }

  /** A state of a run indexes what its log tells. */
  lemma InvIndexes(s: Index)
    requires Inv(s)
    ensures Indexes(s.dbs, s.log)
  {
    hide Inv, BlockPuts, Represents, IsRecord, Within, OfLatest, BlockDbOk;
    forall n | n in s.log.latest && n !in s.log.open
      ensures Within(BlockPuts(s.log.latest[n]), s.dbs.address)
    {
      ClosedHeld(s, n);
    }
    forall k | k in s.dbs.address
      ensures OfLatest(k, s.dbs.address[k], s.log.latest)
    {
      HeldIsLatest(s, k);
    }
    forall n: nat | Decimal(n) in s.dbs.block && n !in s.log.unrecorded
      ensures n in s.log.latest && IsRecord(s.dbs.block[Decimal(n)], s.log.latest[n])
    {
      RecordIsLatest(s, n);
    }
    if s.log.open == {} {
      NothingMissing(s);
    }
    RecordsOfInv(s);
  }

  lemma RecordsOfInv(s: Index)
    requires Inv(s)
    ensures BlockDbOk(s.dbs.block)
  {
  }

  /**
    Run refinement: from empty databases, every admissible run, with a crash between any two
    writes and other writes at any point, goes on without a panic or an endless loop, and its
    databases index what its events brought.
   */
  lemma RunRefinement(events: seq<Event>)
    requires RunOk(events)
    ensures Run(events).Some? && Indexes(Run(events).value.dbs, LogOf(events))
  {
    hide RunOk, Run, Inv, Indexes, LogOf;
    RunKeeps(events);
    InvIndexes(Run(events).value);
  }

  /** Two runs that brought the same latest versions, and left no block open, end with the same address database. */
  lemma SameChainSameIndex(events: seq<Event>, events': seq<Event>)
    requires RunOk(events) && RunOk(events')
    requires LogOf(events).latest == LogOf(events').latest
    requires LogOf(events).open == {} && LogOf(events').open == {}
    ensures Run(events).Some? && Run(events').Some?
    ensures Run(events).value.dbs.address == Run(events').value.dbs.address
  {
    hide RunOk, Run, LogOf, Represents, BlockDbOk;
    RunRefinement(events);
    RunRefinement(events');
    RepresentsUnique(Run(events).value.dbs.address, Run(events').value.dbs.address, LogOf(events).latest);
  }

  // ----- Whole stores -----

  lemma CanStoreOk(block: Db, b: BlockDetail, a: Attempt)
    requires BlockOk(b) && AttemptOk(b, a) && CanUndo(block, Decimal(b.number))
    ensures CanStore(block, RecordOf(b, a))
  {
    hide BlockOk, AttemptOk, Undoable, IsRecord, BlockFits;
    NewRecord(b, a);
  }

  /** The steps of a realtime store, with nothing in between, are what the method Store does. */
  lemma StoreIsFourSteps(s: Index, b: BlockDetail, a: Attempt)
    requires s.log.flight.None? && CanStore(s.dbs.block, RecordOf(b, a))
    ensures var after := Steps(s, [FindOld(b, a), DeleteOld, StoreEntries, StoreRecord]);
      && after.Some? && after.value.dbs == Stored(s.dbs, Entries(b), RecordOf(b, a), false)
      && after.value.log.flight.None?
  {
    hide Look, BlockFits, BlockValue, Undoable, KeysToUndo, Entries, PutEntries, Step;
    var s1 := FirstTwoSteps(s, b, a);
    var s2 := LastTwoSteps(s1, b, a);
    assert [FindOld(b, a), DeleteOld, StoreEntries, StoreRecord] ==
           [] + [FindOld(b, a)] + [DeleteOld] + [StoreEntries] + [StoreRecord];
    StepAfter(s, [], FindOld(b, a));
    StepAfter(s, [] + [FindOld(b, a)], DeleteOld);
    StepAfter(s, [] + [FindOld(b, a)] + [DeleteOld], StoreEntries);
    StepAfter(s, [] + [FindOld(b, a)] + [DeleteOld] + [StoreEntries], StoreRecord);
  }

  lemma StepAfter(s: Index, events: seq<Event>, e: Event)
    ensures Steps(s, events + [e]) ==
            if Steps(s, events).None? then None else Step(Steps(s, events).value, e)
  {
    hide Step;
    assert (events + [e])[..|events|] == events;
  }

  lemma FirstTwoSteps(s: Index, b: BlockDetail, a: Attempt) returns (after: Index)
    requires s.log.flight.None? && CanStore(s.dbs.block, RecordOf(b, a))
    ensures Step(s, FindOld(b, a)).Some? && Step(Step(s, FindOld(b, a)).value, DeleteOld) == Some(after)
    ensures after.dbs == Undo(s.dbs, RecordOf(b, a)) && after.log.flight == Some(Undone(b, a))
  {
    hide Look, BlockFits, Undoable, KeysToUndo;
    after := Step(Step(s, FindOld(b, a)).value, DeleteOld).value;
  }

  lemma LastTwoSteps(s: Index, b: BlockDetail, a: Attempt) returns (after: Index)
    requires s.log.flight == Some(Undone(b, a)) && BlockFits(RecordOf(b, a))
    ensures Step(s, StoreEntries).Some? && Step(Step(s, StoreEntries).value, StoreRecord) == Some(after)
    ensures after.dbs == PutBlock(PutEntries(s.dbs, Entries(b)), RecordOf(b, a)) && after.log.flight.None?
  {
    hide Look, BlockFits, BlockValue, Entries, PutEntries;
    after := Step(Step(s, StoreEntries).value, StoreRecord).value;
  }

  /** The steps of a cleaning, with nothing in between, are what CleanBlockDB does. */
  lemma CleanIsThreeSteps(s: Index, ttl: int)
    requires BlockDbOk(s.dbs.block)
    ensures var after := Steps(s, [CleanRead(ttl), CleanScan, CleanDelete]);
      after.Some? && after.value.dbs == s.dbs.(block := Cleaned(s.dbs.block, ttl))
  {
    hide Step, BlockDbOk, Cleaned;
    var after := CleanSteps(s, ttl);
    assert [CleanRead(ttl), CleanScan, CleanDelete] == [] + [CleanRead(ttl)] + [CleanScan] + [CleanDelete];
    StepAfter(s, [], CleanRead(ttl));
    StepAfter(s, [] + [CleanRead(ttl)], CleanScan);
    StepAfter(s, [] + [CleanRead(ttl)] + [CleanScan], CleanDelete);
  }

  lemma CleanSteps(s: Index, ttl: int) returns (after: Index)
    requires BlockDbOk(s.dbs.block)
    ensures Step(s, CleanRead(ttl)).Some? && Step(Step(s, CleanRead(ttl)).value, CleanScan).Some?
    ensures Step(Step(Step(s, CleanRead(ttl)).value, CleanScan).value, CleanDelete) == Some(after)
    ensures after.dbs == s.dbs.(block := Cleaned(s.dbs.block, ttl))
  {
    hide Look, Note, BlockDbOk, OldRun, UntilTime;
    var s1 := Step(s, CleanRead(ttl)).value;
    var s2 := Step(s1, CleanScan).value;
    after := Step(s2, CleanDelete).value;
  }

  lemma StoredIs(dbs: Dbs, b: BlockDetail, a: Attempt)
    requires CanStore(dbs.block, RecordOf(b, a))
    ensures Stored(dbs, Entries(b), RecordOf(b, a), false) ==
            Dbs(dbs.address - KeysToUndo(dbs.block, Decimal(b.number)) + BlockPuts(b),
                dbs.block[Decimal(b.number) := BlockValue(RecordOf(b, a))])
  {
    hide Undoable, BlockValue, KeysToUndo, BlockPuts, Entries, BlockFits, PutEntries;
    PutEntriesAdds(Undo(dbs, RecordOf(b, a)), b);
  }

  lemma CutOffIs(dbs: Dbs, b: BlockDetail, a: Attempt, k: nat)
    requires CanStore(dbs.block, RecordOf(b, a))
    ensures var crashed, number := CutOff(dbs, Entries(b), RecordOf(b, a), k), Decimal(b.number);
      && crashed.block == (if k >= 3 then dbs.block[number := BlockValue(RecordOf(b, a))] else dbs.block)
      && crashed.address ==
         if k == 0 then dbs.address
         else if k == 1 then dbs.address - KeysToUndo(dbs.block, number)
         else dbs.address - KeysToUndo(dbs.block, number) + BlockPuts(b)
  {
    hide Undoable, BlockValue, KeysToUndo, BlockPuts, Entries, BlockFits, PutEntries;
    PutEntriesAdds(Undo(dbs, RecordOf(b, a)), b);
  }

  /** What a realtime store leaves after each of its writes; the deletion is left out when no address is recorded. */
  lemma TraceIs(dbs: Dbs, b: BlockDetail, a: Attempt)
    requires CanStore(dbs.block, RecordOf(b, a))
    ensures var trace, number := Trace(dbs, Entries(b), RecordOf(b, a), false), Decimal(b.number);
      var undone := dbs.address - KeysToUndo(dbs.block, number);
      && |trace| == (if HasAddresses(dbs.block, number) then 3 else 2)
      && (|trace| == 3 ==> trace[0] == Dbs(undone, dbs.block))
      && trace[|trace| - 2] == Dbs(undone + BlockPuts(b), dbs.block)
      && trace[|trace| - 1] == Dbs(undone + BlockPuts(b), dbs.block[number := BlockValue(RecordOf(b, a))])
  {
    hide CutOff, CanStore, KeysToUndo, BlockPuts, Undoable, BlockFits, BlockValue, Entries, HasAddresses;
    CutOffIs(dbs, b, a, 1);
    CutOffIs(dbs, b, a, 2);
    CutOffIs(dbs, b, a, 3);
  }

  /**
    Crash retry: a realtime store that was cut off after any of its writes, in any databases, and
    is then repeated, perhaps with another clock and another order of the record, leaves exactly
    what one uninterrupted store leaves. Once the record was written, the retry undoes it, which
    asks that no address occurs more than 254 times.
   */
  lemma CrashRetry(dbs: Dbs, b: BlockDetail, first: Attempt, k: nat, second: Attempt)
    requires BlockOk(b) && AttemptOk(b, first) && AttemptOk(b, second)
    requires CanUndo(dbs.block, Decimal(b.number)) && (k >= 3 ==> Sparse(b, 254))
    ensures CanStore(dbs.block, RecordOf(b, first)) && CanStore(dbs.block, RecordOf(b, second))
    ensures var crashed := CutOff(dbs, Entries(b), RecordOf(b, first), k);
      && CanStore(crashed.block, RecordOf(b, second))
      && Stored(crashed, Entries(b), RecordOf(b, second), false) == Stored(dbs, Entries(b), RecordOf(b, second), false)
  {
    hide Stored, CutOff, CanStore, Undoable, BlockPuts, KeysToUndo, AttemptOk, BlockOk, BlockValue, Sparse;
    CanStoreOk(dbs.block, b, first);
    CanStoreOk(dbs.block, b, second);
    CutOffIs(dbs, b, first, k);
    UndoableAfter(dbs, b, first, k);
    var crashed := CutOff(dbs, Entries(b), RecordOf(b, first), k);
    CanStoreOk(crashed.block, b, second);
    StoredIs(dbs, b, second);
    StoredIs(crashed, b, second);
    var number := Decimal(b.number);
    RetryAddress(dbs.address, KeysToUndo(dbs.block, number), BlockPuts(b), k,
                 crashed.address, KeysToUndo(crashed.block, number));
  }

  /** What the next store of b would undo after a crash: the same as before, or the keys of b. */
  lemma UndoableAfter(dbs: Dbs, b: BlockDetail, a: Attempt, k: nat)
    requires BlockOk(b) && AttemptOk(b, a) && CanStore(dbs.block, RecordOf(b, a)) && (k >= 3 ==> Sparse(b, 254))
    ensures var crashed, number := CutOff(dbs, Entries(b), RecordOf(b, a), k), Decimal(b.number);
      && CanUndo(crashed.block, number)
      && KeysToUndo(crashed.block, number) ==
         if k >= 3 then BlockPuts(b).Keys else KeysToUndo(dbs.block, number)
  {
    hide CutOff, BlockPuts, Undoable, ReorgKeys, AttemptOk, BlockOk, BlockValue, IsRecord, DecodedBlock, Sparse;
    CutOffIs(dbs, b, a, k);
    if k >= 3 {
      NewRecord(b, a);
      RecordUndoes(BlockValue(RecordOf(b, a)), b);
    }
  }

  /** Undoing and putting again after k writes makes up for all that was lost or half done. */
  lemma RetryAddress(db: Db, keys: set<Bytes>, puts: Db, k: nat, crashed: Db, keys': set<Bytes>)
    requires crashed == if k == 0 then db else if k == 1 then db - keys else db - keys + puts
    requires keys' == if k >= 3 then puts.Keys else keys
    ensures crashed - keys' + puts == db - keys + puts
  {
  }

  /**
    Batch recovery: if the block of a store that was cut off after its first or second write comes
    back as a batch store, the address database is that of one uninterrupted realtime store, but
    the block database still has whatever record the block had before.
   */
  lemma BatchRecovery(dbs: Dbs, b: BlockDetail, a: Attempt, k: nat)
    requires BlockOk(b) && AttemptOk(b, a) && CanUndo(dbs.block, Decimal(b.number)) && 1 <= k <= 2
    ensures CanStore(dbs.block, RecordOf(b, a))
    ensures PutEntries(CutOff(dbs, Entries(b), RecordOf(b, a), k), Entries(b)) ==
            Dbs(Stored(dbs, Entries(b), RecordOf(b, a), false).address, dbs.block)
  {
    hide Stored, CutOff, CanStore, Undoable, BlockPuts, KeysToUndo, AttemptOk, BlockOk, BlockValue, Entries, PutEntries;
    CanStoreOk(dbs.block, b, a);
    CutOffIs(dbs, b, a, k);
    StoredIs(dbs, b, a);
    PutEntriesAdds(CutOff(dbs, Entries(b), RecordOf(b, a), k), b);
    PutAgain(dbs.address - KeysToUndo(dbs.block, Decimal(b.number)), BlockPuts(b));
  }

  lemma PutAgain(db: Db, puts: Db)
    ensures db + puts + puts == db + puts
  {
  }

  // ----- A new version -----

  /** What a realtime store undoes is part of the recorded block, and all of it exactly up to 255 occurrences. */
  lemma UndoneKeys(block: Db, records: Chain, n: nat)
    requires RecordsOk(block, records) && CanUndo(block, Decimal(n))
    ensures n in records <==> Decimal(n) in block
    ensures n in records ==> BlockOk(records[n]) && KeysToUndo(block, Decimal(n)) <= BlockPuts(records[n]).Keys
    ensures n in records ==> (KeysToUndo(block, Decimal(n)) == BlockPuts(records[n]).Keys <==> Sparse(records[n], 255))
    ensures n !in records ==> KeysToUndo(block, Decimal(n)) == {}
  {
    hide BlockOk, BlockPuts, Describes, SidesOf, DecodedBlock, Sparse, ReorgKeys, BlockDbOk, Decimal, Undoable;
    if Decimal(n) in block {
      assert NumberIn(Decimal(n), records);
      var m :| m in records && Decimal(n) == Decimal(m);
      DecimalInjective(n, m);
      ReorgKeyAgreement(records[n], DecodedBlock(block[Decimal(n)]).addresses);
    }
  }

  /** A new version of an indexed block arrives while no block misses anything. */
  ghost predicate NewVersion(s: Index, b: BlockDetail, a: Attempt) {
    && Inv(s) && s.view.missing == map[]
    && BlockOk(b) && AttemptOk(b, a) && Fresh(s, b) && b.number in s.view.chain
  }

  /**
    When a realtime store of a new version is right, whatever record it finds: exactly if every
    key of the version indexed is undone or overwritten. Without a record nothing is undone; with
    the record of another version than the one indexed, that other version is.
   */
  lemma NewVersionIff(s: Index, b: BlockDetail, a: Attempt)
    requires NewVersion(s, b, a) && CanUndo(s.dbs.block, Decimal(b.number))
    ensures CanStore(s.dbs.block, RecordOf(b, a))
    ensures Represents(Stored(s.dbs, Entries(b), RecordOf(b, a), false).address, s.view.chain[b.number := b]) <==>
            BlockPuts(s.view.chain[b.number]).Keys <= KeysToUndo(s.dbs.block, Decimal(b.number)) + BlockPuts(b).Keys
  {
    hide Stored, CanStore, BlockPuts, BlockOk, AttemptOk, BlockValue, Sparse, Represents, KeysToUndo, RecordsOk,
         MissingOpen, LogOk, FlightOk, FoundOk, ChainOk, TimeFresh, Apart, Undoable;
    UndoneKeys(s.dbs.block, s.view.records, b.number);
    CanStoreOk(s.dbs.block, b, a);
    StoredIs(s.dbs, b, a);
    assert s.dbs.address + s.view.missing == s.dbs.address;
    RecordedOk(s.dbs.block, s.view.records, b.number);
    UndoneOfVersion(s.dbs.address, s.view, b.number, KeysToUndo(s.dbs.block, Decimal(b.number)));
    ReplacedIff(s.dbs.address, s.view.chain, b, KeysToUndo(s.dbs.block, Decimal(b.number)));
  }

  lemma ReplacedIff(db: Db, chain: Chain, b: BlockDetail, keys: set<Bytes>)
    requires ChainOk(chain) && Represents(db, chain) && BlockOk(b) && TimeFresh(chain, b) && b.number in chain
    requires forall k :: k in db && k in keys ==> k in BlockPuts(chain[b.number])
    ensures Represents(db - keys + BlockPuts(b), chain[b.number := b]) <==>
            BlockPuts(chain[b.number]).Keys <= keys + BlockPuts(b).Keys
  {
    hide BlockPuts, BlockOk, Represents, TimeFresh, ChainOk;
    var n, stale, puts := b.number, BlockPuts(chain[b.number]), BlockPuts(b);
    if stale.Keys <= keys + puts.Keys {
      RemoveBlock(db, chain, n);
      ChainReplaced(chain, b);
      AddBlock(db - stale.Keys, chain - {n}, b);
      Overwritten(db, keys, stale.Keys, puts);
      assert (chain - {n})[n := b] == chain[n := b];
    } else if Represents(db - keys + puts, chain[n := b]) {
      var k :| k in stale.Keys && k !in puts.Keys && k !in keys;
      HeldIn(db, chain, n, k);
      StaleKey(db - keys + puts, chain, b, k);
    }
  }

  lemma UndoneOfVersion(db: Db, v: View, n: nat, keys: set<Bytes>)
    requires ChainOk(v.chain) && Represents(db, v.chain) && Apart(v.records, v.chain) && n in v.chain
    requires n in v.records ==> BlockOk(v.records[n]) && v.records[n].number == n
    requires keys <= if n in v.records then BlockPuts(v.records[n]).Keys else {}
    ensures forall k :: k in db && k in keys ==> k in BlockPuts(v.chain[n])
  {
    hide BlockPuts, BlockOk, Represents, ChainOk, Apart;
    if n in v.records {
      FoundFresh(v, n);
      forall k | k in db && k in keys
        ensures k in BlockPuts(v.chain[n])
      {
        VersionKeysOwned(db, v.chain, v.records[n], k);
      }
    }
  }

  /**
    When a batch store of a new version is right: exactly if it overwrites every key of the version
    indexed. It undoes nothing and leaves the record as it is.
   */
  lemma BatchVersionIff(s: Index, b: BlockDetail)
    requires Inv(s) && s.view.missing == map[]
    requires BlockOk(b) && TimeFresh(s.view.chain, b) && b.number in s.view.chain
    ensures Represents(PutEntries(s.dbs, Entries(b)).address, s.view.chain[b.number := b]) <==>
            BlockPuts(s.view.chain[b.number]).Keys <= BlockPuts(b).Keys
  {
    hide BlockPuts, BlockOk, Represents, RecordsOk, MissingOpen, LogOk, FlightOk, FoundOk, ChainOk, TimeFresh, Apart,
         PutEntries, Entries;
    PutEntriesAdds(s.dbs, b);
    assert s.dbs.address + s.view.missing == s.dbs.address;
    ReplacedIff(s.dbs.address, s.view.chain, b, {});
    assert s.dbs.address - {} == s.dbs.address;
  }

  /**
    The exact limit of reorganisations: a realtime store that replaces a recorded block by a version
    with another time gets to its end and is right exactly if no address occurs more than 254 times
    in the recorded block.
   */
  lemma ReorgIff(s: Index, b: BlockDetail, a: Attempt)
    requires NewVersion(s, b, a) && s.view.chain[b.number].time != b.time
    requires b.number in s.view.records && s.view.records[b.number] == s.view.chain[b.number]
    ensures (CanStore(s.dbs.block, RecordOf(b, a)) &&
             Represents(Stored(s.dbs, Entries(b), RecordOf(b, a), false).address, s.view.chain[b.number := b])) <==>
            Sparse(s.view.chain[b.number], 254)
  {
    hide Stored, BlockPuts, BlockOk, AttemptOk, BlockValue, Sparse, Represents, KeysToUndo, AddressOk, BlockFits,
         LogOk, FlightOk, FoundOk, TimeFresh, Apart, Undoable, IsRecord, NumberIn, BlockDbOk, Entries;
    var n, c := b.number, s.view.chain[b.number];
    RecordUndoableIff(s.dbs.block[Decimal(n)], c);
    SparseIff(c);
    if CanUndo(s.dbs.block, Decimal(n)) {
      UndoneKeys(s.dbs.block, s.view.records, n);
      NewVersionIff(s, b, a);
      DisjointKeys(c, b);
    }
  }

  lemma SparseIff(b: BlockDetail)
    ensures Sparse(b, 254) <==>
            && Sparse(b, 255)
            && forall p :: 0 <= p < |SidesOf(b)| ==> Occurrences(SidesOf(b), SidesOf(b)[p].address) % 256 != 255
  {
  }

  lemma ChainReplaced(chain: Chain, b: BlockDetail)
    requires ChainOk(chain) && TimeFresh(chain, b)
    ensures ChainOk(chain - {b.number}) && TimeFresh(chain - {b.number}, b)
  {
    hide BlockOk;
  }

  lemma Overwritten(db: Db, keys: set<Bytes>, stale: set<Bytes>, puts: Db)
    requires stale <= keys + puts.Keys && forall k :: k in db && k in keys ==> k in stale
    ensures db - keys + puts == db - stale + puts
  {
  }

  /** An index of the new version has no key that only the old version had. */
  lemma StaleKey(db: Db, chain: Chain, b: BlockDetail, k: Bytes)
    requires ChainOk(chain) && b.number in chain && Represents(db, chain[b.number := b])
    requires k in BlockPuts(chain[b.number]) && k !in BlockPuts(b)
    ensures k !in db
  {
    hide BlockPuts, BlockOk, Represents;
    if k in db {
      var n := OwnerOf(db, chain[b.number := b], k);
      assert n != b.number;
      DisjointKeys(chain[n], chain[b.number]);
    }
  }
}

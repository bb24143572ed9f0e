# account-indexer: a verified model

The program keeps three LevelDB databases: an address database that answers "which transactions
touched this account, in time order", a block database that remembers what was written for recent
blocks so that a reorganised block can be undone, and a batch database with the progress of the
workers that index old blocks. This project models that index and proves that it always agrees
with the simple thing it speeds up: for each block number the latest version seen, and for each
account its transactions over those versions.

`dafny verify dfyconfig.toml` checks everything.

| file | what it holds |
|---|---|
| `ByteStrings.dfy`, `Datetime.dfy` | lexicographic byte order, big-endian and decimal numbers, the time encodings |
| `Types.dfy` | the records of `core/types` |
| `ByteMarshaller.dfy` | key and value formats of the three databases |
| `OrderedStore.dfy` | sorted keys, ranges, scans, write batches, unions of stores |
| `LevelDbDAO.dfy` | the cursor, paging, counting, puts and deletes (class `LevelDbDAO`) |
| `IndexData.dfy` | sequence numbering of a block's transactions, conservation of value |
| `IndexRepo.dfy`, `Cleaner.dfy` | class `KVIndexRepo`: store, reorganisation, queries, cleaning |
| `ChainIndex.dfy` | what the address database means: the union of the entries of a chain |
| `IndexRun.dfy` | runs, one database operation at a time: realtime stores, crashes, batch stores, cleanings |
| `Limits.dfy` | concrete blocks and runs outside the premises of the main results |
| `Queries.dfy` | what the queries return over a chain |
| `BatchStatus.dfy`, `BatchRepo.dfy` | batch cursor, stripes, persisted batch statuses |
| `Indexer.dfy` | class `Indexer`: processing a block, the worker loop, the batches after a restart |
| `Scheduler.dfy`, `Confluence.dfy` | workers, deaths, restarts and the single operations of the rest in any interleaving |

## How to read the model

- Addresses and hashes are the bytes that decoding their hexadecimal text returns: none for an empty
  text or one without the `0x` prefix, and for any other malformed text the bytes before the error,
  which the program ignores. A query takes any bytes, so a malformed address is one that selects by
  a shorter prefix. Block times and clocks are whole Unix seconds; a query bound is an instant, and
  the zero `time.Time` is `None`. A `uint8` is a `Byte`, and its wrap-around is written out.
- A database is a map from byte strings to byte strings. LevelDB itself is not modelled: a scan is
  the sorted run of the records in a range, a write batch takes effect as a whole, deleting an
  absent key does nothing, and no operation fails. The prefix range of goleveldb is defined, and
  `PrefixRange` proves that it holds exactly the keys with the prefix.
- Class methods are proved against functions on these maps (`Stored`, `Trace`, `Matches`,
  `Cleaned`, `StoreAll`, `RestartBatches`, ...), and the main results are lemmas about those
  functions: over all runs, all schedules and all queries.
- The clock, the blocks a node returns and the order in which Go walks a map are arbitrary: they are
  parameters, or left open by the contract.

## Main results

- `RunRefinement`: a run is any sequence of single database operations from empty databases. A
  realtime store reads the old record, deletes, puts its entries and puts its record; a cleaning
  reads the last record, reads which records are old, and deletes them; in between come batch
  stores, the operations of the other goroutine, and crashes, after which a store is retried at any
  time, or never, or comes back as a batch store. Every admissible run goes on without a panic or an
  endless loop. After it every block that is not open is indexed in its latest version as a whole,
  no record belongs to anything else, and with no block open the address database is exactly the
  union of the entries of the latest versions. A block is open from the deletion of a realtime store
  of it until its entries are put. A block record describes the latest version unless a realtime
  store of the block has not got to its record, or a batch store has brought a new version.
- What is asked of a run, and what happens otherwise:
  - times of four bytes, and no two block numbers with one time among the blocks indexed, recorded
    or under way. `AddBlockIff` and `RemoveBlockIff` say exactly when putting and undoing a block is
    right with no premise on times. `EqualTimes` gives two blocks that no database can index, and
    `PassingEqualTimes` a reorganisation that goes wrong although the old blocks have distinct times
    and so have the new ones;
  - a realtime store that finds a record needs at most 254 occurrences of an address in the recorded
    block: `ReorgIff` shows that this bound is exact, and `ReorgEnds`, `ReorgKeyAgreement` and
    `NothingLost` which part fails at 255, at 256 and from 257 on (`BurstLimits`, `BurstReorg`). A
    batch store, and a realtime store that finds no record, need no bound;
  - a realtime store brings a new version only while the record describes the version indexed.
    `NewVersionIff` says exactly when it is right whatever the record; `NoRecord` and `StaleRecord`
    are runs that go wrong;
  - a batch store, as a restart or a rerun makes, brings a new version only if that overwrites every
    key of the one indexed. `BatchVersionIff` shows that this is exact, and `BatchVersion` is a run
    that goes wrong.
- `CrashRetry`: a store cut off after any of its writes and repeated equals one uninterrupted store,
  in any databases. `BatchRecovery`: if the block comes back as a batch store instead, the address
  database is the same and the block database keeps the record from before.
- `HistoryIsScanIff`: over the index of a chain, a query selects the account's history in time and
  transaction order exactly if the account itself occurs at most 255 times in each block within the
  bounds, however often other accounts do. `QueryAfterRun`: in every state of a run in which no entry
  of the account is missing, the total and every row of a page are those of the account's history:
  hash, time, counterparty and the magnitude of the value.
  `BoundExactIff` says, for every integer, whether it is an exact time bound.
- `TransactionEntries`: of every transaction of a block, where its sender's and its receiver's entry
  stand and what every field of them is, and that there are no other entries.
- `SchedulerProgress`, `Coverage`: under any interleaving of any number of workers, deaths and
  restarts, whatever versions the node returns and whatever else happens to the index, a persisted
  current block means that all blocks of the batch up to it have been put; once of every stripe some
  batch, perhaps with an end that a restart has moved, is persisted as done, every block has been
  put. `CatchUp`: once the batches of a restart are persisted as done, so has every block from the
  last known to the latest one. `ProgressOnDisk` says the same of the records of the batch database.
- `SchedulerSafety`, `Completeness`: if moreover the blocks and events are admissible, the databases
  index what has been put, and no block is missing.
- `Confluence`: against one version of the chain, every such schedule leaves the address database
  that indexing the blocks one by one leaves, however often an address occurs in a block.

Where the program and its own documentation disagree, the model follows the code: batch ends are
inclusive although the comment at `indexer/indexer.go:183` says otherwise; address values hold no
block number although the repository's own README lists one; batch keys hold the step, which that
README omits; `ReplaceBatch` asks for no rows and so never replaces anything; and the `break` on the
stop channel in `batchIndex` leaves only the `select`, so workers go on after a stop.

## Model

| member | source | states |
|---|---|---|
| ByteStrings.DecimalOrder | repository/keyvalue/marshal/byte_marshaller.go:245-255 | byte order of two unpadded block keys is numeric order for equally many digits; a shorter key comes first exactly if its number is at most the longer one's leading digits |
| ByteStrings.DecimalRoundTrip | repository/keyvalue/marshal/byte_marshaller.go:250-255 | parsing a block key gives its number back |
| ByteStrings.DecimalDigits | repository/keyvalue/marshal/byte_marshaller.go:245-247 | the characters of a number text are its decimal digits, without a leading zero |
| ByteStrings.BigBytesWidth | common/datetime.go:10-26 | a number takes four bytes exactly in [2^24, 2^32) |
| Datetime.MarshallTimeTruncates | common/datetime.go:10-19 | a time with k digits too many is stored without its last k digits (milliseconds as seconds) |
| Datetime.TimeRoundTrip | common/datetime.go:10-33 | decoding an encoded time restores it exactly for non-negative times of at most ten digits |
| Datetime.EncodersAgree | common/datetime.go:10-26 | both encoders agree up to ten digits, and are four bytes wide exactly in [2^24, 2^32) |
| Datetime.TimeOrder | common/datetime.go:10-26 | four-byte encoded times compare like the times, and are equal only for equal times |
| ByteMarshaller.AddressKeyOrder | repository/keyvalue/marshal/byte_marshaller.go:87-116 | byte order of address keys is the order of (address, time, sequence); keys are injective |
| ByteMarshaller.PrefixEncodersAgree | repository/keyvalue/marshal/byte_marshaller.go:106-128 | the two time-prefix encoders build the same prefix up to ten digits |
| ByteMarshaller.AddressLayout | repository/keyvalue/marshal/byte_marshaller.go:87-145 | where address, time and sequence lie in a key, and hash, counterparty and magnitude in a value |
| ByteMarshaller.AddressEntryRoundTrip | repository/keyvalue/marshal/byte_marshaller.go:87-181 | field by field, a decoded address record has the address, time, hash and counterparty of its entry and the magnitude of the value; the sequence reads as 0 |
| ByteMarshaller.MarshallBlockValue | repository/keyvalue/marshal/byte_marshaller.go:27-59 | the buffer after all writes in order, or a panic past its end, whatever the widths; within their widths, two left-aligned times and one 21-byte slot per address |
| ByteMarshaller.UnmarshallBlockValue | repository/keyvalue/marshal/byte_marshaller.go:62-84 | the loop decodes every slot in order |
| ByteMarshaller.BlockRoundTrip | repository/keyvalue/marshal/byte_marshaller.go:27-84 | a block value has 8+21n bytes and decoding restores both times and the address list in order |
| ByteMarshaller.BlockLayout | repository/keyvalue/marshal/byte_marshaller.go:27-59 | the creation time lies in bytes 0 to 3, the block time in 4 to 7, and address and sequence of pair i from byte 8+21i on |
| ByteMarshaller.BlockTimeSurvives | repository/keyvalue/marshal/byte_marshaller.go:27-84 | of the times of at most four bytes, exactly 0 and the four-byte ones survive the left-aligned field |
| ByteMarshaller.BlockNumberWidPad | repository/keyvalue/marshal/byte_marshaller.go:257-267 | pads to ten digits, and gives nothing for ten digits or more |
| ByteMarshaller.BatchKeyRoundTrip | repository/keyvalue/marshal/byte_marshaller.go:206-242 | batch keys decode to what was encoded exactly if both block numbers are below 10^9 |
| ByteMarshaller.BatchValueRoundTrip | repository/keyvalue/marshal/byte_marshaller.go:184-203 | batch values decode to update time and current block |
| OrderedStore.PrefixRange | repository/keyvalue/dao/leveldb_dao.go:53-64 | the prefix range holds exactly the keys with the prefix |
| OrderedStore.ScanUnique | repository/keyvalue/dao/leveldb_dao.go:60-78 | a sorted list of exactly the records of a range is what a scan visits |
| Dao.FindByIterator | repository/keyvalue/dao/leveldb_dao.go:80-115 | total is min(N, 10001); the result is the requested rows of the matches in walking order, up or down, within that total |
| Dao.PageIs | repository/keyvalue/dao/leveldb_dao.go:80-115 | in numbers: the total is the count up to 10000 and 10001 above; a page has as many of the requested rows as that leaves, and row i is the match start + i from the first or from the last |
| Dao.PagesTile | repository/keyvalue/dao/leveldb_dao.go:80-115 | consecutive pages join to the first matches without gap or overlap, up to the 10001st |
| Dao.Count | repository/keyvalue/dao/leveldb_dao.go:207-213 | counts every record of the cursor |
| Dao.FirstRecords | repository/keyvalue/dao/leveldb_dao.go:134-142 | the first n records, or all if there are fewer |
| Dao.LastRecords | repository/keyvalue/dao/leveldb_dao.go:151-169 | the last records backwards, at least one if there is any |
| Dao.FirstPredicate | repository/keyvalue/dao/leveldb_dao.go:178-190 | the longest run from the first record on that satisfies the predicate |
| Dao.AllRecords | repository/keyvalue/dao/leveldb_dao.go:199-205 | every record in key order |
| Dao.LevelDbDAO.BatchPut | repository/keyvalue/dao/leveldb_dao.go:27-34 | puts all records, the last put of a key wins |
| Dao.LevelDbDAO.BatchDelete | repository/keyvalue/dao/leveldb_dao.go:37-44 | deletes exactly the given keys |
| Dao.LevelDbDAO.FindByKeyPrefix | repository/keyvalue/dao/leveldb_dao.go:60-64 | total and page over the records with the prefix |
| Dao.LevelDbDAO.FindByRange | repository/keyvalue/dao/leveldb_dao.go:67-71 | total and page over the records of the range |
| IndexData.CreateIndexData | indexer/indexer.go:263-328 | one entry per present side, numbered by its occurrence in a uint8; the record lists each address once with its last number, in any order |
| IndexData.TransactionEntries | indexer/indexer.go:273-323 | one entry for each present end of a transaction, at the position that the ends before it give: address, hash, signed value, block time, the other end or the zero address, and the count of the address so far as a uint8 |
| IndexData.PositionsGrow | indexer/indexer.go:273-323 | entries of later transactions stand further back |
| IndexData.EntryOfTransaction | indexer/indexer.go:273-323 | every entry belongs to a transaction |
| IndexData.OccurrenceAt | indexer/indexer.go:291-322 | every number from 1 to the count of an address belongs to some side of it |
| IndexData.NumbersGrow | indexer/indexer.go:291-322 | a later side of an address has a higher number |
| IndexData.RecordCountsEntries | indexer/indexer.go:263-328 | the sequences of the block record add up to the number of entries, for at most 255 occurrences |
| IndexData.AccountConservation | indexer/indexer.go:273-323 | per account, signed values add up to inflow minus outflow |
| IndexData.BlockConservation | indexer/indexer.go:273-323 | over a block, signed values add up to what one-sided transactions leave over |
| IndexRepo.ReorgLoopEnds | repository/keyvalue/index_repo.go:186-192 | the uint8 deletion loop ends exactly for sequences up to 254 |
| IndexRepo.KVIndexRepo.Store | repository/keyvalue/index_repo.go:32-64 | the databases afterwards, and the state after each of the writes in order |
| IndexRun.TraceIs | repository/keyvalue/index_repo.go:32-64 | what the databases are after each write of a realtime store: the recorded keys gone, then the entries of the block put, then its record |
| IndexRepo.KVIndexRepo.UndoOldVersion | repository/keyvalue/index_repo.go:33-47 | deletes what the record of the block number accounts for, if there is one |
| IndexRepo.KVIndexRepo.SaveAddressIndex | repository/keyvalue/index_repo.go:67-80 | puts key and value of every entry in one batch |
| IndexRepo.KVIndexRepo.SaveBlockIndex | repository/keyvalue/index_repo.go:83-91 | puts the record under the block number |
| IndexRepo.KVIndexRepo.HandleReorg | repository/keyvalue/index_repo.go:184-195 | deletes exactly the keys with sequences 1 up to the recorded one, per address |
| IndexRepo.KVIndexRepo.CollectReorgKeys | repository/keyvalue/index_repo.go:185-192 | the nested uint8 loops end and collect exactly those keys |
| IndexRepo.KVIndexRepo.GetTotalTransaction | repository/keyvalue/index_repo.go:94-123 | the number of selected records, on every path |
| IndexRepo.KVIndexRepo.GetTransactionByAddress | repository/keyvalue/index_repo.go:126-171 | total is that number capped at 10001; the page is decoded, ascending with times and descending without; a fraction of a second in a bound is dropped |
| IndexRepo.NoAddress | repository/keyvalue/index_repo.go:116-120 | without an address and without times nothing is selected |
| IndexRepo.BlockRecordRoundTrip | repository/keyvalue/index_repo.go:230-237 | a stored block record is answered with its number, both times and its address list in order |
| IndexRepo.KVIndexRepo.GetLastBlock | repository/keyvalue/index_repo.go:198-204 | the record with the last key, or none |
| IndexRepo.KVIndexRepo.GetFirstBlock | repository/keyvalue/index_repo.go:207-213 | the record with the first key, or none |
| IndexRepo.KVIndexRepo.DeleteOldBlocks | repository/keyvalue/index_repo.go:216-228 | deletes, and counts, exactly the records before the first one that is not older than the given time |
| IndexRepo.KVIndexRepo.GetBlocks | repository/keyvalue/index_repo.go:240-268 | one block by number, or a page of all in descending key order |
| Cleaner.CleanBlockDB | watcher/clean_block_db.go:33-49 | deletes the old run up to the last block's creation time minus the time to live |
| Cleaner.CleaningIsSafe | watcher/clean_block_db.go:33-49 | the last block stays; only records below that time go; the rest is unchanged |
| Cleaner.LastBlockSurvivesIff | watcher/clean_block_db.go:39-41 | for any time to live: the last block stays exactly if some record is not older |
| Cleaner.CleaningTwice | watcher/clean_block_db.go:33-49 | a second cleaning deletes nothing |
| Cleaner.CleaningIsComplete | watcher/clean_block_db.go:33-49 | with creation times rising along the keys, exactly the older records go |
| ChainIndex.ReorgKeyAgreement | repository/keyvalue/index_repo.go:184-195 | for any order of the record, the keys deleted are among those the store put, and are all of them exactly up to 255 occurrences of an address |
| ChainIndex.ReorgEnds | repository/keyvalue/index_repo.go:186-192 | the deletion loops over the record of a block end exactly if no address occurs 255 times modulo 256 |
| ChainIndex.NothingLost | indexer/indexer.go:291-322 | a block puts as many records as it has entries exactly up to 256 occurrences of an address |
| ChainIndex.DistinctKeys | repository/keyvalue/index_repo.go:67-80 | the keys a block puts are pairwise distinct exactly up to 256 occurrences of an address |
| ChainIndex.RepresentsUnique | repository/keyvalue/index_repo.go:67-80 | a chain has one address database |
| ChainIndex.CommonKeyIff | repository/keyvalue/marshal/byte_marshaller.go:92-99 | two blocks write to a common key exactly if they have the same time and share an account |
| ChainIndex.AddBlockIff | repository/keyvalue/index_repo.go:67-80 | putting a block extends the index by it exactly if every key it shares with another block has the same value, with no premise on times |
| ChainIndex.RemoveBlockIff | repository/keyvalue/index_repo.go:184-195 | deleting the keys of a block takes exactly that block out exactly if no other block has its time and one of its accounts |
| ChainIndex.AddBlock | repository/keyvalue/index_repo.go:67-80 | putting a block with a time of its own extends the index by that block |
| ChainIndex.RemoveBlock | repository/keyvalue/index_repo.go:184-195 | with distinct times, deleting the keys of a block takes exactly that block out of the index |
| IndexRun.StoreIsFourSteps | repository/keyvalue/index_repo.go:32-64 | the operations of a realtime store in a run, with nothing in between, are what the method `Store` does |
| IndexRun.CleanIsThreeSteps | watcher/clean_block_db.go:33-49 | the operations of a cleaning in a run, with nothing in between, are what `CleanBlockDB` does |
| IndexRun.StepKeeps | repository/keyvalue/index_repo.go:31-91 | every admissible operation or crash completes and keeps the invariant: the address database and what is missing of open blocks make up the index of the chain, every record describes its block, what is about to be deleted belongs to the block read, and the store under way can go on |
| IndexRun.RunRefinement | repository/keyvalue/index_repo.go:31-228 | every admissible run of single operations goes on; each block that is not open is indexed in its latest version, nothing else is in the address database, with no block open it is exactly their union, and records describe the latest versions |
| IndexRun.SameChainSameIndex | repository/keyvalue/index_repo.go:31-91 | runs that brought the same latest versions and left no block open end with the same address database |
| IndexRun.CrashRetry | repository/keyvalue/index_repo.go:31-64 | a store cut off after any write and repeated equals one store, in any databases, even with another clock or record order |
| IndexRun.BatchRecovery | repository/keyvalue/index_repo.go:31-64 | a store cut off after its first or second write and followed by a batch store of the block leaves the address database of one store and the block database of before |
| IndexRun.NewVersionIff | repository/keyvalue/index_repo.go:33-47 | a realtime store of a new version is right exactly if every key of the version indexed is undone or overwritten, whatever record there is |
| IndexRun.ReorgIff | repository/keyvalue/index_repo.go:33-62 | replacing a recorded block by a version with another time completes and is right exactly if no address occurs more than 254 times in it |
| IndexRun.RecordUndoableIff | repository/keyvalue/index_repo.go:184-195 | a realtime store gets past the record of a block exactly if no address occurs 255 times modulo 256 in it |
| IndexRun.BatchVersionIff | indexer/indexer.go:243-260 | a batch store of a new version is right exactly if it overwrites every key of the version indexed |
| Limits.BurstLimits | indexer/indexer.go:271-322 | for a block of any number of transactions of one account: undoing ends unless there are 255 modulo 256, finds all keys up to 255, and none is lost up to 256 |
| Limits.BurstReorg | repository/keyvalue/index_repo.go:31-64 | storing such a block loses nothing exactly up to 256 transactions, and a later realtime store of its number hangs exactly at 255 modulo 256 |
| Limits.EqualTimes | repository/keyvalue/marshal/byte_marshaller.go:92-99 | of two blocks with one time and a transaction of one account each, no database is the index |
| Limits.PassingEqualTimes | repository/keyvalue/index_repo.go:31-91 | a reorganisation of two blocks in which the first new one has the time of the second old one ends without an entry of the new chain |
| Limits.NoRecord | repository/keyvalue/index_repo.go:33-47 | a one-transaction block stored in batch mode and replaced by an empty version keeps its entry |
| Limits.BatchVersion | indexer/indexer.go:148-155 | a one-transaction block stored in realtime and then, in batch mode, as a version with another time keeps the old entry |
| Limits.StaleRecord | repository/keyvalue/index_repo.go:33-62 | a store cut off before its record and followed by yet another version leaves an entry of the version cut off |
| Queries.FractionDropped | repository/keyvalue/index_repo.go:102-103 | dropping the fraction of a second is harmless in an upper bound, and in a lower bound exactly if it has none or no block can have that second |
| Queries.BoundExactIff | common/datetime.go:21-26 | for every integer: it compares with every stored time like a number exactly if it is a four-byte time, 0, 1, 256, 65536, one of the negative powers of 256 down to -2^32, or has more than five bytes, the first five of them 255 |
| Queries.TimeRangeExact | repository/keyvalue/index_repo.go:136-158 | in all four cases of such bounds, the byte range holds exactly the account's keys with a time from the second of the lower bound up to the upper bound |
| Queries.HistoryIsScanIff | repository/keyvalue/index_repo.go:126-171 | the selected records are the account's entries over the chain, in time and transaction order, exactly if the account occurs at most 255 times in each block within the bounds |
| Queries.AccountQuery | repository/keyvalue/index_repo.go:126-181 | then the total is that of the account's history, and row i of a page shows hash, time, counterparty and magnitude of its entry start + i, from the oldest or from the newest |
| Queries.QueryAfterRun | repository/keyvalue/index_repo.go:126-181 | in every state of a run in which no entry of the account is missing, total and rows are those of the account's history over the indexed chain |
| Queries.ClosedRun | repository/keyvalue/index_repo.go:31-91 | with no block open nothing is missing, and the indexed chain is that of the latest versions |
| Queries.TimeOrderExists | repository/keyvalue/index_repo.go:126-181 | every chain has a listing in time order to state this over |
| Queries.LastBlockIsGreatest | repository/keyvalue/index_repo.go:198-204 | the last record has the greatest number exactly if every shorter number is at most its leading digits |
| Queries.RunKeysAreDecimal | repository/keyvalue/marshal/byte_marshaller.go:245-247 | after every run the block keys are numbers in plain decimal |
| Queries.LastBlockAfterRun | repository/keyvalue/index_repo.go:198-204 | so after every run the last record has the greatest number under just that condition |
| Queries.BlockAnswerAfterRun | repository/keyvalue/index_repo.go:198-268 | after every run a block record is answered with its own number and, unless a store of the block is unrecorded, with time and addresses of the latest version |
| Queries.NineIsAfterTen | repository/keyvalue/index_repo.go:198-204 | with blocks 9 and 10 stored, the last record is block 9 |
| Queries.BlocksInNumberOrder | repository/keyvalue/index_repo.go:261-267 | with equally many digits, block records are listed in number order |
| BatchStatuses.BatchStatus.IsDone | core/types/batch_status.go:21-28 | done when the next number would be past the inclusive end; for a positive step, exactly when no visit is left |
| BatchStatuses.BatchStatus.Next | core/types/batch_status.go:30-41 | yields the first block in any case, then the next of the stride, and moves only the cursor |
| BatchStatuses.VisitsFresh | core/types/batch_status.go:21-41 | driving a fresh batch visits its first block and its stride up to the end, in rising order, once each |
| BatchStatuses.GetInitBatches | indexer/indexer.go:331-346 | one batch per stripe, the step being the number of batches as a byte |
| BatchStatuses.StripePartition | indexer/indexer.go:331-346 | every number from genesis to the later of the latest block and the last stripe's start is visited by exactly one batch, once, and nothing else is |
| BatchRepo.KVBatchRepo.GetAllBatchStatuses | repository/keyvalue/batch_repo.go:27-51 | decodes every record, in key order |
| BatchRepo.KVBatchRepo.UpdateBatch | repository/keyvalue/batch_repo.go:54-61 | refuses step 0, otherwise puts the status under its key |
| BatchRepo.KVBatchRepo.ReplaceBatch | repository/keyvalue/batch_repo.go:64-76 | changes nothing, as called |
| BatchRepo.KVBatchRepo.ReplaceFirst | repository/keyvalue/batch_repo.go:64-76 | with rows to look at, it moves the first record found to the new end; without, or with none found, nothing changes |
| BatchRepo.KVBatchRepo.MoveBatch | repository/keyvalue/batch_repo.go:78-83 | moves a record to the key with the new end; a record of step 0 is deleted and refused |
| BatchRepo.BatchLayout | repository/keyvalue/marshal/byte_marshaller.go:184-242 | where first and last block, step and creation time lie in a batch key, and update time and current block in its value |
| BatchRepo.PrefixFinds | repository/keyvalue/batch_repo.go:64-67 | the prefix searched for finds exactly the batches that start at the block |
| BatchRepo.UpdateEncodes | repository/keyvalue/batch_repo.go:54-61 | an update changes the status of its own batch and of no other |
| BatchRepo.StatusesListAll | repository/keyvalue/batch_repo.go:27-51 | the listed statuses are the persisted ones, each once, as a restart in `Scheduler` expects |
| BatchRepo.ReplaceEncodes | repository/keyvalue/batch_repo.go:78-83 | moving a record keeps every other field and every other batch |
| BatchRepo.UpdatesAreMap | repository/keyvalue/batch_repo.go:27-61 | after any valid updates there is one status per key, the last one written |
| Indexer.Indexer.ProcessBlock | indexer/indexer.go:237-240 | stores the entries of the block, and in realtime a record that describes it |
| Indexer.Indexer.GetBatches | indexer/indexer.go:127-159 | the initial batches, or the unfinished ones plus one from the last known block |
| Indexer.Indexer.BatchIndex | indexer/indexer.go:184-234 | stores the visited blocks up to the first failed fetch and persists the last of them |
| Indexer.RestartGoesOn | indexer/indexer.go:142-152 | every unfinished batch is started with its first block, step, creation time, current block and update time, and its end, moved to the latest block if it starts at the last known one |
| Indexer.RestartCatchesUp | indexer/indexer.go:153-156 | unless an unfinished batch starts at the last known block, some started batch visits every number from there to the latest block |
| Indexer.RestartOnlyPersisted | indexer/indexer.go:127-159 | every started batch goes on as an unfinished one or, if none of these starts at the last known block, goes from there to the latest block in steps of one |
| Indexer.RestartCount | indexer/indexer.go:142-156 | one batch is started for each unfinished one, and one more unless one of these starts at the last known block |
| Indexer.LastNumberIs | indexer/indexer.go:137-139 | the last known number is that of the last record, and 0 without one |
| Scheduler.SchedulerProgress | indexer/indexer.go:127-234 | after any interleaving of workers, deaths and restarts, with any blocks and any other events, every block of a persisted batch up to its current one has been put, and the same holds for what every worker has got to |
| Scheduler.SchedulerSafety | indexer/indexer.go:127-234 | after any interleaving whose blocks and events are admissible, the databases index what has been put |
| Scheduler.ActKeeps | indexer/indexer.go:184-227 | every action of a worker, a restart or the rest of the program keeps, for every worker and persisted batch, that what lies up to its current block has been put |
| Scheduler.Coverage | indexer/indexer.go:127-234 | once of every stripe some batch that goes at least to the latest block is persisted as done, every block up to the latest one has been put |
| Scheduler.VisitsFinished | indexer/indexer.go:127-227 | whatever a started batch visits has been put once the batch is persisted as done, for first starts and restarts |
| Scheduler.CatchUp | indexer/indexer.go:127-227 | once the batches of a restart are persisted as done, every block from the last known one to the latest one has been put; if an unfinished batch with a wider step starts there, those on its stride |
| Scheduler.Completeness | indexer/indexer.go:127-234 | then, with admissible blocks and events, each of them is indexed as a whole unless it is open, and with no block open the address database is exactly the index |
| Scheduler.ProgressOnDisk | repository/keyvalue/batch_repo.go:27-61 | if starts read the batch database, and numbers below 10^9 and four-byte times are written, the database encodes the persisted batches throughout, every start lists them, and what every status says has been put |
| Confluence.RerunChangesNothing | indexer/indexer.go:243-260 | storing the latest version of a block that is not open again in batch mode changes nothing |
| Confluence.SequentialRepresents | indexer/indexer.go:237-240 | indexing a chain block by block gives its index |
| Confluence.SameNumbersSameIndex | indexer/indexer.go:184-227 | schedules that indexed the same numbers leave the same address database |
| Confluence.Confluence | indexer/indexer.go:184-240 | every schedule against one version of the chain that has of every stripe some batch persisted as done leaves the address database of indexing the blocks one by one |
| Confluence.WorkerAlone | indexer/indexer.go:184-227 | the worker loop is a run of the scheduler's worker actions: it leaves the address and the batch database that `BatchIndex` leaves |

## Left out

- BatchStatuses.BatchStatus.IsDone: block numbers are unbounded, so the `Int64` truncation of numbers from 2^63 on is not modelled.
- BatchStatuses.BatchStatus.Next: returns the number, not the pointer to the cursor that the source shares with its caller.
- BatchRepo.KVBatchRepo.UpdateBatch: the nil checks on From, To and CreatedAt are left out, because every batch the program builds has them; a missing Current is a precondition, because the source dereferences it.
- IndexRun.RunRefinement: at most one realtime store and one cleaning are under way at a time, as in one realtime loop and one cleaner; the overlap of an old and a new realtime loop while the node connection is switched is not modelled.
- Scheduler.Coverage: says nothing about liveness, nor about blocks between reading the latest block and subscribing to new heads.
- Indexer.Indexer.GetBatches: without a block record the last known number is 0, which is what parsing the empty text leaves in practice.
- Errors and panics of LevelDB itself; every database operation succeeds or, in a crash, is the last one.
- The node client, HTTP server, command line, IPC switching, node status watcher, logging and time-text parsing.
- `memdb_dao.go` and `string_marshaller.go`, which the program does not use outside its tests.

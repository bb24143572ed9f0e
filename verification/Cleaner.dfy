/** watcher/clean_block_db.go: forgetting old block records, up to a time to live before the last one. */
module Cleaner {
  import opened ByteStrings
  import opened Types
  import opened ByteMarshaller
  import opened OrderedStore
  import opened IndexRepo

  /** The creation time below which cleaning deletes. */
  ghost function UntilTime(db: Db, ttl: int): int
    requires BlockDbOk(db) && db != map[]
  {
    CreatedAt(db[LastKey(db)]) - ttl
  }

  ghost function Cleaned(db: Db, ttl: int): Db
    requires BlockDbOk(db)
  {
    if db == map[] then db else db - OldRun(db, UntilTime(db, ttl))
  }

  lemma LastCreatedAt(db: Db, ttl: int)
    requires BlockDbOk(db) && db != map[]
    ensures BlockAt(db, LastKey(db)).createdAt - ttl == UntilTime(db, ttl)
  {
  }

  /** cleanBlockDB, with the configured time to live in seconds. */
  method CleanBlockDB(repo: KVIndexRepo, blockTTL: int)
    requires repo.Valid() && BlockDbOk(repo.blockDAO.db)
    modifies repo, repo.blockDAO
    ensures repo.State() == old(repo.State()).(block := Cleaned(old(repo.blockDAO.db), blockTTL))
  {
    hide BlockDbOk, OldRun, BlockAt, UntilTime;
    var lastBlock := repo.GetLastBlock();
    if lastBlock.None? {
      return;
    }
    var untilTime := lastBlock.value.createdAt - blockTTL;
    LastCreatedAt(repo.blockDAO.db, blockTTL);
    var _ := repo.DeleteOldBlocks(untilTime);
  }

  /** Cleaning never touches the last block, and deletes only records older than the time to live. */
  lemma CleaningIsSafe(db: Db, ttl: int)
    requires BlockDbOk(db) && db != map[] && ttl >= 0
    ensures IsLastKey(LastKey(db), Cleaned(db, ttl)) && Cleaned(db, ttl)[LastKey(db)] == db[LastKey(db)]
    ensures forall k :: k in db && k !in Cleaned(db, ttl) ==> CreatedAt(db[k]) < CreatedAt(db[LastKey(db)]) - ttl
    ensures forall k :: k in Cleaned(db, ttl) ==> k in db && Cleaned(db, ttl)[k] == db[k]
  {
    var last := LastKey(db);
    LessIrreflexive(last);
    assert last !in OldRun(db, UntilTime(db, ttl));
    forall k | k in OldRun(db, UntilTime(db, ttl))
      ensures CreatedAt(db[k]) < UntilTime(db, ttl)
    {
      LessIrreflexive(k);
    }
  }

  /** For any time to live, the last block survives exactly if some record is not older than it allows. */
  lemma LastBlockSurvivesIff(db: Db, ttl: int)
    requires BlockDbOk(db) && db != map[]
    ensures LastKey(db) in Cleaned(db, ttl) <==>
            exists k :: k in db && CreatedAt(db[k]) >= CreatedAt(db[LastKey(db)]) - ttl
  {
    var last := LastKey(db);
    forall k | k in db
      ensures !Less(last, k)
    {
      LessTotal(last, k);
      LessIrreflexive(last);
    }
  }

  /** A second cleaning deletes nothing. */
  lemma CleaningTwice(db: Db, once: Db, ttl: int)
    requires BlockDbOk(db) && ttl >= 0 && once == Cleaned(db, ttl)
    ensures BlockDbOk(once) && Cleaned(once, ttl) == once
  {
    if db != map[] {
      OnceOk(db, once, ttl);
      NoneLeft(db, UntilTime(db, ttl));
    }
  }

  lemma OnceOk(db: Db, once: Db, ttl: int)
    requires BlockDbOk(db) && db != map[] && ttl >= 0 && once == Cleaned(db, ttl)
    ensures BlockDbOk(once) && once != map[] && UntilTime(once, ttl) == UntilTime(db, ttl)
    ensures once == db - OldRun(db, UntilTime(db, ttl))
  {
    RestOk(db, OldRun(db, UntilTime(db, ttl)));
    CleaningIsSafe(db, ttl);
    SameUntil(db, once, ttl);
  }

  lemma RestOk(db: Db, keys: set<Bytes>)
    requires BlockDbOk(db)
    ensures BlockDbOk(db - keys)
  {
  }

  lemma SameUntil(db: Db, once: Db, ttl: int)
    requires BlockDbOk(db) && BlockDbOk(once) && db != map[] && once != map[]
    requires IsLastKey(LastKey(db), once) && once[LastKey(db)] == db[LastKey(db)]
    ensures UntilTime(once, ttl) == UntilTime(db, ttl)
  {
    LastKeyUnique(LastKey(db), LastKey(once), once);
  }

  lemma NoneLeft(db: Db, untilTime: int)
    requires BlockDbOk(db)
    ensures var rest := db - OldRun(db, untilTime);
      OldRun(rest, untilTime) == {} && rest - OldRun(rest, untilTime) == rest
  {
    var rest := db - OldRun(db, untilTime);
    forall k | k in rest
      ensures k !in OldRun(rest, untilTime)
    {
      var x :| x in db && !Less(k, x) && CreatedAt(db[x]) >= untilTime;
      LessIrreflexive(x);
      assert x !in OldRun(db, untilTime);
      assert x in rest && rest[x] == db[x];
    }
  }

  /** If creation times do not fall along the key order, cleaning deletes every record older than the time to live. */
  lemma CleaningIsComplete(db: Db, ttl: int)
    requires BlockDbOk(db) && db != map[]
    requires forall k, l :: k in db && l in db && Less(k, l) ==> CreatedAt(db[k]) <= CreatedAt(db[l])
    ensures forall k :: k in db ==>
      (k in Cleaned(db, ttl) <==> CreatedAt(db[k]) >= CreatedAt(db[LastKey(db)]) - ttl)
  {
    forall k | k in db && CreatedAt(db[k]) < UntilTime(db, ttl)
      ensures k in OldRun(db, UntilTime(db, ttl))
    {
      forall x | x in db && !Less(k, x)
        ensures CreatedAt(db[x]) < UntilTime(db, ttl)
      {
        LessTotal(k, x);
      }
    }
    forall k | k in db
      ensures !Less(k, k)
    {
      LessIrreflexive(k);
    }
  }
}

/**
  What the queries of index_repo.go return, in terms of the chain: the entries of an account,
  block after block in time order and in transaction order within a block.
 */
module Queries {
  import opened ByteStrings
  import opened Datetime
  import opened Types
  import opened ByteMarshaller
  import opened OrderedStore
  import opened Dao
  import opened IndexData
  import opened IndexRepo
  import opened ChainIndex
  import opened IndexRun

  // ----- Time ranges -----

  /** From the second of the lower bound on, and up to the upper bound. */
  predicate InTime(t: int, fromTime: Option<real>, toTime: Option<real>) {
    (fromTime.Some? ==> fromTime.value.Floor <= t) && (toTime.Some? ==> t as real <= toTime.value)
  }

  /**
    Dropping the fraction of a second never matters in an upper bound. In a lower bound it lets in
    the second that the bound cuts in two, which matters exactly if a block can have that time.
   */
  lemma FractionDropped(fromTime: real, toTime: real)
    ensures forall t: int :: TimeFits(t) ==> (t <= toTime.Floor <==> t as real <= toTime)
    ensures (forall t: int :: TimeFits(t) ==> (fromTime.Floor <= t <==> fromTime <= t as real)) <==>
            fromTime.Floor as real == fromTime || !TimeFits(fromTime.Floor)
  {
    if TimeFits(fromTime.Floor) && fromTime.Floor as real != fromTime {
      var t := fromTime.Floor;
      assert TimeFits(t) && fromTime.Floor <= t && !(fromTime <= t as real);
    }
  }

  /**
    The bounds that are compared with a stored time like numbers. A bound is written without its
    sign and without leading zeros, and the shorter byte string decides. So these are the four-byte
    bounds; of the shorter ones the least of each width; the negative ones with a single byte 1 in
    front of at most four zeros; and longer ones that start with five bytes 255.
   */
  predicate BoundExact(x: int) {
    || TimeFits(x)
    || x == 0 || x == 1 || x == 0x100 || x == 0x1_0000
    || x == -1 || x == -0x100 || x == -0x1_0000 || x == -0x100_0000 || x == -0x1_0000_0000
    || (x >= 0x100_0000_0000 && |BigBytes(x)| > 5 && Cut(x, |BigBytes(x)| - 5) == 0xFF_FFFF_FFFF)
  }

  predicate BoundsExact(fromTime: Option<real>, toTime: Option<real>) {
    (fromTime.Some? ==> BoundExact(fromTime.value.Floor)) && (toTime.Some? ==> BoundExact(toTime.value.Floor + 1))
  }

  lemma Widths(x: nat)
    requires x < 0x1_0000_0000
    ensures |BigBytes(x)| == if x == 0 then 0 else if x < 0x100 then 1 else if x < 0x1_0000 then 2
                             else if x < 0x100_0000 then 3 else 4
  {
    BigBytesStep(x);
    BigBytesStep(x / 256);
    BigBytesStep(x / 256 / 256);
    BigBytesStep(x / 256 / 256 / 256);
    BigBytesStep(x / 256 / 256 / 256 / 256);
  }

  /** A stored time without its last k bytes. */
  function Cut(t: nat, k: nat): nat {
    if k == 0 then t else Cut(t / 256, k - 1)
  }

  lemma {:induction false} BigBytesCut(t: nat, k: nat)
    requires k <= |BigBytes(t)|
    ensures BigBytes(t)[..|BigBytes(t)| - k] == BigBytes(Cut(t, k))
  {
    if k > 0 {
      BigBytesCut(t / 256, k - 1);
      assert BigBytes(t) == BigBytes(t / 256) + [t % 256];
      assert BigBytes(t)[..|BigBytes(t)| - k] == BigBytes(t / 256)[..|BigBytes(t / 256)| - (k - 1)];
    } else {
      assert BigBytes(t)[..|BigBytes(t)|] == BigBytes(t);
    }
  }

  /** What the byte order compares with a bound of at most four bytes: that many bytes of the stored time. */
  lemma BoundCompares(t: int, sequence: Byte, x: nat)
    requires TimeFits(t) && x < 0x1_0000_0000
    ensures |BigBytes(x)| <= 4
    ensures Less(MarshallTime(t) + [sequence], BigBytes(x)) <==> Cut(t, 4 - |BigBytes(x)|) < x
  {
    hide Less, BigBytes, MarshallTime, FromBytes, Cut;
    EncodersAgree(t);
    Widths(x);
    var bound := BigBytes(x);
    var head, rest := MarshallTime(t)[..|bound|], MarshallTime(t)[|bound|..];
    assert MarshallTime(t) + [sequence] == head + (rest + [sequence]);
    assert bound == bound + [];
    LessConcat(head, rest + [sequence], bound, []);
    NothingBeforeEmpty(rest + [sequence]);
    BigBytesCut(t, 4 - |bound|);
    FromBytesOrder(head, bound);
    BigBytesRoundTrip(x);
    BigBytesRoundTrip(Cut(t, 4 - |bound|));
  }

  /** With a longer bound: the stored time and the sequence with its first five bytes, and then the lengths. */
  lemma LongBoundCompares(t: int, sequence: Byte, x: nat)
    requires TimeFits(t) && x >= 0x1_0000_0000
    ensures |BigBytes(x)| >= 5 && Cut(x, |BigBytes(x)| - 5) >= 0x1_0000_0000
    ensures var first := Cut(x, |BigBytes(x)| - 5);
      Less(MarshallTime(t) + [sequence], BigBytes(x)) <==>
      t * 256 + sequence < first || (t * 256 + sequence == first && |BigBytes(x)| > 5)
  {
    hide Less, BigBytes, MarshallTime, FromBytes, Cut;
    EncodersAgree(t);
    BigBytesWidth(x);
    var key, bound := MarshallTime(t) + [sequence], BigBytes(x);
    var first := Cut(x, |bound| - 5);
    var head, rest := bound[..5], bound[5..];
    assert bound == head + rest && key == key + [];
    LessConcat(key, [], head, rest);
    LessEmpty(rest);
    BigBytesCut(x, |bound| - 5);
    assert head == BigBytes(first);
    BigBytesWidth(first);
    FromBytesOrder(key, head);
    BigBytesRoundTrip(first);
    BigBytesRoundTrip(t);
    KeyNumber(t, sequence);
  }

  lemma KeyNumber(t: int, sequence: Byte)
    requires TimeFits(t)
    ensures FromBytes(MarshallTime(t) + [sequence]) == t * 256 + sequence
  {
    EncodersAgree(t);
    BigBytesRoundTrip(t);
    assert (MarshallTime(t) + [sequence])[..|MarshallTime(t)|] == MarshallTime(t);
  }

  lemma LessEmpty(s: Bytes)
    ensures Less([], s) <==> s != []
  {
  }

  lemma NothingBeforeEmpty(s: Bytes)
    ensures !Less(s, [])
  {
  }

  lemma CutIs(t: nat)
    ensures Cut(t, 0) == t && Cut(t, 1) == t / 256 && Cut(t, 2) == t / 256 / 256
    ensures Cut(t, 3) == t / 256 / 256 / 256 && Cut(t, 4) == t / 256 / 256 / 256 / 256
  {
    assert Cut(t / 256 / 256 / 256, 1) == Cut(t / 256 / 256 / 256 / 256, 0);
    assert Cut(t / 256 / 256, 2) == Cut(t / 256 / 256 / 256, 1);
    assert Cut(t / 256, 3) == Cut(t / 256 / 256, 2);
  }

  predicate ComparesLikeNumbers(t: int, sequence: Byte, x: int) {
    Less(MarshallTime(t) + [sequence], MarshallTime2(x)) <==> t < x
  }

  lemma ExactBound(t: int, sequence: Byte, x: int)
    requires TimeFits(t) && BoundExact(x)
    ensures ComparesLikeNumbers(t, sequence, x)
  {
    hide Less, MarshallTime, BigBytes, Cut;
    if Abs(x) < 0x1_0000_0000 {
      BoundCompares(t, sequence, Abs(x));
      Widths(Abs(x));
      CutIs(t);
    } else {
      LongBoundCompares(t, sequence, Abs(x));
      if x < 0 {
        FiveBytes();
      }
    }
  }

  lemma FiveBytes()
    ensures |BigBytes(0x1_0000_0000)| == 5 && Cut(0x1_0000_0000, 0) == 0x1_0000_0000
  {
    BigBytesStep(0x1_0000_0000);
    Widths(0x100_0000);
  }

  /** Of all bounds, exactly these compare with every stored time like numbers. */
  lemma BoundExactIff(x: int)
    ensures BoundExact(x) <==> forall t: int, sequence: Byte :: TimeFits(t) ==> ComparesLikeNumbers(t, sequence, x)
  {
    hide ComparesLikeNumbers, BoundExact;
    if BoundExact(x) {
      forall t: int, sequence: Byte | TimeFits(t)
        ensures ComparesLikeNumbers(t, sequence, x)
      {
        ExactBound(t, sequence, x);
      }
    } else if x < 0x1_0000_0000 {
      LeastTimeFails(x);
    } else {
      GreatestTimeFails(x);
    }
  }

  lemma LeastTimeFails(x: int)
    requires x < 0x1_0000_0000 && !BoundExact(x)
    ensures TimeFits(0x100_0000) && !ComparesLikeNumbers(0x100_0000, 0, x)
  {
    hide Less, MarshallTime, BigBytes, Cut;
    if Abs(x) < 0x1_0000_0000 {
      BoundCompares(0x100_0000, 0, Abs(x));
      Widths(Abs(x));
      CutIs(0x100_0000);
    } else {
      LongBoundCompares(0x100_0000, 0, Abs(x));
      if |BigBytes(Abs(x))| == 5 {
        CutIs(Abs(x));
      }
    }
  }

  lemma GreatestTimeFails(x: int)
    requires x >= 0x1_0000_0000 && !BoundExact(x)
    ensures TimeFits(0xFFFF_FFFF) && !ComparesLikeNumbers(0xFFFF_FFFF, 255, x)
  {
    hide Less, MarshallTime, BigBytes, Cut;
    LongBoundCompares(0xFFFF_FFFF, 255, x);
    FirstFive(x);
  }

  lemma FirstFive(x: nat)
    requires |BigBytes(x)| >= 5
    ensures Cut(x, |BigBytes(x)| - 5) < 0x100_0000_0000
    ensures |BigBytes(x)| > 5 ==> x >= 0x100_0000_0000
  {
    hide Cut;
    var first := Cut(x, |BigBytes(x)| - 5);
    BigBytesCut(x, |BigBytes(x)| - 5);
    BelowSixBytes(first);
    BelowSixBytes(x);
  }

  lemma BelowSixBytes(x: nat)
    ensures |BigBytes(x)| <= 5 <==> x < 0x100_0000_0000
  {
    BigBytesStep(x);
    BigBytesWidth(x / 256);
  }

  lemma AtOrAfterStart(address: Bytes, t: int, sequence: Byte, account: Bytes, start: int)
    requires |address| == |account| && TimeFits(t) && BoundExact(start)
    ensures Less(MarshallAddressKeyStr(address, t, sequence), MarshallAddressKeyPrefix3(account, start)) <==>
            Less(address, account) || (address == account && t < start)
  {
    hide Less;
    assert MarshallAddressKeyStr(address, t, sequence) == address + (MarshallTime(t) + [sequence]);
    LessConcat(address, MarshallTime(t) + [sequence], account, MarshallTime2(start));
    ExactBound(t, sequence, start);
  }

  lemma BeforeAccount(address: Bytes, t: int, sequence: Byte, account: Bytes)
    requires |address| == |account|
    ensures Less(MarshallAddressKeyStr(address, t, sequence), account) <==> Less(address, account)
    ensures account <= MarshallAddressKeyStr(address, t, sequence) <==> address == account
  {
    var key, rest := MarshallAddressKeyStr(address, t, sequence), MarshallTime(t) + [sequence];
    assert key == address + rest && account == account + [];
    LessConcat(address, rest, account, []);
    assert key[..|address|] == address;
  }

  /** The byte range of a query holds exactly the keys of the account with a time within the bounds. */
  lemma TimeRangeExact(address: Bytes, t: int, sequence: Byte, account: Bytes,
                       fromTime: Option<real>, toTime: Option<real>)
    requires |address| == |account| == ADDRESS_LENGTH && TimeFits(t) && BoundsExact(fromTime, toTime)
    ensures InRange(MarshallAddressKeyStr(address, t, sequence), QueryRange(account, fromTime, toTime)) <==>
            && address == account
            && (fromTime.Some? ==> fromTime.value.Floor <= t)
            && (toTime.Some? ==> t as real <= toTime.value)
  {
    var key := MarshallAddressKeyStr(address, t, sequence);
    BeforeAccount(address, t, sequence, account);
    PrefixRange(account, key);
    LessTotal(address, account);
    LessIrreflexive(account);
    if fromTime.Some? {
      AtOrAfterStart(address, t, sequence, account, fromTime.value.Floor);
    }
    if toTime.Some? {
      var limit := (toTime.value + 1.0).Floor;
      AtOrAfterStart(address, t, sequence, account, limit);
      assert AsLimit(MarshallAddressKeyPrefix3(account, limit)).Some?;
      assert limit == toTime.value.Floor + 1;
    }
  }

  // ----- The history of an account -----

  function AllEntries(blocks: seq<BlockDetail>): seq<AddressIndex> {
    if blocks == [] then [] else AllEntries(blocks[..|blocks| - 1]) + Entries(blocks[|blocks| - 1])
  }

  predicate Wanted(e: AddressIndex, account: Bytes, fromTime: Option<real>, toTime: Option<real>) {
    e.address == account && InTime(e.time, fromTime, toTime)
  }

  function Select(entries: seq<AddressIndex>, account: Bytes, fromTime: Option<real>, toTime: Option<real>)
    : seq<AddressIndex>
  {
    if entries == [] then []
    else
      var last := entries[|entries| - 1];
      Select(entries[..|entries| - 1], account, fromTime, toTime)
      + if Wanted(last, account, fromTime, toTime) then [last] else []
  }

  /** The entries of an account over the given blocks, within the bounds. */
  function History(blocks: seq<BlockDetail>, account: Bytes, fromTime: Option<real>, toTime: Option<real>)
    : seq<AddressIndex>
  {
    Select(AllEntries(blocks), account, fromTime, toTime)
  }

  /** The blocks of the chain, oldest first. */
  ghost predicate InTimeOrder(blocks: seq<BlockDetail>, chain: Chain) {
    && (forall i :: 0 <= i < |blocks| ==> blocks[i].number in chain && chain[blocks[i].number] == blocks[i])
    && (forall i, j :: 0 <= i < j < |blocks| ==> blocks[i].time < blocks[j].time)
    && (forall n :: n in chain ==> chain[n] in blocks)
  }

  lemma {:induction false} TimeOrderExists(chain: Chain)
    requires ChainOk(chain)
    ensures exists blocks :: InTimeOrder(blocks, chain)
    decreases |chain|
  {
    hide BlockOk;
    if chain == map[] {
      assert InTimeOrder([], chain);
    } else {
      var n := Newest(chain, chain.Keys);
      var rest := chain - {n};
      TimeOrderExists(rest);
      var blocks :| InTimeOrder(blocks, rest);
      assert InTimeOrder(blocks + [chain[n]], chain) by {
        NewestLast(blocks, chain, n);
      }
    }
  }

  lemma NewestLast(blocks: seq<BlockDetail>, chain: Chain, n: nat)
    requires ChainOk(chain) && n in chain && InTimeOrder(blocks, chain - {n})
    requires forall m :: m in chain ==> chain[m].time <= chain[n].time
    ensures InTimeOrder(blocks + [chain[n]], chain)
  {
    hide BlockOk;
    forall m | m in chain
      ensures chain[m] in blocks + [chain[n]]
    {
      if m != n {
        assert m in chain - {n} && (chain - {n})[m] == chain[m];
      }
    }
  }

  lemma {:induction false} Newest(chain: Chain, numbers: set<nat>) returns (n: nat)
    requires numbers != {} && numbers <= chain.Keys
    ensures n in numbers && forall m :: m in numbers ==> chain[m].time <= chain[n].time
  {
    n :| n in numbers;
    if numbers != {n} {
      var m := Newest(chain, numbers - {n});
      if chain[n].time < chain[m].time {
        n := m;
      }
    }
  }

  // ----- Order -----

  predicate Before(e: AddressIndex, f: AddressIndex) {
    e.time < f.time || (e.time == f.time && e.sequence < f.sequence)
  }

  ghost predicate InOrder(s: seq<AddressIndex>) {
    forall i, j :: 0 <= i < j < |s| ==> Before(s[i], s[j])
  }

  /** The wanted entries stand in the order of their keys. */
  ghost predicate Ordered(entries: seq<AddressIndex>, account: Bytes, fromTime: Option<real>, toTime: Option<real>) {
    forall p, q :: 0 <= p < q < |entries| ==>
      (Wanted(entries[p], account, fromTime, toTime) && Wanted(entries[q], account, fromTime, toTime) ==>
       Before(entries[p], entries[q]))
  }

  /** If the block lies within the bounds, the account occurs at most 255 times in it. */
  predicate FewIn(b: BlockDetail, account: Bytes, fromTime: Option<real>, toTime: Option<real>) {
    InTime(b.time, fromTime, toTime) ==> Occurrences(SidesOf(b), account) <= 255
  }

  lemma BlockOrdered(b: BlockDetail, account: Bytes, fromTime: Option<real>, toTime: Option<real>)
    requires BlockOk(b) && FewIn(b, account, fromTime, toTime)
    ensures Ordered(Entries(b), account, fromTime, toTime)
  {
    hide BlockOk, Entries, SidesOf, EntryFits;
    SidesAndEntries(b);
    forall p, q | 0 <= p < q < |Entries(b)| && Wanted(Entries(b)[p], account, fromTime, toTime) &&
                  Wanted(Entries(b)[q], account, fromTime, toTime)
      ensures Before(Entries(b)[p], Entries(b)[q])
    {
      EntryOf(b, p);
      EntryOf(b, q);
      NumbersGrow(SidesOf(b), p, q);
    }
  }

  lemma BlockFitsTimes(b: BlockDetail)
    requires BlockOk(b)
    ensures forall p :: 0 <= p < |Entries(b)| ==> Entries(b)[p].time == b.time && EntryFits(Entries(b)[p])
  {
    hide BlockOk, Entries, SidesOf, EntryFits;
    SidesAndEntries(b);
    forall p | 0 <= p < |Entries(b)|
      ensures Entries(b)[p].time == b.time && EntryFits(Entries(b)[p])
    {
      EntryOf(b, p);
    }
  }

  ghost predicate Increasing(blocks: seq<BlockDetail>) {
    && (forall i :: 0 <= i < |blocks| ==> BlockOk(blocks[i]))
    && (forall i, j :: 0 <= i < j < |blocks| ==> blocks[i].time < blocks[j].time)
  }

  lemma {:induction false} AllFit(blocks: seq<BlockDetail>)
    requires Increasing(blocks)
    ensures forall p :: 0 <= p < |AllEntries(blocks)| ==>
      EntryFits(AllEntries(blocks)[p]) && AllEntries(blocks)[p].time <= blocks[|blocks| - 1].time
  {
    hide BlockOk, EntryFits, Entries;
    if blocks != [] {
      AllFit(blocks[..|blocks| - 1]);
      BlockFitsTimes(blocks[|blocks| - 1]);
    }
  }

  lemma {:induction false} AllOrdered(blocks: seq<BlockDetail>, account: Bytes,
                                      fromTime: Option<real>, toTime: Option<real>)
    requires Increasing(blocks)
    requires forall i :: 0 <= i < |blocks| ==> FewIn(blocks[i], account, fromTime, toTime)
    ensures Ordered(AllEntries(blocks), account, fromTime, toTime)
  {
    hide BlockOk, EntryFits, Entries, Wanted, FewIn;
    if blocks != [] {
      var n := |blocks| - 1;
      AllOrdered(blocks[..n], account, fromTime, toTime);
      AllFit(blocks[..n]);
      BlockFitsTimes(blocks[n]);
      BlockOrdered(blocks[n], account, fromTime, toTime);
    }
  }

  ghost predicate InSome(blocks: seq<BlockDetail>, e: AddressIndex) {
    exists i :: 0 <= i < |blocks| && e in Entries(blocks[i])
  }

  lemma {:induction false} EntryMember(blocks: seq<BlockDetail>, e: AddressIndex)
    ensures e in AllEntries(blocks) <==> InSome(blocks, e)
  {
    hide Entries;
    if blocks != [] {
      var n := |blocks| - 1;
      EntryMember(blocks[..n], e);
      if InSome(blocks[..n], e) {
        var i :| 0 <= i < n && e in Entries(blocks[..n][i]);
        assert e in Entries(blocks[i]);
      }
      if InSome(blocks, e) && e !in Entries(blocks[n]) {
        var i :| 0 <= i < |blocks| && e in Entries(blocks[i]);
        assert e in Entries(blocks[..n][i]);
      }
      assert e in Entries(blocks[n]) ==> InSome(blocks, e);
    }
  }

  lemma {:induction false} SelectMember(entries: seq<AddressIndex>, account: Bytes,
                                        fromTime: Option<real>, toTime: Option<real>, e: AddressIndex)
    ensures e in Select(entries, account, fromTime, toTime) <==>
            e in entries && Wanted(e, account, fromTime, toTime)
  {
    hide Wanted;
    if entries != [] {
      SelectMember(entries[..|entries| - 1], account, fromTime, toTime, e);
    }
  }

  lemma {:induction false} SelectOrdered(entries: seq<AddressIndex>, account: Bytes,
                                         fromTime: Option<real>, toTime: Option<real>)
    requires Ordered(entries, account, fromTime, toTime)
    ensures InOrder(Select(entries, account, fromTime, toTime))
  {
    if entries != [] {
      var n := |entries| - 1;
      var front := Select(entries[..n], account, fromTime, toTime);
      SelectOrdered(entries[..n], account, fromTime, toTime);
      forall i | 0 <= i < |front| && Wanted(entries[n], account, fromTime, toTime)
        ensures Before(front[i], entries[n])
      {
        SelectMember(entries[..n], account, fromTime, toTime, front[i]);
        var p :| 0 <= p < n && entries[p] == front[i];
      }
    }
  }

  /** Conversely, if what is selected is in order, so are the wanted entries. */
  lemma {:induction false} SelectReflects(entries: seq<AddressIndex>, account: Bytes,
                                          fromTime: Option<real>, toTime: Option<real>, p: nat, q: nat)
    requires p < q < |entries|
    requires Wanted(entries[p], account, fromTime, toTime) && Wanted(entries[q], account, fromTime, toTime)
    requires InOrder(Select(entries, account, fromTime, toTime))
    ensures Before(entries[p], entries[q])
  {
    hide Wanted, Before;
    var n := |entries| - 1;
    var s, front := Select(entries, account, fromTime, toTime), Select(entries[..n], account, fromTime, toTime);
    assert s == front + if Wanted(entries[n], account, fromTime, toTime) then [entries[n]] else [];
    if q < n {
      forall i, j | 0 <= i < j < |front|
        ensures Before(front[i], front[j])
      {
        assert s[i] == front[i] && s[j] == front[j];
      }
      SelectReflects(entries[..n], account, fromTime, toTime, p, q);
    } else {
      SelectMember(entries[..n], account, fromTime, toTime, entries[p]);
      assert entries[p] == entries[..n][p];
      var i :| 0 <= i < |front| && front[i] == entries[p];
      assert s[i] == entries[p] && s[|front|] == entries[n];
    }
  }

  /** The entries of a block stand together, in their order. */
  lemma {:induction false} EntriesTogether(blocks: seq<BlockDetail>, i: nat) returns (start: nat)
    requires i < |blocks|
    ensures start + |Entries(blocks[i])| <= |AllEntries(blocks)|
    ensures forall p :: 0 <= p < |Entries(blocks[i])| ==> AllEntries(blocks)[start + p] == Entries(blocks[i])[p]
  {
    hide Entries;
    var n := |blocks| - 1;
    if i < n {
      start := EntriesTogether(blocks[..n], i);
    } else {
      start := |AllEntries(blocks[..n])|;
    }
  }

  // ----- The query theorem -----

  /** In no block within the bounds does the account occur more than 255 times; other accounts may. */
  ghost predicate Countable(chain: Chain, account: Bytes, fromTime: Option<real>, toTime: Option<real>) {
    forall n :: n in chain ==> FewIn(chain[n], account, fromTime, toTime)
  }

  /**
    The records a query scans are those of the account's history, exactly if the account occurs at
    most 255 times in every block within the bounds: a 256th entry has sequence 0 and sorts first.
   */
  lemma HistoryIsScanIff(db: Db, chain: Chain, blocks: seq<BlockDetail>, account: Bytes,
                         fromTime: Option<real>, toTime: Option<real>)
    requires ChainOk(chain) && Represents(db, chain) && InTimeOrder(blocks, chain)
    requires |account| == ADDRESS_LENGTH && BoundsExact(fromTime, toTime)
    ensures Matches(db, account, fromTime, toTime) == Records(History(blocks, account, fromTime, toTime)) <==>
            Countable(chain, account, fromTime, toTime)
  {
    hide ChainOk, Represents, InTimeOrder, History, QueryRange, EntryFits, FewIn;
    if Countable(chain, account, fromTime, toTime) {
      HistoryIsScan(db, chain, blocks, account, fromTime, toTime);
    } else {
      var n :| n in chain && !FewIn(chain[n], account, fromTime, toTime);
      CrowdedUnsorted(chain, blocks, n, account, fromTime, toTime);
      assert IsScan(Scan(db, QueryRange(account, fromTime, toTime)), db, QueryRange(account, fromTime, toTime));
    }
  }

  lemma CrowdedUnsorted(chain: Chain, blocks: seq<BlockDetail>, n: nat, account: Bytes,
                        fromTime: Option<real>, toTime: Option<real>)
    requires ChainOk(chain) && InTimeOrder(blocks, chain)
    requires n in chain && !FewIn(chain[n], account, fromTime, toTime)
    ensures !Sorted(Keys(Records(History(blocks, account, fromTime, toTime))))
  {
    hide ChainOk, InTimeOrder, BlockOk, Entries, SidesOf, Sorted, Keys, Records, Select, AllEntries, Before, Wanted,
         EntryFits;
    BlocksIncrease(chain, blocks);
    var i := PositionOf(chain, blocks, n);
    var start := EntriesTogether(blocks, i);
    var p, q := WrongOrder(blocks[i], account, fromTime, toTime);
    if Sorted(Keys(Records(History(blocks, account, fromTime, toTime)))) {
      SortedHistory(blocks, account, fromTime, toTime);
      SelectReflects(AllEntries(blocks), account, fromTime, toTime, start + p, start + q);
    }
  }

  lemma PositionOf(chain: Chain, blocks: seq<BlockDetail>, n: nat) returns (i: nat)
    requires ChainOk(chain) && InTimeOrder(blocks, chain) && n in chain
    ensures i < |blocks| && blocks[i] == chain[n] && BlockOk(blocks[i])
  {
    hide BlockOk;
    i :| 0 <= i < |blocks| && blocks[i] == chain[n];
  }

  /** The first and the 256th entry of the account. */
  lemma WrongOrder(b: BlockDetail, account: Bytes, fromTime: Option<real>, toTime: Option<real>)
    returns (p: nat, q: nat)
    requires BlockOk(b) && !FewIn(b, account, fromTime, toTime)
    ensures p < q < |Entries(b)| && !Before(Entries(b)[p], Entries(b)[q])
    ensures Wanted(Entries(b)[p], account, fromTime, toTime) && Wanted(Entries(b)[q], account, fromTime, toTime)
  {
    hide BlockOk, Entries, SidesOf, EntryFits;
    p := OccurrenceAt(SidesOf(b), account, 1);
    q := OccurrenceAt(SidesOf(b), account, 256);
    EntryOf(b, p);
    EntryOf(b, q);
    if q < p {
      NumbersGrow(SidesOf(b), q, p);
    }
  }

  /** Sorted keys mean entries in order. */
  lemma SortedHistory(blocks: seq<BlockDetail>, account: Bytes, fromTime: Option<real>, toTime: Option<real>)
    requires Increasing(blocks) && Sorted(Keys(Records(History(blocks, account, fromTime, toTime))))
    ensures InOrder(Select(AllEntries(blocks), account, fromTime, toTime))
  {
    hide BlockOk, Increasing, Records, Select, AllEntries, Before, EntryFits;
    var s := Select(AllEntries(blocks), account, fromTime, toTime);
    AllFit(blocks);
    forall i, j | 0 <= i < j < |s|
      ensures Before(s[i], s[j])
    {
      SelectMember(AllEntries(blocks), account, fromTime, toTime, s[i]);
      SelectMember(AllEntries(blocks), account, fromTime, toTime, s[j]);
      RecordAt(s, i);
      RecordAt(s, j);
      assert Less(Keys(Records(s))[i], Keys(Records(s))[j]);
      KeysInOrder(s[i], s[j]);
    }
  }

  lemma HistoryIsScan(db: Db, chain: Chain, blocks: seq<BlockDetail>, account: Bytes,
                      fromTime: Option<real>, toTime: Option<real>)
    requires ChainOk(chain) && Represents(db, chain) && InTimeOrder(blocks, chain)
    requires Countable(chain, account, fromTime, toTime)
    requires |account| == ADDRESS_LENGTH && BoundsExact(fromTime, toTime)
    ensures Matches(db, account, fromTime, toTime) == Records(History(blocks, account, fromTime, toTime))
    ensures forall i :: 0 <= i < |History(blocks, account, fromTime, toTime)| ==>
      EntryFits(History(blocks, account, fromTime, toTime)[i])
  {
    hide Represents, Entries, History, QueryRange, EntryFits, IsScan, BlockOk, Countable;
    var s, rg := History(blocks, account, fromTime, toTime), QueryRange(account, fromTime, toTime);
    forall i | 0 <= i < |s|
      ensures EntryFits(s[i]) && Records(s)[i].key in db && Records(s)[i].value == db[Records(s)[i].key]
      ensures InRange(Records(s)[i].key, rg)
    {
      RecordAt(s, i);
      HistoryEntryIsRecord(db, chain, blocks, account, fromTime, toTime, s[i]);
    }
    forall k | k in db && InRange(k, rg)
      ensures k in Keys(Records(s))
    {
      var i := RecordIsHistoryEntry(db, chain, blocks, account, fromTime, toTime, k);
      RecordAt(s, i);
      assert Keys(Records(s))[i] == k;
    }
    HistorySorted(chain, blocks, account, fromTime, toTime);
    ScanOf(Records(s), db, rg);
  }

  lemma ScanOf(s: seq<KeyValue>, db: Db, rg: Range)
    requires Sorted(Keys(s))
    requires forall i :: 0 <= i < |s| ==> s[i].key in db && s[i].value == db[s[i].key] && InRange(s[i].key, rg)
    requires forall k :: k in db && InRange(k, rg) ==> k in Keys(s)
    ensures s == Scan(db, rg)
  {
    ScanUnique(s, db, rg);
  }

  lemma BlocksIncrease(chain: Chain, blocks: seq<BlockDetail>)
    requires ChainOk(chain) && InTimeOrder(blocks, chain)
    ensures Increasing(blocks)
  {
    hide BlockOk;
  }

  lemma BlocksFew(chain: Chain, blocks: seq<BlockDetail>, account: Bytes, fromTime: Option<real>, toTime: Option<real>)
    requires InTimeOrder(blocks, chain) && Countable(chain, account, fromTime, toTime)
    ensures forall i :: 0 <= i < |blocks| ==> FewIn(blocks[i], account, fromTime, toTime)
  {
    hide FewIn;
  }

  lemma HistorySorted(chain: Chain, blocks: seq<BlockDetail>, account: Bytes,
                      fromTime: Option<real>, toTime: Option<real>)
    requires ChainOk(chain) && InTimeOrder(blocks, chain) && Countable(chain, account, fromTime, toTime)
    ensures Sorted(Keys(Records(History(blocks, account, fromTime, toTime))))
  {
    hide ChainOk, Countable, InTimeOrder, EntryFits, Ordered;
    var s := History(blocks, account, fromTime, toTime);
    BlocksIncrease(chain, blocks);
    BlocksFew(chain, blocks, account, fromTime, toTime);
    AllFit(blocks);
    AllOrdered(blocks, account, fromTime, toTime);
    SelectOrdered(AllEntries(blocks), account, fromTime, toTime);
    forall i, j | 0 <= i < j < |s|
      ensures Less(Records(s)[i].key, Records(s)[j].key)
    {
      SelectMember(AllEntries(blocks), account, fromTime, toTime, s[i]);
      SelectMember(AllEntries(blocks), account, fromTime, toTime, s[j]);
      RecordAt(s, i);
      RecordAt(s, j);
      KeysInOrder(s[i], s[j]);
    }
  }

  lemma KeysInOrder(e: AddressIndex, f: AddressIndex)
    requires EntryFits(e) && EntryFits(f) && e.address == f.address
    ensures Less(MarshallAddressKey(e), MarshallAddressKey(f)) <==> Before(e, f)
  {
    AddressKeyOrder(e.address, e.time, e.sequence, f.address, f.time, f.sequence);
    LessIrreflexive(e.address);
  }

  /** Every entry of an account that occurs at most 256 times in a block of the chain is in its database. */
  lemma EntryIsRecord(db: Db, chain: Chain, n: nat, e: AddressIndex)
    requires Represents(db, chain) && n in chain && BlockOk(chain[n]) && e in Entries(chain[n])
    requires Occurrences(SidesOf(chain[n]), e.address) <= 256
    ensures EntryFits(e)
    ensures MarshallAddressKey(e) in db && db[MarshallAddressKey(e)] == MarshallAddressValue(e)
  {
    hide BlockPuts, BlockOk, Represents, SidesOf, Entries, MarshallAddressKey, MarshallAddressValue;
    var b := chain[n];
    var p :| 0 <= p < |Entries(b)| && Entries(b)[p] == e;
    SidesAndEntries(b);
    EntryOf(b, p);
    PutOfEntry(b, p);
    HeldIn(db, chain, n, EntryKey(b, p));
  }

  lemma HistoryEntryIsRecord(db: Db, chain: Chain, blocks: seq<BlockDetail>, account: Bytes,
                             fromTime: Option<real>, toTime: Option<real>, e: AddressIndex)
    requires ChainOk(chain) && Represents(db, chain) && InTimeOrder(blocks, chain)
    requires Countable(chain, account, fromTime, toTime)
    requires |account| == ADDRESS_LENGTH && BoundsExact(fromTime, toTime)
    requires e in History(blocks, account, fromTime, toTime)
    ensures EntryFits(e) && e.address == account
    ensures MarshallAddressKey(e) in db && db[MarshallAddressKey(e)] == MarshallAddressValue(e)
    ensures InRange(MarshallAddressKey(e), QueryRange(account, fromTime, toTime))
  {
    hide QueryRange, BlockPuts, BlockOk, Represents, ChainOk, SidesOf, Entries, AllEntries, Select, Countable, InRange;
    BlocksIncrease(chain, blocks);
    BlocksFew(chain, blocks, account, fromTime, toTime);
    SelectMember(AllEntries(blocks), account, fromTime, toTime, e);
    EntryMember(blocks, e);
    var i :| 0 <= i < |blocks| && e in Entries(blocks[i]);
    BlockFitsTimes(blocks[i]);
    EntryIsRecord(db, chain, blocks[i].number, e);
    TimeRangeExact(e.address, e.time, e.sequence, account, fromTime, toTime);
  }

  lemma RecordIsHistoryEntry(db: Db, chain: Chain, blocks: seq<BlockDetail>, account: Bytes,
                             fromTime: Option<real>, toTime: Option<real>, k: Bytes)
    returns (i: nat)
    requires ChainOk(chain) && Represents(db, chain) && InTimeOrder(blocks, chain)
    requires |account| == ADDRESS_LENGTH && BoundsExact(fromTime, toTime)
    requires k in db && InRange(k, QueryRange(account, fromTime, toTime))
    ensures i < |History(blocks, account, fromTime, toTime)|
    ensures k == MarshallAddressKey(History(blocks, account, fromTime, toTime)[i])
  {
    hide QueryRange, BlockPuts, BlockOk, Represents, InTimeOrder, AllEntries, Select, InSome;
    var n := OwnerOf(db, chain, k);
    var p := EntryOfPut(chain[n], k);
    EntryOf(chain[n], p);
    var e := Entries(chain[n])[p];
    TimeRangeExact(e.address, e.time, e.sequence, account, fromTime, toTime);
    InChainInSome(blocks, chain, n, e);
    EntryMember(blocks, e);
    SelectMember(AllEntries(blocks), account, fromTime, toTime, e);
    i :| 0 <= i < |History(blocks, account, fromTime, toTime)| && History(blocks, account, fromTime, toTime)[i] == e;
  }

  lemma InChainInSome(blocks: seq<BlockDetail>, chain: Chain, n: nat, e: AddressIndex)
    requires InTimeOrder(blocks, chain) && n in chain && e in Entries(chain[n])
    ensures InSome(blocks, e)
  {
    hide Entries;
    var i :| 0 <= i < |blocks| && blocks[i] == chain[n];
    assert e in Entries(blocks[i]);
  }

  lemma DecodedRecords(s: seq<AddressIndex>)
    requires forall i :: 0 <= i < |s| ==> EntryFits(s[i])
    ensures Decodable(Records(s))
    ensures forall i :: 0 <= i < |s| ==>
      var r, e := DecodeAll(Records(s))[i], s[i];
      && r.address == e.address && r.time == e.time
      && r.txHash == e.txHash && r.coupleAddress == e.coupleAddress
      && r.value == (if e.value >= 0 then e.value else -e.value)
      && r.sequence == 0
  {
    hide EntryFits, KeyValueToAddressIndex, Records;
    forall i | 0 <= i < |s|
      ensures |Records(s)[i].key| >= ADDRESS_LENGTH + TIMESTAMP_LENGTH
      ensures |Records(s)[i].value| >= HASH_LENGTH + ADDRESS_LENGTH
      ensures var r, e := KeyValueToAddressIndex(Records(s)[i]), s[i];
        && r.address == e.address && r.time == e.time
        && r.txHash == e.txHash && r.coupleAddress == e.coupleAddress
        && r.value == (if e.value >= 0 then e.value else -e.value)
        && r.sequence == 0
    {
      RecordAt(s, i);
      AddressEntryRoundTrip(s[i]);
    }
  }

  /** The rows of a page are decoded matches. */
  lemma PageDecoded(matches: seq<KeyValue>, asc: bool, rows: int, start: int)
    requires Decodable(matches)
    ensures var page, first := Page(Directed(matches, asc), rows, start), if start > 0 then start else 0;
      && Decodable(page)
      && forall i :: 0 <= i < |page| ==>
           && first + i < |matches|
           && DecodeAll(page)[i] == DecodeAll(matches)[if asc then first + i else |matches| - 1 - (first + i)]
  {
    hide KeyValueToAddressIndex, Page, Directed;
    PageIs(matches, asc, rows, start);
  }

  /**
    An answer over the history of an account: the number of entries, at most 10001, and in row i
    the entry start + i, counted from the oldest or from the newest one: its hash, time and
    counterparty, and the magnitude of its value.
   */
  ghost predicate Answers(total: nat, result: seq<AddressIndex>, history: seq<AddressIndex>,
                          asc: bool, rows: int, start: int)
  {
    var first := if start > 0 then start else 0;
    && total == (if |history| <= 10_000 then |history| else 10_001)
    && |result| == (if rows <= 0 || total <= first then 0 else if rows <= total - first then rows else total - first)
    && forall i :: 0 <= i < |result| ==>
         && first + i < |history|
         && var r, e := result[i], history[if asc then first + i else |history| - 1 - (first + i)];
            && r.address == e.address && r.time == e.time
            && r.txHash == e.txHash && r.coupleAddress == e.coupleAddress
            && r.value == (if e.value >= 0 then e.value else -e.value)
            && r.sequence == 0
  }

  /**
    Account query: over the index of a chain, a query selects as many records as the account has
    entries within the bounds, and its answer is that over the account's history, from the oldest
    entry on with bounds and from the newest without.
   */
  lemma AccountQuery(db: Db, chain: Chain, blocks: seq<BlockDetail>, account: Bytes,
                     fromTime: Option<real>, toTime: Option<real>, asc: bool, rows: int, start: int)
    requires ChainOk(chain) && Represents(db, chain) && InTimeOrder(blocks, chain)
    requires Countable(chain, account, fromTime, toTime)
    requires |account| == ADDRESS_LENGTH && BoundsExact(fromTime, toTime)
    ensures AddressDbOk(db)
    ensures var matches, history := Matches(db, account, fromTime, toTime), History(blocks, account, fromTime, toTime);
      var page := Page(Directed(matches, asc), rows, start);
      && |matches| == |history|
      && Decodable(page) && Answers(Total(|matches|), DecodeAll(page), history, asc, rows, start)
    ensures forall i :: 0 <= i < |History(blocks, account, fromTime, toTime)| ==>
      History(blocks, account, fromTime, toTime)[i].address == account
  {
    hide ChainOk, Represents, InTimeOrder, Countable, Matches, History, EntryFits, AddressDbOk, Page, Directed, Total,
         Records, Answers;
    RepresentedDbOk(db, chain);
    HistoryIsScan(db, chain, blocks, account, fromTime, toTime);
    OfAccount(blocks, account, fromTime, toTime);
    PageAnswers(History(blocks, account, fromTime, toTime), asc, rows, start);
  }

  lemma PageAnswers(history: seq<AddressIndex>, asc: bool, rows: int, start: int)
    requires forall i :: 0 <= i < |history| ==> EntryFits(history[i])
    ensures var page := Page(Directed(Records(history), asc), rows, start);
      Decodable(page) && Answers(Total(|Records(history)|), DecodeAll(page), history, asc, rows, start)
  {
    hide EntryFits, Page, Directed, Total, Records, KeyValueToAddressIndex;
    DecodedRecords(history);
    PageDecoded(Records(history), asc, rows, start);
    PageIs(Records(history), asc, rows, start);
  }

  lemma OfAccount(blocks: seq<BlockDetail>, account: Bytes, fromTime: Option<real>, toTime: Option<real>)
    ensures forall i :: 0 <= i < |History(blocks, account, fromTime, toTime)| ==>
      History(blocks, account, fromTime, toTime)[i].address == account
  {
    hide AllEntries, Select;
    forall i | 0 <= i < |History(blocks, account, fromTime, toTime)|
      ensures History(blocks, account, fromTime, toTime)[i].address == account
    {
      SelectMember(AllEntries(blocks), account, fromTime, toTime, History(blocks, account, fromTime, toTime)[i]);
    }
  }

  /**
    The same in every state of a run, between any two steps, in which no entry of the account is
    missing. Entries are missing only after a retried undo, until the block is put again.
   */
  lemma QueryAfterRun(events: seq<Event>, blocks: seq<BlockDetail>, account: Bytes,
                      fromTime: Option<real>, toTime: Option<real>, rows: int, start: int)
    requires RunOk(events) && Run(events).Some? && InTimeOrder(blocks, Run(events).value.view.chain)
    requires forall k :: k in Run(events).value.view.missing ==> !(account <= k)
    requires Countable(Run(events).value.view.chain, account, fromTime, toTime)
    requires |account| == ADDRESS_LENGTH && BoundsExact(fromTime, toTime)
    ensures AddressDbOk(Run(events).value.dbs.address)
    ensures var asc := fromTime.Some? || toTime.Some?;
      var matches := Matches(Run(events).value.dbs.address, account, fromTime, toTime);
      var page := Page(Directed(matches, asc), rows, start);
      && |matches| == |History(blocks, account, fromTime, toTime)|
      && Decodable(page)
      && Answers(Total(|matches|), DecodeAll(page), History(blocks, account, fromTime, toTime), asc, rows, start)
  {
    hide RunOk, Run, InTimeOrder, ChainOk, Countable, Represents, Matches, History, AddressDbOk, Page, Directed,
         RecordsOk, LogOk, FlightOk, Apart, MissingOpen, LogOf, QueryRange, Total, Answers;
    RunKeeps(events);
    var s := Run(events).value;
    SameMatches(s.dbs.address, s.view.missing, s.view.chain, account, fromTime, toTime);
    AccountQuery(s.dbs.address + s.view.missing, s.view.chain, blocks, account, fromTime, toTime,
                 fromTime.Some? || toTime.Some?, rows, start);
    PartOk(s.dbs.address, s.view.missing);
  }

  /** What is missing of other accounts plays no part. */
  lemma SameMatches(db: Db, missing: Db, chain: Chain, account: Bytes, fromTime: Option<real>, toTime: Option<real>)
    requires ChainOk(chain) && Represents(db + missing, chain) && db.Keys !! missing.Keys
    requires forall k :: k in missing ==> !(account <= k)
    requires |account| == ADDRESS_LENGTH && BoundsExact(fromTime, toTime)
    ensures Matches(db, account, fromTime, toTime) == Matches(db + missing, account, fromTime, toTime)
  {
    hide ChainOk, Represents, QueryRange, InRange;
    var rg := QueryRange(account, fromTime, toTime);
    forall k | k in missing
      ensures !InRange(k, rg)
    {
      InRangeOfAccount(db + missing, chain, account, fromTime, toTime, k);
    }
    ScanUnique(Scan(db, rg), db + missing, rg);
  }

  lemma InRangeOfAccount(db: Db, chain: Chain, account: Bytes, fromTime: Option<real>, toTime: Option<real>, k: Bytes)
    requires ChainOk(chain) && Represents(db, chain) && k in db
    requires |account| == ADDRESS_LENGTH && BoundsExact(fromTime, toTime)
    ensures InRange(k, QueryRange(account, fromTime, toTime)) ==> account <= k
  {
    hide BlockOk, Represents, BlockPuts, Entries, SidesOf, QueryRange, InRange;
    var n := OwnerOf(db, chain, k);
    var p := EntryOfPut(chain[n], k);
    SidesAndEntries(chain[n]);
    EntryOf(chain[n], p);
    var e := Entries(chain[n])[p];
    TimeRangeExact(e.address, e.time, e.sequence, account, fromTime, toTime);
    BeforeAccount(e.address, e.time, e.sequence, account);
  }

  lemma PartOk(db: Db, missing: Db)
    requires AddressDbOk(db + missing) && db.Keys !! missing.Keys
    ensures AddressDbOk(db)
  {
    forall k | k in db
      ensures |k| >= ADDRESS_LENGTH + TIMESTAMP_LENGTH && |db[k]| >= HASH_LENGTH + ADDRESS_LENGTH
    {
      assert k in db + missing && (db + missing)[k] == db[k];
    }
  }

  /** With no block open, nothing is missing and the chain is that of the latest versions. */
  lemma ClosedRun(events: seq<Event>)
    requires RunOk(events) && LogOf(events).open == {}
    ensures Run(events).Some?
    ensures Run(events).value.view.missing == map[] && Run(events).value.view.chain == LogOf(events).latest
  {
    hide RunOk, Run, Inv, LogOf, Represents;
    RunKeeps(events);
    NothingMissing(Run(events).value);
  }

  // ----- The order of the block records -----

  /** The keys a run leaves in the block database: numbers in plain decimal. */
  ghost predicate DecimalKeys(block: Db) {
    BlockDbOk(block) && forall k :: k in block ==> k == Decimal(ParseDecimal(k))
  }

  lemma RunKeysAreDecimal(events: seq<Event>)
    requires RunOk(events)
    ensures Run(events).Some? && DecimalKeys(Run(events).value.dbs.block)
  {
    hide RunOk, Run, IsRecord, AddressOk, LogOk, FlightOk, Apart, Decimal, BlockOk, LogOf;
    RunKeeps(events);
    var block, records := Run(events).value.dbs.block, Run(events).value.view.records;
    forall k | k in block
      ensures IsDigits(k) && k == Decimal(ParseDecimal(k))
    {
      assert NumberIn(k, records);
      var n :| n in records && k == Decimal(n);
      DecimalRoundTrip(n);
    }
  }

  /**
    GetLastBlock returns the block with the greatest number exactly if no record with fewer digits
    has a number above the leading digits of the greatest one. In particular it does when all
    numbers have the same number of digits.
   */
  lemma LastBlockIsGreatest(block: Db, m: nat)
    requires DecimalKeys(block) && Decimal(m) in block
    requires forall k :: k in block ==> ParseDecimal(k) <= m
    ensures LastKey(block) == Decimal(m) <==> forall k :: k in block ==> LeadsUpTo(k, m)
  {
    hide LeadsUpTo, Decimal, ParseDecimal, Less;
    forall k | k in block
      ensures LeadsUpTo(k, m) <==> k == Decimal(m) || Less(k, Decimal(m))
    {
      KeyBefore(k, m);
    }
    if IsLastKey(Decimal(m), block) {
      LastKeyUnique(LastKey(block), Decimal(m), block);
    }
  }

  /** A shorter number is at most the leading digits of the longer one. */
  predicate LeadsUpTo(k: Bytes, m: nat) {
    IsDigits(k) &&
    (|k| < |Decimal(m)| ==> ParseDecimal(k) <= DropDigits(m, |Decimal(m)| - |k|))
  }

  lemma KeyBefore(k: Bytes, m: nat)
    requires IsDigits(k) && k == Decimal(ParseDecimal(k)) && ParseDecimal(k) <= m
    ensures LeadsUpTo(k, m) <==> k == Decimal(m) || Less(k, Decimal(m))
  {
    hide Decimal, ParseDecimal, Less, DropDigits;
    WiderIsGreater(ParseDecimal(k), m);
    DecimalOrder(ParseDecimal(k), m);
    LessIrreflexive(k);
  }

  lemma {:induction false} WiderIsGreater(a: nat, b: nat)
    requires a <= b
    ensures |Decimal(a)| <= |Decimal(b)|
  {
    if b >= 10 && a >= 10 {
      WiderIsGreater(a / 10, b / 10);
    }
  }

  /** So after every run, GetLastBlock returns the greatest recorded number under the same condition. */
  lemma LastBlockAfterRun(events: seq<Event>, m: nat)
    requires RunOk(events) && Run(events).Some? && Decimal(m) in Run(events).value.dbs.block
    requires forall n: nat :: Decimal(n) in Run(events).value.dbs.block ==> n <= m
    ensures var block := Run(events).value.dbs.block;
      LastKey(block) == Decimal(m) <==> forall k :: k in block ==> LeadsUpTo(k, m)
  {
    hide RunOk, Run, Decimal, ParseDecimal, LeadsUpTo, BlockDbOk;
    RunKeysAreDecimal(events);
    var block := Run(events).value.dbs.block;
    KeysAtMost(block, m);
    LastBlockIsGreatest(block, m);
  }

  lemma KeysAtMost(block: Db, m: nat)
    requires DecimalKeys(block) && forall n: nat :: Decimal(n) in block ==> n <= m
    ensures forall k :: k in block ==> ParseDecimal(k) <= m
  {
    hide Decimal, ParseDecimal;
    forall k | k in block
      ensures ParseDecimal(k) <= m
    {
      var n: nat := ParseDecimal(k);
      assert k == Decimal(n);
    }
  }

  /**
    Block answers: after every run, a block record is answered with its own number, and, unless a
    store of the block is unrecorded, with the time and the addresses of the latest version.
   */
  lemma BlockAnswerAfterRun(events: seq<Event>, n: nat)
    requires RunOk(events) && Run(events).Some? && Decimal(n) in Run(events).value.dbs.block
    ensures var block, log := Run(events).value.dbs.block, LogOf(events);
      && BlockDbOk(block)
      && var answer := BlockAt(block, Decimal(n));
         && answer.blockNumber == Decimal(n)
         && (n !in log.unrecorded ==>
              && n in log.latest && answer.time == log.latest[n].time
              && Describes(answer.addresses, SidesOf(log.latest[n])))
  {
    hide RunOk, Run, LogOf, Represents, Within, OfLatest, BlockPuts, SidesOf, Describes, DecodedBlock,
         UnmarshallBlockKey;
    RunRefinement(events);
    NumberRoundTrip(n);
  }

  /** From block 9 to block 10 the last record is not the newest: GetLastBlock returns 9. */
  lemma NineIsAfterTen(block: Db)
    requires DecimalKeys(block) && block.Keys == {Decimal(9), Decimal(10)}
    ensures LastKey(block) == Decimal(9)
  {
    DecimalRoundTrip(9);
    DecimalRoundTrip(10);
    assert Decimal(9) == [57] && Decimal(10) == [49, 48];
    assert IsLastKey(Decimal(9), block);
    LastKeyUnique(LastKey(block), Decimal(9), block);
  }

  /** With equally many digits, the block list runs through the numbers in order. */
  lemma BlocksInNumberOrder(block: Db, i: nat, j: nat)
    requires DecimalKeys(block) && i < j < |Scan(block, EVERYTHING)|
    requires forall k, l :: k in block && l in block ==> |k| == |l|
    ensures var s := Scan(block, EVERYTHING);
      s[i].key in block && s[j].key in block && ParseDecimal(s[i].key) < ParseDecimal(s[j].key)
  {
    hide Decimal, ParseDecimal, Less;
    var s := Scan(block, EVERYTHING);
    assert Less(Keys(s)[i], Keys(s)[j]);
    DecimalOrderSameWidth(ParseDecimal(s[i].key), ParseDecimal(s[j].key));
  }
}

/** CreateIndexData of indexer/indexer.go: the index entries and the block record of one block. */
module IndexData {
  import opened ByteStrings
  import opened Types

  // ----- The sides of the transactions of a block -----

  /** One end of a transaction, as the account at that end sees it. */
  datatype Side = Side(address: Bytes, txHash: Bytes, value: int, coupleAddress: Bytes)

  function OrZero(address: Bytes): Bytes {
    if address == [] then AddressZero() else address
  }

  function SenderSide(tx: TransactionDetail): seq<Side> {
    if tx.from != [] then [Side(tx.from, tx.txHash, -tx.value, OrZero(tx.to))] else []
  }

  function ReceiverSide(tx: TransactionDetail): seq<Side> {
    if tx.to != [] then [Side(tx.to, tx.txHash, tx.value, OrZero(tx.from))] else []
  }

  function TransactionSides(tx: TransactionDetail): seq<Side> {
    SenderSide(tx) + ReceiverSide(tx)
  }

  function Sides(transactions: seq<TransactionDetail>): seq<Side> {
    if transactions == [] then []
    else Sides(transactions[..|transactions| - 1]) + TransactionSides(transactions[|transactions| - 1])
  }

  function Occurrences(sides: seq<Side>, address: Bytes): nat {
    if sides == [] then 0
    else
      var n := |sides| - 1;
      Occurrences(sides[..n], address) + if sides[n].address == address then 1 else 0
  }

  /** The entry of the i-th side: numbered by how often its address has occurred so far, in a uint8. */
  function Entry(sides: seq<Side>, i: nat, time: int): AddressIndex
    requires i < |sides|
  {
    var s := sides[i];
    AddressIndex(s.address, Occurrences(sides[..i + 1], s.address) % 256, s.txHash, s.value, time, s.coupleAddress)
  }

  function EntriesOf(sides: seq<Side>, time: int): (entries: seq<AddressIndex>)
    ensures |entries| == |sides|
  {
    if sides == [] then []
    else EntriesOf(sides[..|sides| - 1], time) + [Entry(sides, |sides| - 1, time)]
  }

  lemma {:induction false} EntryAt(sides: seq<Side>, i: nat, time: int)
    requires i < |sides|
    ensures EntriesOf(sides, time)[i] == Entry(sides, i, time)
  {
    var n := |sides| - 1;
    if i < n {
      EntryAt(sides[..n], i, time);
      assert sides[..n][..i + 1] == sides[..i + 1];
    }
  }

  function Entries(block: BlockDetail): seq<AddressIndex> {
    EntriesOf(Sides(block.transactions), block.time)
  }

  ghost predicate Lists(addresses: seq<AddressSequence>, address: Bytes) {
    exists i :: 0 <= i < |addresses| && addresses[i].address == address
  }

  /** The address list of a block record: each address once, in any order, with its last sequence. */
  ghost predicate Describes(addresses: seq<AddressSequence>, sides: seq<Side>) {
    && (forall i, j :: 0 <= i < j < |addresses| ==> addresses[i].address != addresses[j].address)
    && (forall i :: 0 <= i < |addresses| ==>
         && Occurrences(sides, addresses[i].address) > 0
         && addresses[i].sequence == Occurrences(sides, addresses[i].address) % 256)
    && (forall k :: 0 <= k < |sides| ==> Lists(addresses, sides[k].address))
  }

  // ----- The method -----

  /** The sequence map of the loop: it knows the addresses seen so far and their uint8 counts. */
  ghost predicate Counts(sequenceMap: map<Bytes, Byte>, sides: seq<Side>) {
    forall a ::
      && (a in sequenceMap <==> Occurrences(sides, a) > 0)
      && (a in sequenceMap ==> sequenceMap[a] == Occurrences(sides, a) % 256)
  }

  method AddSide(sequenceMap0: map<Bytes, Byte>, addressIndex0: seq<AddressIndex>, side: Side, time: int,
                 ghost sides: seq<Side>)
    returns (sequenceMap: map<Bytes, Byte>, addressIndex: seq<AddressIndex>)
    requires Counts(sequenceMap0, sides) && addressIndex0 == EntriesOf(sides, time)
    ensures Counts(sequenceMap, sides + [side]) && addressIndex == EntriesOf(sides + [side], time)
  {
    sequenceMap := sequenceMap0;
    if side.address !in sequenceMap {
      sequenceMap := sequenceMap[side.address := 0];
    }
    sequenceMap := sequenceMap[side.address := (sequenceMap[side.address] as int + 1) % 256];
    var index := AddressIndex(side.address, sequenceMap[side.address], side.txHash, side.value, time,
                              side.coupleAddress);
    addressIndex := addressIndex0 + [index];
    CountsExtend(sequenceMap0, sequenceMap, sides, side);
    EntriesExtend(sides, side, time);
  }

  lemma CountsExtend(before: map<Bytes, Byte>, after: map<Bytes, Byte>, sides: seq<Side>, side: Side)
    requires Counts(before, sides) && side.address in after
    requires after == before[side.address := after[side.address]]
    requires after[side.address] == ((if side.address in before then before[side.address] else 0) as int + 1) % 256
    ensures Counts(after, sides + [side])
    ensures after[side.address] == (Occurrences(sides, side.address) + 1) % 256
  {
    forall a
      ensures a in after <==> Occurrences(sides + [side], a) > 0
      ensures a in after ==> after[a] == Occurrences(sides + [side], a) % 256
    {
      OccurrencesExtend(sides, side, a);
      if a == side.address {
        NextCount(Occurrences(sides, a));
        assert a !in before ==> Occurrences(sides, a) == 0;
      } else {
        assert a in after <==> a in before;
      }
    }
    assert side.address in after;
    OccurrencesExtend(sides, side, side.address);
  }

  lemma NextCount(n: nat)
    ensures (n % 256 + 1) % 256 == (n + 1) % 256
  {
  }

  lemma EntriesExtend(sides: seq<Side>, side: Side, time: int)
    ensures EntriesOf(sides + [side], time) ==
            EntriesOf(sides, time) + [Entry(sides + [side], |sides|, time)]
    ensures Entry(sides + [side], |sides|, time).sequence == (Occurrences(sides, side.address) + 1) % 256
  {
    var longer := sides + [side];
    assert longer[..|sides|] == sides && longer[..|sides| + 1] == longer;
    OccurrencesExtend(sides, side, side.address);
  }

  lemma OccurrencesExtend(sides: seq<Side>, side: Side, address: Bytes)
    ensures Occurrences(sides + [side], address) ==
            Occurrences(sides, address) + if side.address == address then 1 else 0
  {
    assert (sides + [side])[..|sides|] == sides;
  }

  /** The body of the loop over the transactions. */
  method AddTransaction(sequenceMap0: map<Bytes, Byte>, addressIndex0: seq<AddressIndex>,
                        transaction: TransactionDetail, time: int, ghost sides: seq<Side>)
    returns (sequenceMap: map<Bytes, Byte>, addressIndex: seq<AddressIndex>)
    requires Counts(sequenceMap0, sides) && addressIndex0 == EntriesOf(sides, time)
    ensures Counts(sequenceMap, sides + TransactionSides(transaction))
    ensures addressIndex == EntriesOf(sides + TransactionSides(transaction), time)
  {
    hide Counts, EntriesOf;
    sequenceMap, addressIndex := sequenceMap0, addressIndex0;
    ghost var seen := sides;
    var posValue := transaction.value;
    var negValue := posValue * -1;
    var to, isNilTo := transaction.to, false;
    if to == [] {
      to, isNilTo := AddressZero(), true;
    }
    var from, isNilFrom := transaction.from, false;
    if from == [] {
      from, isNilFrom := AddressZero(), true;
    }
    if !isNilFrom {
      var side := Side(from, transaction.txHash, negValue, to);
      sequenceMap, addressIndex := AddSide(sequenceMap, addressIndex, side, time, seen);
      seen := seen + [side];
    }
    if !isNilTo {
      var side := Side(to, transaction.txHash, posValue, from);
      sequenceMap, addressIndex := AddSide(sequenceMap, addressIndex, side, time, seen);
      seen := seen + [side];
    }
    JoinSides(sides, SenderSide(transaction), ReceiverSide(transaction));
  }

  lemma JoinSides(sides: seq<Side>, sender: seq<Side>, receiver: seq<Side>)
    ensures sides + (sender + receiver) == sides + sender + receiver
    ensures receiver == [] ==> sides + sender + receiver == sides + sender
    ensures sender == [] ==> sides + sender == sides
  {
  }

  method CreateIndexData(blockDetail: BlockDetail, now: int)
    returns (addressIndex: seq<AddressIndex>, blockIndex: BlockIndex)
    ensures addressIndex == Entries(blockDetail)
    ensures blockIndex.blockNumber == Decimal(blockDetail.number)
    ensures blockIndex.time == blockDetail.time && blockIndex.createdAt == now
    ensures Describes(blockIndex.addresses, Sides(blockDetail.transactions))
  {
    hide EntriesOf;
    var transactions := blockDetail.transactions;
    addressIndex := [];
    var sequenceMap: map<Bytes, Byte> := map[];
    for n := 0 to |transactions|
      invariant addressIndex == EntriesOf(Sides(transactions[..n]), blockDetail.time)
      invariant Counts(sequenceMap, Sides(transactions[..n]))
    {
      assert transactions[..n + 1][..n] == transactions[..n];
      sequenceMap, addressIndex := AddTransaction(sequenceMap, addressIndex, transactions[n], blockDetail.time,
                                                  Sides(transactions[..n]));
    }
    assert transactions[..|transactions|] == transactions;
    var addresses := ListAddresses(sequenceMap, Sides(transactions));
    blockIndex := BlockIndex(Decimal(blockDetail.number), addresses, blockDetail.time, now);
  }

  /** The final loop: Go walks a map in no particular order. */
  method ListAddresses(sequenceMap: map<Bytes, Byte>, ghost sides: seq<Side>)
    returns (addresses: seq<AddressSequence>)
    requires Counts(sequenceMap, sides)
    ensures Describes(addresses, sides)
  {
    addresses := [];
    var rest := sequenceMap.Keys;
    while rest != {}
      invariant rest <= sequenceMap.Keys
      invariant forall i :: 0 <= i < |addresses| ==>
        && addresses[i].address in sequenceMap && addresses[i].address !in rest
        && addresses[i].sequence == sequenceMap[addresses[i].address]
      invariant forall i, j :: 0 <= i < j < |addresses| ==> addresses[i].address != addresses[j].address
      invariant forall a :: a in sequenceMap && a !in rest ==> Lists(addresses, a)
      decreases rest
    {
      var k :| k in rest;
      rest := rest - {k};
      ghost var before := addresses;
      addresses := addresses + [AddressSequence(k, sequenceMap[k])];
      forall a | a in sequenceMap && a !in rest
        ensures Lists(addresses, a)
      {
        if a == k {
          assert addresses[|before|].address == a;
        } else {
          var i :| 0 <= i < |before| && before[i].address == a;
          assert addresses[i].address == a;
        }
      }
    }
    forall k | 0 <= k < |sides|
      ensures Lists(addresses, sides[k].address)
    {
      OccursAt(sides, k);
    }
  }

  lemma {:induction false} OccursAt(sides: seq<Side>, k: nat)
    requires k < |sides|
    ensures Occurrences(sides, sides[k].address) > 0
    ensures Occurrences(sides, sides[k].address) >= Occurrences(sides[..k + 1], sides[k].address)
  {
    if k < |sides| - 1 {
      var n := |sides| - 1;
      OccursAt(sides[..n], k);
      assert sides[..n][..k + 1] == sides[..k + 1];
    } else {
      assert sides[..k + 1] == sides;
    }
  }

  // ----- The entries of a transaction -----

  /** How many ends the transactions have. */
  function Present(transactions: seq<TransactionDetail>): nat {
    if transactions == [] then 0
    else
      var last := transactions[|transactions| - 1];
      Present(transactions[..|transactions| - 1]) + (if last.from != [] then 1 else 0) + if last.to != [] then 1 else 0
  }

  function CountOf(entries: seq<AddressIndex>, address: Bytes): nat {
    if entries == [] then 0
    else
      var n := |entries| - 1;
      CountOf(entries[..n], address) + if entries[n].address == address then 1 else 0
  }

  /**
    Transaction entries: a block has one entry for each present end of a transaction, in the order of
    the transactions and the sender's before the receiver's. The sender's shows the value as negative
    and the receiver as counterparty, the receiver's the value and the sender; the zero address stands
    for an end that is missing. The sequence counts the entries of the address so far, in a uint8.
   */
  lemma TransactionEntries(block: BlockDetail, i: nat)
    requires i < |block.transactions|
    ensures |Entries(block)| == Present(block.transactions)
    ensures var tx, p := block.transactions[i], Present(block.transactions[..i]);
      tx.from != [] ==>
        && p < |Entries(block)|
        && var e := Entries(block)[p];
           && e.address == tx.from && e.txHash == tx.txHash && e.value == -tx.value && e.time == block.time
           && e.coupleAddress == (if tx.to == [] then AddressZero() else tx.to)
           && e.sequence == CountOf(Entries(block)[..p + 1], tx.from) % 256
    ensures var tx := block.transactions[i];
      var q := Present(block.transactions[..i]) + if tx.from != [] then 1 else 0;
      tx.to != [] ==>
        && q < |Entries(block)|
        && var e := Entries(block)[q];
           && e.address == tx.to && e.txHash == tx.txHash && e.value == tx.value && e.time == block.time
           && e.coupleAddress == (if tx.from == [] then AddressZero() else tx.from)
           && e.sequence == CountOf(Entries(block)[..q + 1], tx.to) % 256
  {
    var transactions, tx := block.transactions, block.transactions[i];
    var sides, p := Sides(transactions), Present(transactions[..i]);
    SidesCount(transactions);
    SidesCount(transactions[..i]);
    SidesOfTransaction(transactions, i);
    if tx.from != [] {
      EntryOfSide(sides, p, block.time);
    }
    if tx.to != [] {
      EntryOfSide(sides, p + if tx.from != [] then 1 else 0, block.time);
    }
  }

  lemma {:induction false} SidesCount(transactions: seq<TransactionDetail>)
    ensures |Sides(transactions)| == Present(transactions)
  {
    if transactions != [] {
      SidesCount(transactions[..|transactions| - 1]);
    }
  }

  lemma {:induction false} SidesPrefix(transactions: seq<TransactionDetail>, i: nat)
    requires i <= |transactions|
    ensures Sides(transactions[..i]) <= Sides(transactions)
  {
    if i < |transactions| {
      var front := transactions[..|transactions| - 1];
      assert front[..i] == transactions[..i];
      SidesPrefix(front, i);
    } else {
      assert transactions[..i] == transactions;
    }
  }

  lemma SidesOfTransaction(transactions: seq<TransactionDetail>, i: nat)
    requires i < |transactions|
    ensures Sides(transactions[..i]) + TransactionSides(transactions[i]) <= Sides(transactions)
  {
    assert transactions[..i + 1][..i] == transactions[..i];
    SidesPrefix(transactions, i + 1);
  }

  lemma EntryOfSide(sides: seq<Side>, p: nat, time: int)
    requires p < |sides|
    ensures var e, s := EntriesOf(sides, time)[p], sides[p];
      && e.address == s.address && e.txHash == s.txHash && e.value == s.value && e.time == time
      && e.coupleAddress == s.coupleAddress
      && e.sequence == CountOf(EntriesOf(sides, time)[..p + 1], s.address) % 256
  {
    EntryAt(sides, p, time);
    EntriesFront(sides, p + 1, time);
    CountIsOccurrences(sides[..p + 1], time, sides[p].address);
  }

  lemma {:induction false} EntriesFront(sides: seq<Side>, n: nat, time: int)
    requires n <= |sides|
    ensures EntriesOf(sides, time)[..n] == EntriesOf(sides[..n], time)
  {
    if n < |sides| {
      var front := sides[..|sides| - 1];
      assert front[..n] == sides[..n];
      EntriesFront(front, n, time);
      assert EntriesOf(sides, time)[..n] == EntriesOf(front, time)[..n];
    } else {
      assert sides[..n] == sides;
    }
  }

  lemma {:induction false} CountIsOccurrences(sides: seq<Side>, time: int, address: Bytes)
    ensures CountOf(EntriesOf(sides, time), address) == Occurrences(sides, address)
  {
    if sides != [] {
      var n := |sides| - 1;
      CountIsOccurrences(sides[..n], time, address);
      assert EntriesOf(sides, time)[..n] == EntriesOf(sides[..n], time);
    }
  }

  /** The entries of a later transaction stand further back, and every entry belongs to a transaction. */
  lemma {:induction false} PositionsGrow(transactions: seq<TransactionDetail>, i: nat, j: nat)
    requires i <= j <= |transactions|
    ensures Present(transactions[..i]) <= Present(transactions[..j]) <= Present(transactions)
    ensures i < |transactions| ==>
      var tx := transactions[i];
      Present(transactions[..i + 1]) ==
      Present(transactions[..i]) + (if tx.from != [] then 1 else 0) + if tx.to != [] then 1 else 0
    decreases |transactions| - i
  {
    if i < |transactions| {
      assert transactions[..i + 1][..i] == transactions[..i];
      PositionsGrow(transactions, i + 1, if i < j then j else i + 1);
    } else {
      assert transactions[..i] == transactions;
    }
  }

  lemma {:induction false} EntryOfTransaction(transactions: seq<TransactionDetail>, p: nat) returns (i: nat)
    requires p < Present(transactions)
    ensures i < |transactions| && Present(transactions[..i]) <= p < Present(transactions[..i + 1])
  {
    var n := |transactions| - 1;
    var front := transactions[..n];
    if p < Present(front) {
      i := EntryOfTransaction(front, p);
      assert front[..i] == transactions[..i] && front[..i + 1] == transactions[..i + 1];
    } else {
      i := n;
      assert transactions[..n + 1] == transactions;
    }
  }

  // ----- Numbering -----

  /** The i-th occurrence of an address has a position. */
  lemma {:induction false} OccurrenceAt(sides: seq<Side>, address: Bytes, i: nat) returns (p: nat)
    requires 1 <= i <= Occurrences(sides, address)
    ensures p < |sides| && sides[p].address == address && Occurrences(sides[..p + 1], address) == i
  {
    var n := |sides| - 1;
    if sides[n].address == address && Occurrences(sides, address) == i {
      p := n;
      assert sides[..n + 1] == sides;
    } else {
      p := OccurrenceAt(sides[..n], address, i);
      assert sides[..n][..p + 1] == sides[..p + 1];
    }
  }

  /** A later occurrence of an address has a higher number. */
  lemma {:induction false} NumbersGrow(sides: seq<Side>, p: nat, q: nat)
    requires p < q < |sides| && sides[p].address == sides[q].address
    ensures Occurrences(sides[..p + 1], sides[p].address) < Occurrences(sides[..q + 1], sides[q].address)
  {
    var shorter := sides[..q];
    assert sides[..q + 1][..q] == shorter;
    OccursAt(shorter, p);
    assert shorter[..p + 1] == sides[..p + 1];
  }

  // ----- Conservation -----

  function SumSequences(addresses: seq<AddressSequence>): nat {
    if addresses == [] then 0
    else SumSequences(addresses[..|addresses| - 1]) + addresses[|addresses| - 1].sequence
  }

  function SumOccurrences(addresses: seq<AddressSequence>, sides: seq<Side>): nat {
    if addresses == [] then 0
    else
      var n := |addresses| - 1;
      SumOccurrences(addresses[..n], sides) + Occurrences(sides, addresses[n].address)
  }

  lemma {:induction false} SequencesAreOccurrences(addresses: seq<AddressSequence>, sides: seq<Side>)
    requires forall i :: 0 <= i < |addresses| ==>
      addresses[i].sequence == Occurrences(sides, addresses[i].address)
    ensures SumSequences(addresses) == SumOccurrences(addresses, sides)
  {
    if addresses != [] {
      SequencesAreOccurrences(addresses[..|addresses| - 1], sides);
    }
  }

  /** One more side raises the sum by one if its address is listed. */
  lemma {:induction false} SumOccurrencesStep(addresses: seq<AddressSequence>, sides: seq<Side>)
    requires sides != []
    requires forall i, j :: 0 <= i < j < |addresses| ==> addresses[i].address != addresses[j].address
    ensures var front, last := sides[..|sides| - 1], sides[|sides| - 1];
      SumOccurrences(addresses, sides) ==
      SumOccurrences(addresses, front) + if Lists(addresses, last.address) then 1 else 0
  {
    if addresses != [] {
      var n := |addresses| - 1;
      var last := sides[|sides| - 1].address;
      SumOccurrencesStep(addresses[..n], sides);
      assert Lists(addresses, last) <==> Lists(addresses[..n], last) || addresses[n].address == last by {
        if Lists(addresses[..n], last) {
          var i :| 0 <= i < n && addresses[..n][i].address == last;
          assert addresses[i].address == last;
        }
        if Lists(addresses, last) && addresses[n].address != last {
          var i :| 0 <= i < |addresses| && addresses[i].address == last;
          assert addresses[..n][i].address == last;
        }
        if addresses[n].address == last {
          assert Lists(addresses, last);
        }
      }
    }
  }

  lemma {:induction false} SumOccurrencesEmpty(addresses: seq<AddressSequence>)
    ensures SumOccurrences(addresses, []) == 0
  {
    if addresses != [] {
      SumOccurrencesEmpty(addresses[..|addresses| - 1]);
    }
  }

  lemma {:induction false} OccurrencesPartition(addresses: seq<AddressSequence>, sides: seq<Side>)
    requires forall i, j :: 0 <= i < j < |addresses| ==> addresses[i].address != addresses[j].address
    requires forall k :: 0 <= k < |sides| ==> Lists(addresses, sides[k].address)
    ensures SumOccurrences(addresses, sides) == |sides|
  {
    if sides == [] {
      SumOccurrencesEmpty(addresses);
    } else {
      var n := |sides| - 1;
      forall k | 0 <= k < n
        ensures Lists(addresses, sides[..n][k].address)
      {
        assert Lists(addresses, sides[k].address);
      }
      OccurrencesPartition(addresses, sides[..n]);
      SumOccurrencesStep(addresses, sides);
    }
  }

  predicate OccursAtMost(sides: seq<Side>, bound: nat) {
    forall k :: 0 <= k < |sides| ==> Occurrences(sides, sides[k].address) <= bound
  }

  /** The sequences of a block record add up to the number of entries written for the block. */
  lemma RecordCountsEntries(block: BlockDetail, addresses: seq<AddressSequence>)
    requires Describes(addresses, Sides(block.transactions))
    requires OccursAtMost(Sides(block.transactions), 255)
    ensures SumSequences(addresses) == |Entries(block)|
  {
    var sides := Sides(block.transactions);
    forall i | 0 <= i < |addresses|
      ensures addresses[i].sequence == Occurrences(sides, addresses[i].address)
    {
      var p := OccurrenceAt(sides, addresses[i].address, 1);
      assert Occurrences(sides, sides[p].address) <= 255;
    }
    SequencesAreOccurrences(addresses, sides);
    OccurrencesPartition(addresses, sides);
  }

  function Net(entries: seq<AddressIndex>, address: Bytes): int {
    if entries == [] then 0
    else
      var last := entries[|entries| - 1];
      Net(entries[..|entries| - 1], address) + if last.address == address then last.value else 0
  }

  /** What the transactions bring to an account, minus what they take from it. */
  function Flow(transactions: seq<TransactionDetail>, address: Bytes): int {
    if transactions == [] then 0
    else
      var last := transactions[|transactions| - 1];
      Flow(transactions[..|transactions| - 1], address)
      + (if last.to == address then last.value else 0) - (if last.from == address then last.value else 0)
  }

  /** The signed values indexed for an account are its inflow minus its outflow. */
  lemma AccountConservation(block: BlockDetail, address: Bytes)
    requires address != []
    ensures Net(Entries(block), address) == Flow(block.transactions, address)
  {
    FlowOfSides(block.transactions, block.time, address);
  }

  lemma {:induction false} FlowOfSides(transactions: seq<TransactionDetail>, time: int, address: Bytes)
    requires address != []
    ensures Net(EntriesOf(Sides(transactions), time), address) == Flow(transactions, address)
  {
    if transactions != [] {
      var n := |transactions| - 1;
      FlowOfSides(transactions[..n], time, address);
      NetOfTransaction(Sides(transactions[..n]), transactions[n], time, address);
    }
  }

  lemma NetOfTransaction(sides: seq<Side>, tx: TransactionDetail, time: int, address: Bytes)
    requires address != []
    ensures Net(EntriesOf(sides + TransactionSides(tx), time), address) ==
            Net(EntriesOf(sides, time), address)
            + (if tx.to == address then tx.value else 0) - (if tx.from == address then tx.value else 0)
  {
    assert sides + TransactionSides(tx) == sides + SenderSide(tx) + ReceiverSide(tx);
    NetOfSender(sides, tx, time, address);
    NetOfReceiver(sides + SenderSide(tx), tx, time, address);
  }

  lemma NetOfSender(sides: seq<Side>, tx: TransactionDetail, time: int, address: Bytes)
    requires address != []
    ensures Net(EntriesOf(sides + SenderSide(tx), time), address) ==
            Net(EntriesOf(sides, time), address) - if tx.from == address then tx.value else 0
  {
    NetExtend(sides, SenderSide(tx), time, address);
  }

  lemma NetOfReceiver(sides: seq<Side>, tx: TransactionDetail, time: int, address: Bytes)
    requires address != []
    ensures Net(EntriesOf(sides + ReceiverSide(tx), time), address) ==
            Net(EntriesOf(sides, time), address) + if tx.to == address then tx.value else 0
  {
    NetExtend(sides, ReceiverSide(tx), time, address);
  }

  lemma NetExtend(sides: seq<Side>, more: seq<Side>, time: int, address: Bytes)
    requires |more| <= 1
    ensures Net(EntriesOf(sides + more, time), address) ==
            Net(EntriesOf(sides, time), address)
            + if more != [] && more[0].address == address then more[0].value else 0
  {
    if more == [] {
      assert sides + more == sides;
    } else {
      assert more == [more[0]];
      EntriesExtend(sides, more[0], time);
      assert EntriesOf(sides + more, time)[..|sides|] == EntriesOf(sides, time);
    }
  }

  function Sum(entries: seq<AddressIndex>): int {
    if entries == [] then 0 else Sum(entries[..|entries| - 1]) + entries[|entries| - 1].value
  }

  /** What one-sided transactions leave over: those without a sender add, those without a receiver take. */
  function OneSided(transactions: seq<TransactionDetail>): int {
    if transactions == [] then 0
    else
      var last := transactions[|transactions| - 1];
      OneSided(transactions[..|transactions| - 1])
      + (if last.from == [] && last.to != [] then last.value else 0)
      - (if last.to == [] && last.from != [] then last.value else 0)
  }

  /** Two-sided transactions cancel out in the sum of all signed values of a block. */
  lemma BlockConservation(block: BlockDetail)
    ensures Sum(Entries(block)) == OneSided(block.transactions)
  {
    SumOfSides(block.transactions, block.time);
  }

  lemma {:induction false} SumOfSides(transactions: seq<TransactionDetail>, time: int)
    ensures Sum(EntriesOf(Sides(transactions), time)) == OneSided(transactions)
  {
    if transactions != [] {
      var n := |transactions| - 1;
      SumOfSides(transactions[..n], time);
      SumOfTransaction(Sides(transactions[..n]), transactions[n], time);
    }
  }

  lemma SumOfTransaction(sides: seq<Side>, tx: TransactionDetail, time: int)
    ensures Sum(EntriesOf(sides + TransactionSides(tx), time)) ==
            Sum(EntriesOf(sides, time)) + OneSided([tx])
  {
    assert OneSided([tx]) == OneSided([tx][..0]) +
                             (if tx.from == [] && tx.to != [] then tx.value else 0)
                             - (if tx.to == [] && tx.from != [] then tx.value else 0);
    assert sides + TransactionSides(tx) == sides + SenderSide(tx) + ReceiverSide(tx);
    SumExtend(sides, SenderSide(tx), time);
    SumExtend(sides + SenderSide(tx), ReceiverSide(tx), time);
  }

  lemma SumExtend(sides: seq<Side>, more: seq<Side>, time: int)
    requires |more| <= 1
    ensures Sum(EntriesOf(sides + more, time)) ==
            Sum(EntriesOf(sides, time)) + if more != [] then more[0].value else 0
  {
    if more == [] {
      assert sides + more == sides;
    } else {
      assert more == [more[0]];
      EntriesExtend(sides, more[0], time);
      assert EntriesOf(sides + more, time)[..|sides|] == EntriesOf(sides, time);
    }
  }
}

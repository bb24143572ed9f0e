/** core/types/batch_status.go, and the striped initial batches of GetInitBatches in indexer/indexer.go. */
module BatchStatuses {
  import opened ByteStrings
  import opened ByteMarshaller

  /** A batch as a value: its key, and the last block and time written for it. */
  datatype Batch = Batch(key: BatchKey, current: Option<nat>, updatedAt: int)

  predicate Done(b: Batch) {
    b.current.Some? && b.current.value + b.key.step > b.key.to
  }

  function NextNumber(b: Batch): nat {
    if b.current.None? then b.key.from else b.current.value + b.key.step
  }

  class BatchStatus {
    var key: BatchKey
    var current: Option<nat>
    var updatedAt: int

    function Value(): Batch
      reads this
    {
      Batch(key, current, updatedAt)
    }

    constructor (b: Batch)
      ensures Value() == b
    {
      key, current, updatedAt := b.key, b.current, b.updatedAt;
    }

    predicate IsDone()
      reads this
      ensures IsDone() <==> Done(Value())
      ensures key.step > 0 ==> (IsDone() <==> Visits(Value()) == [])
    {
      if current.None? then false
      else
        var next := current.value + key.step;
        next > key.to
    }

    method Next() returns (n: nat)
      modifies this`current
      ensures n == NextNumber(old(Value())) && Value() == old(Value()).(current := Some(n))
    {
      if current.None? {
        current := Some(key.from);
        return key.from;
      }
      n := current.value + key.step;
      current := Some(n);
    }
  }

  // ----- Strides -----

  /** n is one of from, from + step, from + 2 * step, ... */
  predicate OnStride(from: nat, step: nat, n: nat) {
    n == from || (step > 0 && n >= from + step && OnStride(from, step, n - step))
  }

  lemma {:induction false} StrideShift(from: nat, step: nat, n: nat)
    requires step > 0
    ensures OnStride(from + step, step, n) <==> OnStride(from, step, n) && n > from
  {
    if n > from + step {
      StrideShift(from, step, n - step);
    }
  }

  lemma {:induction false} StrideThrough(from: nat, step: nat, c: nat, n: nat)
    requires step > 0 && OnStride(from, step, c) && OnStride(c, step, n)
    ensures OnStride(from, step, n)
    decreases n
  {
    if n != c {
      StrideAtLeast(from, step, c);
      StrideAtLeast(c, step, n - step);
      StrideThrough(from, step, c, n - step);
    }
  }

  lemma {:induction false} StrideAtLeast(from: nat, step: nat, n: nat)
    requires OnStride(from, step, n)
    ensures n >= from
  {
  }

  /** The block numbers that driving a batch by IsDone and Next yields; what is left of the range decreases. */
  function Visits(b: Batch): seq<nat>
    requires b.key.step > 0
    decreases b.current.None?, if b.current.Some? then b.key.to - b.current.value else 0
  {
    if Done(b) then []
    else [NextNumber(b)] + Visits(b.(current := Some(NextNumber(b))))
  }

  lemma {:induction false} VisitsAfter(b: Batch, n: nat)
    requires b.key.step > 0 && b.current.Some?
    ensures n in Visits(b) <==> n > b.current.value && OnStride(b.current.value, b.key.step, n) && n <= b.key.to
    ensures forall j :: 0 <= j < |Visits(b)| ==> Visits(b)[j] > b.current.value
    ensures forall i, j :: 0 <= i < j < |Visits(b)| ==> Visits(b)[i] < Visits(b)[j]
    decreases b.key.to - b.current.value
  {
    var c, step := b.current.value, b.key.step;
    StrideShift(c, step, n);
    if !Done(b) {
      var b' := b.(current := Some(c + step));
      VisitsAfter(b', n);
      StrideShift(c + step, step, n);
    }
  }

  /** A fresh batch visits its first block in any case, and then its stride up to its end, once each. */
  lemma VisitsFresh(b: Batch, n: nat)
    requires b.key.step > 0 && b.current.None?
    ensures n in Visits(b) <==> n == b.key.from || (OnStride(b.key.from, b.key.step, n) && n <= b.key.to)
    ensures forall i, j :: 0 <= i < j < |Visits(b)| ==> Visits(b)[i] < Visits(b)[j]
  {
    var first := b.(current := Some(b.key.from));
    VisitsAfter(first, n);
    StrideShift(b.key.from, b.key.step, n);
  }

  // ----- The initial batches -----

  function InitBatch(numBatch: nat, genesisBlock: nat, latestBlock: nat, now: nat, i: nat): Batch {
    Batch(BatchKey(genesisBlock + i, latestBlock, numBatch % 256, now), None, 0)
  }

  /** GetInitBatches; the step is the number of batches as a byte. */
  method GetInitBatches(numBatch: nat, genesisBlock: nat, latestBlock: nat, now: nat) returns (result: seq<Batch>)
    ensures |result| == numBatch
    ensures forall i :: 0 <= i < numBatch ==> result[i] == InitBatch(numBatch, genesisBlock, latestBlock, now, i)
    ensures forall i :: 0 <= i < numBatch ==>
      && result[i].key.from == genesisBlock + i && result[i].key.to == latestBlock
      && result[i].key.step == numBatch % 256 && result[i].key.createdAt == now && result[i].current.None?
  {
    result := [];
    for i := 0 to numBatch
      invariant |result| == i
      invariant forall j :: 0 <= j < i ==> result[j] == InitBatch(numBatch, genesisBlock, latestBlock, now, j)
    {
      var from := genesisBlock + i;
      result := result + [Batch(BatchKey(from, latestBlock, numBatch % 256, now), None, 0)];
    }
  }

  /** Which of the stripes a block number belongs to. */
  function Stripe(genesisBlock: nat, numBatch: nat, n: nat): (i: nat)
    requires n >= genesisBlock && numBatch > 0
    ensures i < numBatch
    decreases n
  {
    if n < genesisBlock + numBatch then n - genesisBlock else Stripe(genesisBlock, numBatch, n - numBatch)
  }

  lemma {:induction false} StripeUnique(genesisBlock: nat, numBatch: nat, n: nat, i: nat)
    requires n >= genesisBlock && i < numBatch
    ensures OnStride(genesisBlock + i, numBatch, n) <==> i == Stripe(genesisBlock, numBatch, n)
  {
    if n >= genesisBlock + numBatch {
      StripeUnique(genesisBlock, numBatch, n - numBatch, i);
    }
  }

  /**
    Stripe partition: the initial batches together visit exactly the numbers from the genesis
    block up to the latest one (or up to the last stripe's first block if that is later). Of the
    batches, only the one of its stripe visits a number, and no batch visits a number twice.
   */
  lemma StripePartition(numBatch: nat, genesisBlock: nat, latestBlock: nat, now: nat, n: nat, i: nat)
    requires i < numBatch <= 255
    ensures var visits := Visits(InitBatch(numBatch, genesisBlock, latestBlock, now, i));
      && (n in visits <==> n >= genesisBlock && i == Stripe(genesisBlock, numBatch, n) &&
                           (n <= latestBlock || n < genesisBlock + numBatch))
      && forall j, k :: 0 <= j < k < |visits| ==> visits[j] != visits[k]
  {
    VisitsFresh(InitBatch(numBatch, genesisBlock, latestBlock, now, i), n);
    if OnStride(genesisBlock + i, numBatch, n) {
      StrideAtLeast(genesisBlock + i, numBatch, n);
    }
    if n >= genesisBlock {
      StripeUnique(genesisBlock, numBatch, n, i);
      if i == Stripe(genesisBlock, numBatch, n) {
        FirstOfStripe(genesisBlock, numBatch, n, i);
      }
    }
  }

  lemma FirstOfStripe(genesisBlock: nat, numBatch: nat, n: nat, i: nat)
    requires n >= genesisBlock && i < numBatch && i == Stripe(genesisBlock, numBatch, n)
    ensures n == genesisBlock + i <==> n < genesisBlock + numBatch
  {
    if n >= genesisBlock + numBatch {
      assert genesisBlock + i < genesisBlock + numBatch;
    }
  }
}

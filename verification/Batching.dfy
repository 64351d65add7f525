/**
 The batches of flashlight/fl/dataset/BatchDataset.cpp, of a fixed size or of given sizes, and
 what they make of the lists of a round-robin split.
 */
module Batching {
  import opened Integers
  import opened Options
  import opened Partition

  datatype Policy = IncludeLast | SkipLast

  function Ceil(x: real): int {
    -((-x).Floor)
  }

  /** How often the batch size goes into the samples, rounded up or down from a real quotient. */
  function CountOf(n: nat, batchSize: nat, policy: Policy): nat
    requires batchSize > 0
  {
    var quotient := n as real / batchSize as real;
    match policy
    case IncludeLast => Ceil(quotient)
    case SkipLast => quotient.Floor
  }

  lemma {:induction false} Scale(a: int, b: nat, q: real)
    requires b > 0
    ensures (a as real <= q <==> Times(a, b) as real <= q * b as real)
  {
  }

  /** The rounded quotients are what they are meant to be. */
  lemma {:induction false} CountIs(n: nat, batchSize: nat, k: int)
    requires batchSize > 0
    ensures k <= CountOf(n, batchSize, SkipLast) <==> Times(k, batchSize) <= n
    ensures CountOf(n, batchSize, IncludeLast) <= k <==> n <= Times(k, batchSize)
  {
    var q := n as real / batchSize as real;
    assert q * batchSize as real == n as real;
    Scale(k, batchSize, q);
    Scale(-k, batchSize, -q);
    assert Times(-k, batchSize) == -Times(k, batchSize);
    assert -q * batchSize as real == -(n as real);
  }

  /** Batch i of a list. */
  function Batch<T>(list: seq<T>, batchSize: nat, i: nat): seq<T>
    requires Times(batchSize, i) <= |list|
  {
    list[Times(batchSize, i)..Min(Times(batchSize, i) + batchSize, |list|)]
  }

  /** The sum of the first n sizes. */
  function Sum(sizes: seq<nat>, n: nat): nat
    requires n <= |sizes|
  {
    if n == 0 then 0 else Sum(sizes, n - 1) + sizes[n - 1]
  }

  /** The running sums that the second constructor keeps. */
  ghost predicate RunningSums(sums: seq<int>, sizes: seq<nat>) {
    |sums| == |sizes| && forall i | 0 <= i < |sums| :: sums[i] == Sum(sizes, i + 1)
  }

  class BatchDataset<T> {
    const samples: seq<T>
    const batchSize: int
    const cumSumBatchSize: seq<int>
    const size: int

    /** Batches of one size. */
    constructor Fixed(samples: seq<T>, batchSize: nat, policy: Policy)
      requires batchSize > 0
      ensures this.samples == samples && this.batchSize == batchSize && cumSumBatchSize == []
      ensures size == CountOf(|samples|, batchSize, policy)
    {
      this.samples, this.batchSize, this.cumSumBatchSize := samples, batchSize, [];
      this.size := CountOf(|samples|, batchSize, policy);
    }

    /** Batches of given sizes; their running sums are kept. */
    constructor Varied(samples: seq<T>, batchSizes: seq<nat>)
      requires batchSizes != []
      ensures this.samples == samples && size == |batchSizes|
      ensures RunningSums(cumSumBatchSize, batchSizes)
    {
      var sums: seq<int> := batchSizes;
      for i := 1 to |sums|
        invariant |sums| == |batchSizes|
        invariant forall k | 0 <= k < i :: sums[k] == Sum(batchSizes, k + 1)
        invariant forall k | i <= k < |sums| :: sums[k] == batchSizes[k]
      {
        sums := sums[i := sums[i - 1] + sums[i]];
      }
      this.samples, this.batchSize, this.cumSumBatchSize, this.size := samples, 0, sums, |sums|;
    }

    method Collect(start: int, end: int) returns (batch: seq<T>)
      requires 0 <= start && end <= |samples|
      ensures batch == if start <= end then samples[start..end] else []
    {
      batch := [];
      var k := start;
      while k < end
        invariant start <= k && (start <= end ==> k <= end && batch == samples[start..k])
        invariant start > end ==> batch == [] && k == start
      {
        batch := batch + [samples[k]];
        k := k + 1;
      }
    }

    /** Batch idx of a data set with one batch size. */
    method GetFixed(idx: int, ghost policy: Policy) returns (r: Option<seq<T>>)
      requires cumSumBatchSize == [] && batchSize > 0 && size == CountOf(|samples|, batchSize, policy)
      ensures r.None? <==> idx < 0 || idx >= size
      ensures r.Some? ==> Times(batchSize, idx) <= |samples| && r.value == Batch(samples, batchSize, idx)
    {
      if idx < 0 || idx >= size {
        return None;
      }
      StartsInside(|samples|, batchSize, policy, idx);
      var start := Times(batchSize, idx);
      var end := Min(start + batchSize, |samples|);
      var batch := Collect(start, end);
      return Some(batch);
    }

    /** Batch idx of a data set with given batch sizes. */
    method GetVaried(idx: int, ghost sizes: seq<nat>) returns (r: Option<seq<T>>)
      requires sizes != [] && RunningSums(cumSumBatchSize, sizes) && size == |sizes|
      ensures r.None? <==> idx < 0 || idx >= size
      ensures r.Some? && Sum(sizes, idx) <= |samples| ==>
        r.value == samples[Sum(sizes, idx)..Min(Sum(sizes, idx + 1), |samples|)]
      ensures r.Some? && Sum(sizes, idx) > |samples| ==> r.value == []
      ensures r.Some? && Sum(sizes, idx + 1) <= |samples| ==> |r.value| == sizes[idx]
      ensures r.Some? && idx == 0 ==> r.value == samples[..Min(sizes[0], |samples|)]
    {
      if idx < 0 || idx >= size {
        return None;
      }
      var start := if idx == 0 then 0 else cumSumBatchSize[idx - 1];
      var end := Min(cumSumBatchSize[idx], |samples|);
      var batch := Collect(start, end);
      return Some(batch);
    }
  }

  /** A batch size that is not positive is an error. */
  method FixedBatches<T>(samples: seq<T>, batchSize: int, policy: Policy) returns (r: Option<BatchDataset<T>>)
    ensures r.None? <==> batchSize <= 0
    ensures r.Some? ==>
      && fresh(r.value) && r.value.samples == samples && r.value.batchSize == batchSize
      && r.value.cumSumBatchSize == [] && r.value.size == CountOf(|samples|, batchSize, policy)
  {
    if batchSize <= 0 {
      return None;
    }
    var d := new BatchDataset.Fixed(samples, batchSize, policy);
    return Some(d);
  }

  /** No batch sizes at all are an error. */
  method VariedBatches<T>(samples: seq<T>, batchSizes: seq<nat>) returns (r: Option<BatchDataset<T>>)
    ensures r.None? <==> batchSizes == []
    ensures r.Some? ==>
      && fresh(r.value) && r.value.samples == samples && r.value.size == |batchSizes|
      && RunningSums(r.value.cumSumBatchSize, batchSizes)
  {
    if batchSizes == [] {
      return None;
    }
    var d := new BatchDataset.Varied(samples, batchSizes);
    return Some(d);
  }

  lemma {:induction false} TimesSwap(a: int, b: int)
    ensures Times(a, b) == Times(b, a) && Times(a + 1, b) == Times(a, b) + b && Times(b, a + 1) == Times(b, a) + b
  {
  }

  lemma {:induction false} TimesGrow(b: nat, i: int, j: int)
    requires i <= j
    ensures Times(b, i) <= Times(b, j)
  {
    assert b * (j - i) >= 0;
  }

  /** Every batch starts inside the list, and strictly inside when the last one is included. */
  lemma {:induction false} StartsInside(n: nat, batchSize: nat, policy: Policy, i: nat)
    requires batchSize > 0 && i < CountOf(n, batchSize, policy)
    ensures Times(batchSize, i) < n
  {
    if policy == SkipLast {
      CountIs(n, batchSize, i + 1);
    } else {
      CountIs(n, batchSize, i);
    }
    TimesSwap(i, batchSize);
  }

  /** With the last batch included no batch is empty, all but the last are full, and they are the list cut up. */
  lemma {:induction false} BatchSizes<T>(list: seq<T>, batchSize: nat, i: nat)
    requires batchSize > 0 && i < CountOf(|list|, batchSize, IncludeLast)
    ensures Times(batchSize, i) < |list| && 0 < |Batch(list, batchSize, i)| <= batchSize
    ensures i + 1 < CountOf(|list|, batchSize, IncludeLast) ==> |Batch(list, batchSize, i)| == batchSize
  {
    StartsInside(|list|, batchSize, IncludeLast, i);
    CountIs(|list|, batchSize, i + 1);
    TimesSwap(i, batchSize);
    TimesSwap(i + 1, batchSize);
  }

  ghost function Joined<T>(list: seq<T>, batchSize: nat, n: nat): seq<T>
    requires batchSize > 0 && n <= CountOf(|list|, batchSize, IncludeLast)
  {
    if n == 0 then []
    else
      StartsInside(|list|, batchSize, IncludeLast, n - 1);
      Joined(list, batchSize, n - 1) + Batch(list, batchSize, n - 1)
  }

  lemma {:induction false} JoinedIsPrefix<T>(list: seq<T>, batchSize: nat, n: nat)
    requires batchSize > 0 && n <= CountOf(|list|, batchSize, IncludeLast)
    ensures Joined(list, batchSize, n) == list[..Min(Times(batchSize, n), |list|)]
  {
    if n > 0 {
      JoinedIsPrefix(list, batchSize, n - 1);
      StartsInside(|list|, batchSize, IncludeLast, n - 1);
      TimesSwap(n - 1, batchSize);
      var start, end := Times(batchSize, n - 1), Min(Times(batchSize, n), |list|);
      assert list[..end] == list[..start] + list[start..end];
    } else {
      TimesNext(batchSize, 0);
    }
  }

  /** The batches of a list, one after the other, are the list. */
  lemma {:induction false} BatchesRestore<T>(list: seq<T>, batchSize: nat)
    requires batchSize > 0
    ensures Joined(list, batchSize, CountOf(|list|, batchSize, IncludeLast)) == list
  {
    var n := CountOf(|list|, batchSize, IncludeLast);
    CountIs(|list|, batchSize, n);
    TimesSwap(n, batchSize);
    JoinedIsPrefix(list, batchSize, n);
  }

  // ---------------------------------------------------------------- batching the parts of a split

  /** A list that comes in n full pieces of `batch` and perhaps a last one has the pieces as its batches. */
  lemma {:induction false} DealtLength(p: Plan, id: nat, n: nat)
    requires Sensible(p) && id < p.parts && n <= p.full
    ensures |Dealt(p, id, n)| == Times(p.batch, n)
  {
    if n > 0 {
      DealtLength(p, id, n - 1);
      ShareSize(p, n - 1, id);
      TimesSwap(n - 1, p.batch);
    } else {
      TimesNext(p.batch, 0);
    }
  }

  lemma {:induction false} DealtPrefix(p: Plan, id: nat, m: nat, n: nat)
    requires Sensible(p) && id < p.parts && m <= n <= p.blocks
    ensures Dealt(p, id, m) <= Dealt(p, id, n)
  {
    if m < n {
      DealtPrefix(p, id, m, n - 1);
    }
  }

  /** The last share holds at least one sample, unless empty ones are allowed, and at most a batch. */
  lemma {:induction false} LastShare(numSamples: nat, parts: nat, batch: nat, allowEmpty: bool, id: nat)
    requires batch > 0 && id < parts
    ensures var p := PlanOf(numSamples, parts, batch, allowEmpty);
      && p.least + (if id < p.rest then 1 else 0) <= batch
      && (p.blocks > p.full && !allowEmpty ==> p.least > 0)
  {
    var p, left := PlanOf(numSamples, parts, batch, allowEmpty), numSamples % Area(parts, batch);
    DivideBack(left, parts);
    assert Area(parts, batch) == Times(parts, batch);
    if p.least >= batch {
      TimesGrow(parts, batch, p.least);
      assert false;
    }
  }

  ghost function ListOf(numSamples: nat, parts: nat, batch: nat, allowEmpty: bool, id: nat): seq<int>
    requires batch > 0 && id < parts
  {
    PlanIsSensible(numSamples, parts, batch, allowEmpty);
    var p := PlanOf(numSamples, parts, batch, allowEmpty);
    Dealt(p, id, p.blocks)
  }

  lemma {:induction false} PieceOf(list: seq<int>, front: seq<int>, piece: seq<int>)
    requires front + piece <= list
    ensures |front| + |piece| <= |list| && list[|front|..|front| + |piece|] == piece
  {
    assert list[..|front| + |piece|] == front + piece;
  }

  /** Batch i of a partition's list is its share of block i. */
  lemma {:induction false} BatchIsShare(numSamples: nat, parts: nat, batch: nat, allowEmpty: bool, id: nat, i: nat)
    requires batch > 0 && id < parts && i < PlanOf(numSamples, parts, batch, allowEmpty).blocks
    ensures var p := PlanOf(numSamples, parts, batch, allowEmpty);
      var list := ListOf(numSamples, parts, batch, allowEmpty, id);
      && Sensible(p) && Times(batch, i) <= |list|
      && Batch(list, batch, i) == Share(p, id, i)
      && (!allowEmpty ==> Share(p, id, i) != [])
  {
    var p, list := PlanOf(numSamples, parts, batch, allowEmpty), ListOf(numSamples, parts, batch, allowEmpty, id);
    PlanIsSensible(numSamples, parts, batch, allowEmpty);
    LastShare(numSamples, parts, batch, allowEmpty, id);
    ShareSize(p, i, id);
    DealtLength(p, id, i);
    DealtPrefix(p, id, i + 1, p.blocks);
    PieceOf(list, Dealt(p, id, i), Share(p, id, i));
  }

  /** Without empty shares every partition has the same number of batches: one a block. */
  lemma {:induction false} SameNumberOfBatches(numSamples: nat, parts: nat, batch: nat, id: nat)
    requires batch > 0 && id < parts
    ensures CountOf(|ListOf(numSamples, parts, batch, false, id)|, batch, IncludeLast)
      == PlanOf(numSamples, parts, batch, false).blocks
  {
    var p, list := PlanOf(numSamples, parts, batch, false), ListOf(numSamples, parts, batch, false, id);
    PlanIsSensible(numSamples, parts, batch, false);
    LastShare(numSamples, parts, batch, false, id);
    DealtLength(p, id, p.full);
    if p.blocks > p.full {
      ShareSize(p, p.full, id);
    }
    CountIs(|list|, batch, p.blocks);
    CountIs(|list|, batch, p.blocks - 1);
    TimesSwap(p.blocks, batch);
    TimesSwap(p.blocks - 1, batch);
  }

  lemma {:induction false} DealtLengths(p: Plan, a: nat, b: nat, n: nat)
    requires Sensible(p) && a < b < p.parts && n <= p.blocks
    ensures |Dealt(p, b, n)| <= |Dealt(p, a, n)| <= |Dealt(p, b, n)| + (if n > p.full then 1 else 0)
  {
    if n > 0 {
      DealtLengths(p, a, b, n - 1);
      ShareSize(p, n - 1, a);
      ShareSize(p, n - 1, b);
    }
  }

  /** An earlier partition gets as many samples as a later one, or one more. */
  lemma {:induction false} EarlierGetMore(numSamples: nat, parts: nat, batch: nat, allowEmpty: bool, a: nat, b: nat)
    requires batch > 0 && a < b < parts
    ensures var more := |ListOf(numSamples, parts, batch, allowEmpty, a)|;
      var less := |ListOf(numSamples, parts, batch, allowEmpty, b)|;
      less <= more <= less + 1
  {
    var p := PlanOf(numSamples, parts, batch, allowEmpty);
    PlanIsSensible(numSamples, parts, batch, allowEmpty);
    DealtLengths(p, a, b, p.blocks);
  }

  /** The shares of the first n partitions in block i. */
  ghost function Together(p: Plan, i: nat, n: nat): seq<int>
    requires Sensible(p) && n <= p.parts
  {
    if n == 0 then [] else Together(p, i, n - 1) + Share(p, n - 1, i)
  }

  lemma {:induction false} TogetherIsRange(p: Plan, i: nat, n: nat)
    requires Sensible(p) && n <= p.parts
    ensures Cut(p, i, 0) <= Cut(p, i, n)
    ensures Together(p, i, n) == Range(Cut(p, i, 0), Cut(p, i, n))
  {
    SharesGrow(p, i, 0, n);
    if n > 0 {
      TogetherIsRange(p, i, n - 1);
      SharesGrow(p, i, 0, n - 1);
      ShareSize(p, i, n - 1);
      RangeSplit(Cut(p, i, 0), Cut(p, i, n - 1), Cut(p, i, n));
    }
  }

  /** The i-th batches of all partitions, put together, are the i-th block of consecutive samples. */
  lemma {:induction false} BatchesFormBlock(numSamples: nat, parts: nat, batch: nat, allowEmpty: bool, i: nat)
    requires parts > 0 && batch > 0 && i < PlanOf(numSamples, parts, batch, allowEmpty).blocks
    ensures var p, block := PlanOf(numSamples, parts, batch, allowEmpty), Area(parts, batch);
      && Sensible(p)
      && Times(i, block) <= Min(Times(i + 1, block), numSamples)
      && Together(p, i, parts) == Range(Times(i, block), Min(Times(i + 1, block), numSamples))
  {
    var p, block := PlanOf(numSamples, parts, batch, allowEmpty), Area(parts, batch);
    PlanIsSensible(numSamples, parts, batch, allowEmpty);
    TogetherIsRange(p, i, parts);
    BlockBounds(numSamples, parts, batch, allowEmpty, i);
  }

  lemma {:induction false} BlockBounds(numSamples: nat, parts: nat, batch: nat, allowEmpty: bool, i: nat)
    requires parts > 0 && batch > 0 && i < PlanOf(numSamples, parts, batch, allowEmpty).blocks
    ensures var p, block := PlanOf(numSamples, parts, batch, allowEmpty), Area(parts, batch);
      Cut(p, i, 0) == Times(i, block) && Cut(p, i, parts) == Min(Times(i + 1, block), numSamples)
  {
    var p, block := PlanOf(numSamples, parts, batch, allowEmpty), Area(parts, batch);
    TimesNext(batch, 0);
    TimesNext(p.least, 0);
    TimesNext(i, block);
    DivideBack(numSamples, block);
    if i < p.full {
      assert Times(batch, parts) == block;
      TimesSwap(i + 1, block);
      TimesSwap(p.full, block);
      TimesGrow(block, i + 1, p.full);
    } else {
      DivideBack(numSamples % block, parts);
    }
  }
}

/**
 The round-robin split of a data set in flashlight/fl/dataset/Utils.cpp, and the batches that
 flashlight/fl/dataset/BatchDataset.cpp makes of each part.

 The samples are dealt out block by block. Inside a block every partition gets a consecutive
 share: a full batch in a full block, an even split in the last one.
 */
module Partition {
  import opened Integers
  import opened Options

  // ---------------------------------------------------------------- shares

  /** The blocks of a split: `full` ones of parts * batch samples, and perhaps a last one, split evenly. */
  datatype Plan = Plan(parts: nat, batch: nat, full: nat, blocks: nat, least: nat, rest: nat)

  ghost function PlanOf(numSamples: nat, parts: nat, batch: nat, allowEmpty: bool): Plan
    requires parts > 0 && batch > 0
  {
    var block := Area(parts, batch);
    var left := numSamples % block;
    var includeLast := left >= parts || (allowEmpty && left > 0);
    Plan(parts, batch, numSamples / block, numSamples / block + (if includeLast then 1 else 0), left / parts,
        left % parts)
  }

  /** Where the share of partition `id` starts in block i, which is where the share of id - 1 ends. */
  ghost function Cut(p: Plan, i: nat, id: nat): int {
    if i < p.full then
      Times(i, Area(p.parts, p.batch)) + Times(p.batch, id)
    else
      Times(p.full, Area(p.parts, p.batch)) + Times(p.least, id) + Min(id, p.rest)
  }

  /** Both sizes of share, and no gap between a block and the next. */
  ghost predicate Sensible(p: Plan) {
    p.parts > 0 && p.batch > 0 && p.full <= p.blocks <= p.full + 1 && p.rest < p.parts
  }

  lemma {:induction false} ShareSize(p: Plan, i: nat, id: nat)
    requires Sensible(p) && id < p.parts
    ensures Cut(p, i, id + 1) - Cut(p, i, id) ==
      if i < p.full then p.batch else p.least + (if id < p.rest then 1 else 0)
  {
  }

  lemma {:induction false} TimesNext(a: int, b: int)
    ensures Times(a + 1, b) == Times(a, b) + b && Times(a, 0) == 0 && Times(0, b) == 0
  {
  }

  lemma {:induction false} BlocksMeet(p: Plan, i: nat)
    requires Sensible(p) && i < p.full
    ensures Cut(p, i, p.parts) == Cut(p, i + 1, 0)
  {
  }

  lemma {:induction false} StartsAtZero(p: Plan)
    requires Sensible(p)
    ensures Cut(p, 0, 0) == 0
  {
  }

  lemma {:induction false} SharesGrow(p: Plan, i: nat, a: nat, b: nat)
    requires Sensible(p) && a <= b <= p.parts
    ensures Cut(p, i, a) <= Cut(p, i, b)
    decreases b
  {
  }

  /** Shares of earlier blocks, and of earlier partitions in the same block, end before later ones start. */
  lemma {:induction false} SharesInOrder(p: Plan, i: nat, a: nat, j: nat, b: nat)
    requires Sensible(p) && a < p.parts && b < p.parts && j < p.blocks
    requires i < j || (i == j && a < b)
    ensures Cut(p, i, a + 1) <= Cut(p, j, b)
    decreases j
  {
    if i == j {
      SharesGrow(p, i, a + 1, b);
    } else {
      SharesGrow(p, i, a + 1, p.parts);
      SharesGrow(p, j, 0, b);
      BlocksMeet(p, j - 1);
      if i < j - 1 {
        SharesInOrder(p, i, a, j - 1, p.parts - 1);
        SharesGrow(p, j - 1, p.parts - 1, p.parts);
      }
    }
  }

  // ---------------------------------------------------------------- what a partition gets

  /** The share of a partition in block i. */
  ghost function Share(p: Plan, id: nat, i: nat): (r: seq<int>)
    requires Sensible(p) && id < p.parts
    ensures |r| == Cut(p, i, id + 1) - Cut(p, i, id)
    ensures forall k | 0 <= k < |r| :: r[k] == Cut(p, i, id) + k
  {
    ShareSize(p, i, id);
    Range(Cut(p, i, id), Cut(p, i, id + 1))
  }

  /** The samples of a partition in the first n blocks. */
  ghost function Dealt(p: Plan, id: nat, n: nat): seq<int>
    requires Sensible(p) && id < p.parts && n <= p.blocks
  {
    if n == 0 then [] else Dealt(p, id, n - 1) + Share(p, id, n - 1)
  }

  ghost predicate Within(x: int, lo: int, hi: int) {
    lo <= x < hi
  }

  /** Sample k belongs to partition id: it lies in one of its shares. */
  ghost predicate Owns(p: Plan, id: nat, n: nat, k: int) {
    exists i: nat :: i < n && Within(k, Cut(p, i, id), Cut(p, i, id + 1))
  }

  lemma {:induction false} DealtOwns(p: Plan, id: nat, n: nat, k: int)
    requires Sensible(p) && id < p.parts && n <= p.blocks
    ensures k in Dealt(p, id, n) <==> Owns(p, id, n, k)
  {
    if n > 0 {
      DealtOwns(p, id, n - 1, k);
      var share := Share(p, id, n - 1);
      if Within(k, Cut(p, n - 1, id), Cut(p, n - 1, id + 1)) {
        assert share[k - Cut(p, n - 1, id)] == k;
      }
    }
  }

  ghost predicate Increasing(list: seq<int>) {
    forall x, y | 0 <= x < y < |list| :: list[x] < list[y]
  }

  ghost predicate Below(list: seq<int>, hi: int) {
    forall x | 0 <= x < |list| :: list[x] < hi
  }

  lemma {:induction false} JoinIncreases(a: seq<int>, lo: int, b: seq<int>, hi: int)
    requires Increasing(a) && Below(a, lo) && Increasing(b) && Below(b, hi) && lo <= hi
    requires forall y | 0 <= y < |b| :: lo <= b[y]
    ensures Increasing(a + b) && Below(a + b, hi)
  {
  }

  lemma {:induction false} DealtBelow(p: Plan, id: nat, n: nat)
    requires Sensible(p) && id < p.parts && n < p.blocks
    ensures Increasing(Dealt(p, id, n)) && Below(Dealt(p, id, n), Cut(p, n, id))
  {
    if n > 0 {
      DealtBelow(p, id, n - 1);
      SharesInOrder(p, n - 1, id, n, id);
      JoinIncreases(Dealt(p, id, n - 1), Cut(p, n - 1, id), Share(p, id, n - 1), Cut(p, n, id));
    }
  }

  /** Each partition's list is strictly increasing. */
  lemma {:induction false} DealtIncreases(p: Plan, id: nat)
    requires Sensible(p) && id < p.parts
    ensures Increasing(Dealt(p, id, p.blocks))
  {
    if p.blocks > 0 {
      var n := p.blocks - 1;
      DealtBelow(p, id, n);
      JoinIncreases(Dealt(p, id, n), Cut(p, n, id), Share(p, id, n), Cut(p, n, id + 1));
    }
  }

  /** How many samples are dealt out. */
  ghost function Covered(p: Plan): int
    requires Sensible(p)
  {
    if p.blocks == 0 then 0 else Cut(p, p.blocks - 1, p.parts)
  }

  lemma {:induction false} BlockHolding(p: Plan, n: nat, k: int) returns (i: nat)
    requires Sensible(p) && 0 < n <= p.blocks && 0 <= k < Cut(p, n - 1, p.parts)
    ensures i < n && Cut(p, i, 0) <= k < Cut(p, i, p.parts)
  {
    if k >= Cut(p, n - 1, 0) {
      i := n - 1;
    } else {
      StartsAtZero(p);
      BlocksMeet(p, n - 2);
      i := BlockHolding(p, n - 1, k);
    }
  }

  lemma {:induction false} ShareHolding(p: Plan, i: nat, parts: nat, k: int) returns (id: nat)
    requires Sensible(p) && 0 < parts <= p.parts && Cut(p, i, 0) <= k < Cut(p, i, parts)
    ensures id < parts && Within(k, Cut(p, i, id), Cut(p, i, id + 1))
    decreases parts
  {
    if k >= Cut(p, i, parts - 1) {
      id := parts - 1;
    } else {
      id := ShareHolding(p, i, parts - 1, k);
    }
  }

  /** Every covered sample goes to some partition. */
  lemma {:induction false} EveryoneOwned(p: Plan, k: int) returns (id: nat)
    requires Sensible(p) && 0 <= k < Covered(p)
    ensures id < p.parts && k in Dealt(p, id, p.blocks)
  {
    var i := BlockHolding(p, p.blocks, k);
    id := ShareHolding(p, i, p.parts, k);
    DealtOwns(p, id, p.blocks, k);
  }

  /** No sample goes to two partitions. */
  lemma {:induction false} OwnedOnce(p: Plan, a: nat, b: nat, k: int)
    requires Sensible(p) && a < p.parts && b < p.parts
    requires k in Dealt(p, a, p.blocks) && k in Dealt(p, b, p.blocks)
    ensures a == b
  {
    DealtOwns(p, a, p.blocks, k);
    DealtOwns(p, b, p.blocks, k);
    var i: nat :| i < p.blocks && Within(k, Cut(p, i, a), Cut(p, i, a + 1));
    var j: nat :| j < p.blocks && Within(k, Cut(p, j, b), Cut(p, j, b + 1));
    if i < j || (i == j && a < b) {
      SharesInOrder(p, i, a, j, b);
    } else if j < i || (i == j && b < a) {
      SharesInOrder(p, j, b, i, a);
    }
  }

  /** Only covered samples are dealt out. */
  lemma {:induction false} OwnedIsCovered(p: Plan, id: nat, k: int)
    requires Sensible(p) && id < p.parts && k in Dealt(p, id, p.blocks)
    ensures 0 <= k < Covered(p)
  {
    DealtOwns(p, id, p.blocks, k);
    var i: nat :| i < p.blocks && Within(k, Cut(p, i, id), Cut(p, i, id + 1));
    var last := p.blocks - 1;
    SharesGrow(p, 0, 0, id);
    StartsAtZero(p);
    if i > 0 {
      SharesInOrder(p, 0, id, i, id);
      ShareSize(p, 0, id);
    }
    if i < last {
      SharesInOrder(p, i, id, last, p.parts - 1);
      SharesGrow(p, last, p.parts - 1, p.parts);
    } else {
      SharesGrow(p, last, id + 1, p.parts);
    }
  }

  // ---------------------------------------------------------------- how much is dealt out

  lemma {:induction false} PlanIsSensible(numSamples: nat, parts: nat, batch: nat, allowEmpty: bool)
    requires parts > 0 && batch > 0
    ensures Sensible(PlanOf(numSamples, parts, batch, allowEmpty))
  {
  }

  lemma {:induction false} DivideBack(a: nat, b: nat)
    requires b > 0
    ensures Times(a / b, b) + a % b == a && Times(b, a / b) + a % b == a
  {
  }

  /** The blocks end where the samples do, or where the last full block does. */
  lemma {:induction false} CoveredIs(numSamples: nat, parts: nat, batch: nat, allowEmpty: bool)
    requires parts > 0 && batch > 0
    ensures var left := numSamples % Area(parts, batch);
      Covered(PlanOf(numSamples, parts, batch, allowEmpty)) ==
        if left >= parts || allowEmpty then numSamples else numSamples - left
  {
  }

  /**
   The union of the partitions is a prefix: everything when empty shares are allowed, and
   otherwise all but fewer samples than there are partitions.
   */
  lemma {:induction false} UnionIsPrefix(numSamples: nat, parts: nat, batch: nat, allowEmpty: bool, k: int)
    requires parts > 0 && batch > 0
    ensures var p := PlanOf(numSamples, parts, batch, allowEmpty);
      && (0 <= k < Covered(p) <==> exists id: nat :: id < parts && k in Dealt(p, id, p.blocks))
      && (allowEmpty ==> Covered(p) == numSamples)
      && numSamples - parts < Covered(p) <= numSamples
  {
    var p := PlanOf(numSamples, parts, batch, allowEmpty);
    CoveredIs(numSamples, parts, batch, allowEmpty);
    if 0 <= k < Covered(p) {
      var id := EveryoneOwned(p, k);
    }
    if id: nat :| id < parts && k in Dealt(p, id, p.blocks) {
      OwnedIsCovered(p, id, k);
    }
  }

  // ---------------------------------------------------------------- the algorithm

  /** The share that the loop body computes for block i. */
  method ShareBounds(numSamples: nat, id: nat, parts: nat, batch: nat, i: nat, nGlobalBatches: nat, includeLast: bool,
      ghost p: Plan)
    returns (offset: int, nCurSamples: nat)
    requires id < parts && batch > 0 && i < nGlobalBatches
    requires Sensible(p) && p.parts == parts && p.batch == batch && nGlobalBatches == p.blocks
    requires includeLast == (p.blocks > p.full)
    requires p.blocks > p.full ==> p == PlanOf(numSamples, parts, batch, true)
    ensures offset == Cut(p, i, id) && offset + nCurSamples == Cut(p, i, id + 1)
  {
    var nSamplesPerGlobalBatch := Area(parts, batch);
    offset := Times(i, nSamplesPerGlobalBatch);
    ShareSize(p, i, id);
    if includeLast && i == nGlobalBatches - 1 {
      DivideBack(numSamples, nSamplesPerGlobalBatch);
      nCurSamples := (numSamples - offset) / parts;
      var remaining := (numSamples - offset) % parts;
      offset := offset + Times(nCurSamples, id);
      if id < remaining {
        nCurSamples := nCurSamples + 1;
      }
      offset := offset + Min(id, remaining);
    } else {
      offset := offset + Times(batch, id);
      nCurSamples := batch;
    }
  }

  /** The list of one partition; an identifier that is out of range is an error. */
  method PartitionByRoundRobin(numSamples: nat, partitionId: int, numPartitions: int, batchSz: nat, allowEmpty: bool)
    returns (r: Option<seq<int>>)
    requires batchSz > 0
    ensures r.None? <==> partitionId < 0 || partitionId >= numPartitions
    ensures r.Some? ==>
      && Sensible(PlanOf(numSamples, numPartitions, batchSz, allowEmpty))
      && var p := PlanOf(numSamples, numPartitions, batchSz, allowEmpty);
      r.value == Dealt(p, partitionId, p.blocks)
  {
    if partitionId < 0 || partitionId >= numPartitions {
      return None;
    }
    var nSamplesPerGlobalBatch := Area(numPartitions, batchSz);
    var nGlobalBatches := numSamples / nSamplesPerGlobalBatch;
    var includeLast := numSamples % nSamplesPerGlobalBatch >= numPartitions;
    if allowEmpty && numSamples % nSamplesPerGlobalBatch > 0 {
      includeLast := true;
    }
    if includeLast {
      nGlobalBatches := nGlobalBatches + 1;
    }
    ghost var p := PlanOf(numSamples, numPartitions, batchSz, allowEmpty);
    PlanIsSensible(numSamples, numPartitions, batchSz, allowEmpty);
    var outSamples: seq<int> := [];
    for i := 0 to nGlobalBatches
      invariant outSamples == Dealt(p, partitionId, i)
    {
      var offset, nCurSamples := ShareBounds(numSamples, partitionId, numPartitions, batchSz, i, nGlobalBatches,
          includeLast, p);
      ghost var before := outSamples;
      for b := 0 to nCurSamples
        invariant |outSamples| == |before| + b && before <= outSamples
        invariant forall k | |before| <= k < |outSamples| :: outSamples[k] == k - |before| + offset
      {
        outSamples := outSamples + [b + offset];
      }
      assert outSamples == before + Share(p, partitionId, i);
    }
    return Some(outSamples);
  }
}

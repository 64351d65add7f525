/**
 Dynamic batching in flashlight/fl/dataset/Utils.cpp: consecutive samples are packed into
 batches whose padded size, the number of samples times the longest of them, stays within a
 limit; the batches are then dealt out round-robin.
 */
module Dynamic {
  import opened Batching
  import Integers
  import Partition
  import opened Reals

  // ---------------------------------------------------------------- padded sizes

  ghost predicate NonNegative(s: seq<real>) {
    forall i | 0 <= i < |s| :: s[i] >= 0.0
  }

  ghost predicate TooLarge(s: seq<real>, limit: real) {
    exists i :: 0 <= i < |s| && s[i] > limit
  }

  function Max(a: real, b: real): real {
    if a < b then b else a
  }

  /** The longest of samples a up to b; the first batch counts from zero, as the source does. */
  function Longest(s: seq<real>, a: nat, b: nat): real
    requires a <= b <= |s|
    decreases b
  {
    if a == b then 0.0
    else if a > 0 && b == a + 1 then s[a]
    else Max(Longest(s, a, b - 1), s[b - 1])
  }

  function Padded(s: seq<real>, a: nat, b: nat): real
    requires a <= b <= |s|
  {
    Times((b - a) as real, Longest(s, a, b))
  }

  predicate Fits(s: seq<real>, limit: real, a: nat, b: nat)
    requires a <= b <= |s|
  {
    Padded(s, a, b) <= limit
  }

  /** With non-negative sizes it is the longest, and not below zero. */
  lemma {:induction false} LongestIsLongest(s: seq<real>, a: nat, b: nat)
    requires NonNegative(s) && a <= b <= |s|
    ensures Longest(s, a, b) >= 0.0 && forall k | a <= k < b :: s[k] <= Longest(s, a, b)
    ensures a < b ==> exists k :: a <= k < b && s[k] == Longest(s, a, b)
    decreases b
  {
    if a < b {
      LongestIsLongest(s, a, b - 1);
      if a == b - 1 { assert s[a] == Longest(s, a, b); }
    }
  }

  lemma {:induction false} LongestPrefix(s: seq<real>, a: nat, d: nat, b: nat)
    requires a < d <= b <= |s|
    ensures Longest(s, a, d) <= Longest(s, a, b)
    decreases b
  {
    if d < b {
      LongestPrefix(s, a, d, b - 1);
    }
  }

  lemma {:induction false} TimesGrows(a: real, b: real, c: real, d: real)
    requires 0.0 <= a <= c && b <= d && 0.0 <= d
    ensures Times(a, b) <= Times(c, d)
  {
    assert a * b <= a * d;
    assert a * d <= c * d;
  }

  lemma {:induction false} ScaleKeepsOrder(n: real, x: real, y: real)
    requires n >= 0.0 && x <= y
    ensures Times(n, x) <= Times(n, y)
  {
  }

  /**
   The padded size is within the limit, or strictly below it, exactly when the number of samples times each
   single sample is.
   */
  lemma {:induction false} PaddedIs(s: seq<real>, limit: real, a: nat, b: nat)
    requires NonNegative(s) && a < b <= |s|
    ensures Fits(s, limit, a, b) <==> forall k | a <= k < b :: (b - a) as real * s[k] <= limit
    ensures Padded(s, a, b) < limit <==> forall k | a <= k < b :: (b - a) as real * s[k] < limit
  {
    LongestIsLongest(s, a, b);
    var m :| a <= m < b && s[m] == Longest(s, a, b);
    assert (b - a) as real * s[m] == Padded(s, a, b);
    forall k | a <= k < b ensures (b - a) as real * s[k] <= Padded(s, a, b) {
      ScaleKeepsOrder((b - a) as real, s[k], Longest(s, a, b));
    }
  }

  /** If a batch fits, so does it before its last samples have been added. */
  lemma {:induction false} PrefixFits(s: seq<real>, limit: real, a: nat, d: nat, b: nat)
    requires limit >= 0.0 && a < d <= b <= |s| && Fits(s, limit, a, b)
    ensures Fits(s, limit, a, d)
  {
    LongestPrefix(s, a, d, b);
    if Longest(s, a, b) >= 0.0 {
      TimesGrows((d - a) as real, Longest(s, a, d), (b - a) as real, Longest(s, a, b));
    } else {
      TimesGrows((d - a) as real, Longest(s, a, d), (d - a) as real, 0.0);
    }
  }

  /** With non-negative sizes every part of a batch that fits also fits. */
  lemma {:induction false} PartFits(s: seq<real>, limit: real, a: nat, c: nat, d: nat, b: nat)
    requires NonNegative(s) && a <= c < d <= b <= |s| && Fits(s, limit, a, b)
    ensures Fits(s, limit, c, d)
  {
    LongestIsLongest(s, a, b);
    LongestIsLongest(s, c, d);
    var k :| c <= k < d && s[k] == Longest(s, c, d);
    TimesGrows((d - c) as real, Longest(s, c, d), (b - a) as real, Longest(s, a, b));
  }

  lemma {:induction false} OneFits(s: seq<real>, limit: real, a: nat)
    requires limit >= 0.0 && !TooLarge(s, limit) && a < |s|
    ensures Fits(s, limit, a, a + 1)
  {
    assert Longest(s, a, a + 1) <= limit;
  }

  // ---------------------------------------------------------------- greedy packing

  /** Where a batch that starts at a and holds the samples up to b will be closed. */
  function Reach(s: seq<real>, limit: real, a: nat, b: nat): (e: nat)
    requires a < b <= |s|
    ensures b <= e <= |s|
    decreases |s| - b
  {
    if b < |s| && Fits(s, limit, a, b + 1) then Reach(s, limit, a, b + 1) else b
  }

  /** Where the batches start, from sample a on. */
  function CutsFrom(s: seq<real>, limit: real, a: nat): (cuts: seq<nat>)
    requires a < |s|
    ensures cuts != [] && cuts[0] == a
    decreases |s| - a
  {
    var e := Reach(s, limit, a, a + 1);
    if e < |s| then [a] + CutsFrom(s, limit, e) else [a]
  }

  function Cuts(s: seq<real>, limit: real): (cuts: seq<nat>)
    requires s != []
    ensures cuts != []
  {
    CutsFrom(s, limit, 0)
  }

  /** Where the last batch starts. */
  function LastStart(s: seq<real>, limit: real): (a: nat)
    requires s != []
    ensures a < |s|
  {
    StartsInside(s, limit, 0);
    var cuts := Cuts(s, limit);
    cuts[|cuts| - 1]
  }

  /** Where batch i ends: where the next one starts, or at the end. */
  function EndOf(end: nat, cuts: seq<nat>, i: nat): nat
    requires i < |cuts|
  {
    if i + 1 < |cuts| then cuts[i + 1] else end
  }

  /** Batch i fits, and is closed before the end only when the next sample would not fit. */
  ghost predicate BatchAt(s: seq<real>, limit: real, cuts: seq<nat>, i: nat)
    requires i < |cuts|
  {
    var e := EndOf(|s|, cuts, i);
    && cuts[i] < e <= |s|
    && Fits(s, limit, cuts[i], e)
    && (i + 1 < |cuts| ==> e < |s| && !Fits(s, limit, cuts[i], e + 1))
  }

  ghost predicate Batched(s: seq<real>, limit: real, cuts: seq<nat>) {
    cuts != [] && forall i: nat | i < |cuts| :: BatchAt(s, limit, cuts, i)
  }

  /** Consecutive batches of all samples that fit, each closed only when the next sample would not fit. */
  ghost predicate Greedy(s: seq<real>, limit: real, cuts: seq<nat>) {
    Batched(s, limit, cuts) && cuts[0] == 0
  }

  lemma {:induction false} StartsInside(s: seq<real>, limit: real, a: nat)
    requires a < |s|
    ensures var cuts := CutsFrom(s, limit, a); cuts[|cuts| - 1] < |s|
    decreases |s| - a
  {
    var e := Reach(s, limit, a, a + 1);
    if e < |s| {
      StartsInside(s, limit, e);
    }
  }

  lemma {:induction false} ReachFits(s: seq<real>, limit: real, a: nat, b: nat)
    requires a < b <= |s| && Fits(s, limit, a, b)
    ensures var e := Reach(s, limit, a, b);
      Fits(s, limit, a, e) && (e < |s| ==> !Fits(s, limit, a, e + 1))
    decreases |s| - b
  {
    if b < |s| && Fits(s, limit, a, b + 1) {
      ReachFits(s, limit, a, b + 1);
    }
  }

  lemma {:induction false} BatchShift(s: seq<real>, limit: real, a: nat, rest: seq<nat>, i: nat)
    requires i < |rest|
    ensures BatchAt(s, limit, [a] + rest, i + 1) <==> BatchAt(s, limit, rest, i)
  {
  }

  lemma {:induction false} CutsFromBatched(s: seq<real>, limit: real, a: nat)
    requires limit >= 0.0 && !TooLarge(s, limit) && a < |s|
    ensures Batched(s, limit, CutsFrom(s, limit, a))
    decreases |s| - a
  {
    OneFits(s, limit, a);
    ReachFits(s, limit, a, a + 1);
    var e := Reach(s, limit, a, a + 1);
    if e < |s| {
      var rest := CutsFrom(s, limit, e);
      CutsFromBatched(s, limit, e);
      var cuts := [a] + rest;
      forall i: nat | i < |cuts| ensures BatchAt(s, limit, cuts, i) {
        if i > 0 {
          BatchShift(s, limit, a, rest, i - 1);
        }
      }
    }
  }

  lemma {:induction false} ReachIs(s: seq<real>, limit: real, a: nat, b: nat, e: nat)
    requires limit >= 0.0 && a < b <= e <= |s| && Fits(s, limit, a, e)
    requires e < |s| ==> !Fits(s, limit, a, e + 1)
    ensures Reach(s, limit, a, b) == e
    decreases e - b
  {
    if b < e {
      PrefixFits(s, limit, a, b + 1, e);
      ReachIs(s, limit, a, b + 1, e);
    }
  }

  lemma {:induction false} BatchedIsCuts(s: seq<real>, limit: real, cuts: seq<nat>)
    requires limit >= 0.0 && Batched(s, limit, cuts)
    ensures cuts[0] < |s| && cuts == CutsFrom(s, limit, cuts[0])
    decreases |cuts|
  {
    assert BatchAt(s, limit, cuts, 0);
    var e := EndOf(|s|, cuts, 0);
    ReachIs(s, limit, cuts[0], cuts[0] + 1, e);
    if |cuts| > 1 {
      var rest := cuts[1..];
      assert cuts == [cuts[0]] + rest;
      forall i: nat | i < |rest| ensures BatchAt(s, limit, rest, i) {
        BatchShift(s, limit, cuts[0], rest, i);
        assert BatchAt(s, limit, cuts, i + 1);
      }
      BatchedIsCuts(s, limit, rest);
    }
  }

  /** The greedy batches: the computed ones are, and no others. */
  lemma {:induction false} GreedyIff(s: seq<real>, limit: real, cuts: seq<nat>)
    requires s != [] && limit >= 0.0 && !TooLarge(s, limit)
    ensures Greedy(s, limit, cuts) <==> cuts == Cuts(s, limit)
  {
    CutsFromBatched(s, limit, 0);
    if Greedy(s, limit, cuts) {
      BatchedIsCuts(s, limit, cuts);
    }
  }

  // ---------------------------------------------------------------- fewest batches

  /** Any way of splitting the data into consecutive batches that fit; d[k] is where batch k starts. */
  ghost predicate Split(s: seq<real>, limit: real, d: seq<nat>) {
    && 0 < |d| && d[0] == 0 && d[|d| - 1] == |s|
    && forall k: nat | k < |d| - 1 :: FitsBetween(s, limit, d, k)
  }

  ghost predicate FitsBetween(s: seq<real>, limit: real, d: seq<nat>, k: nat)
    requires k < |d| - 1
  {
    d[k] <= d[k + 1] <= |s| && Fits(s, limit, d[k], d[k + 1])
  }

  /** One batch cannot overtake a greedy one that starts no earlier. */
  lemma {:induction false} CannotOvertake(s: seq<real>, limit: real, a: nat, c: nat, e: nat, b: nat)
    requires NonNegative(s) && a <= c < e < |s| && a <= b <= |s|
    requires Fits(s, limit, a, b) && !Fits(s, limit, c, e + 1)
    ensures b <= e
  {
    if e < b {
      PartFits(s, limit, a, c, e + 1, b);
    }
  }

  lemma {:induction false} StaysAhead(s: seq<real>, limit: real, cuts: seq<nat>, d: seq<nat>, k: nat)
    requires NonNegative(s) && Greedy(s, limit, cuts) && Split(s, limit, d) && k < |d| && k < |cuts|
    ensures d[k] <= cuts[k]
  {
    if k > 0 {
      StaysAhead(s, limit, cuts, d, k - 1);
      assert FitsBetween(s, limit, d, k - 1) && BatchAt(s, limit, cuts, k - 1);
      CannotOvertake(s, limit, d[k - 1], cuts[k - 1], cuts[k], d[k]);
    }
  }

  /** No split into batches that fit has fewer batches. */
  lemma {:induction false} GreedyIsFewest(s: seq<real>, limit: real, cuts: seq<nat>, d: seq<nat>)
    requires NonNegative(s) && Greedy(s, limit, cuts) && Split(s, limit, d)
    ensures |cuts| <= |d| - 1
  {
    if |d| - 1 < |cuts| {
      assert BatchAt(s, limit, cuts, |d| - 1);
      StaysAhead(s, limit, cuts, d, |d| - 1);
    }
  }

  /** The greedy batches are such a split themselves. */
  lemma {:induction false} GreedyIsSplit(s: seq<real>, limit: real, cuts: seq<nat>)
    requires Greedy(s, limit, cuts)
    ensures Split(s, limit, cuts + [|s|])
  {
    var d := cuts + [|s|];
    forall k: nat | k < |d| - 1 ensures FitsBetween(s, limit, d, k) {
      assert BatchAt(s, limit, cuts, k);
    }
  }

  // ---------------------------------------------------------------- the packing loop

  datatype Packing = Packed(sizes: seq<nat>, offsets: seq<nat>) | SampleTooLarge | WrongPacking

  /** Each batch reaches to the start of the next, the last one to `end`. */
  ghost predicate Filled(sizes: seq<nat>, offsets: seq<nat>, end: nat) {
    |sizes| == |offsets| && forall i: nat | i < |sizes| :: offsets[i] + sizes[i] == EndOf(end, offsets, i)
  }

  /** The packing's batches are the greedy ones; the last one is there only when it is strictly below the limit. */
  ghost predicate Emitted(s: seq<real>, limit: real, sizes: seq<nat>, offsets: seq<nat>)
    requires s != []
  {
    var cuts := Cuts(s, limit);
    if Padded(s, LastStart(s, limit), |s|) < limit then
      offsets == cuts && Filled(sizes, offsets, |s|)
    else
      offsets == cuts[..|cuts| - 1] && Filled(sizes, offsets, LastStart(s, limit))
  }

  /**
   What packing returns. A sample above the limit is an error, the inner check fails only for a
   negative limit, and otherwise the batches are the greedy ones.
   */
  ghost predicate IsPacking(s: seq<real>, maxSizePerBatch: int, packing: Packing) {
    var limit := maxSizePerBatch as real;
    if s == [] then
      packing == if maxSizePerBatch > 0 then Packed([0], [0]) else Packed([], [])
    else if maxSizePerBatch < 0 then
      packing == if s[0] > limit then SampleTooLarge else WrongPacking
    else if TooLarge(s, limit) then
      packing == SampleTooLarge
    else
      packing.Packed? && Emitted(s, limit, packing.sizes, packing.offsets)
  }

  /** State of the loop: the closed batches, and the open one from `start` on. */
  ghost predicate Closed(s: seq<real>, limit: real, start: nat, idx: nat, sizes: seq<nat>, offsets: seq<nat>) {
    && start <= idx <= |s| && Filled(sizes, offsets, start)
    && (start < |s| ==> Cuts(s, limit) == offsets + CutsFrom(s, limit, start))
    && (start < idx ==> Reach(s, limit, start, start + 1) == Reach(s, limit, start, idx))
  }

  lemma {:induction false} CloseBatch(s: seq<real>, limit: real, start: nat, idx: nat, sizes: seq<nat>,
      offsets: seq<nat>)
    requires Closed(s, limit, start, idx, sizes, offsets) && start < idx < |s|
    requires !Fits(s, limit, start, idx + 1)
    ensures Closed(s, limit, idx, idx, sizes + [idx - start], offsets + [start])
  {
    assert CutsFrom(s, limit, start) == [start] + CutsFrom(s, limit, idx);
    var z, o := sizes + [idx - start], offsets + [start];
    forall i: nat | i < |z| ensures o[i] + z[i] == EndOf(idx, o, i) {
      if i < |sizes| {
        assert offsets[i] + sizes[i] == EndOf(start, offsets, i);
      }
    }
  }

  lemma {:induction false} Finish(s: seq<real>, limit: real, start: nat, sizes: seq<nat>, offsets: seq<nat>)
    requires Closed(s, limit, start, |s|, sizes, offsets) && start < |s|
    ensures start == LastStart(s, limit)
    ensures if Padded(s, start, |s|) < limit then Emitted(s, limit, sizes + [|s| - start], offsets + [start])
            else Emitted(s, limit, sizes, offsets)
  {
    assert CutsFrom(s, limit, start) == [start];
    var z, o := sizes + [|s| - start], offsets + [start];
    forall i: nat | i < |z| ensures o[i] + z[i] == EndOf(|s|, o, i) {
      if i < |sizes| {
        assert offsets[i] + sizes[i] == EndOf(start, offsets, i);
      }
    }
  }

  /** The running maximum, also right after a batch was closed. */
  ghost predicate Running(s: seq<real>, start: nat, idx: nat, maxLen: real)
    requires start <= idx <= |s|
  {
    if start < idx || idx == 0 then maxLen == Longest(s, start, idx) else start < |s| && maxLen == s[start]
  }

  lemma {:induction false} RunningNext(s: seq<real>, start: nat, idx: nat, maxLen: real)
    requires start <= idx < |s| && Running(s, start, idx, maxLen)
    ensures Max(maxLen, s[idx]) == Longest(s, start, idx + 1)
  {
  }

  lemma {:induction false} TimesOne(x: real)
    ensures Times(1.0, x) == x && Times(0.0, x) == 0.0 && Times(x, 0.0) == 0.0
  {
  }

  /** What holds at the top of the loop; a negative limit does not get past the first sample. */
  ghost predicate Midway(s: seq<real>, limit: real, start: nat, idx: nat, maxLen: real, sizes: seq<nat>,
      offsets: seq<nat>)
  {
    && Closed(s, limit, start, idx, sizes, offsets)
    && Running(s, start, idx, maxLen)
    && (idx == 0 ==> offsets == [])
    && (limit < 0.0 ==> idx == 0)
    && (forall k | 0 <= k < idx :: s[k] <= limit)
    && (limit >= 0.0 ==> Times((idx - start) as real, maxLen) <= limit)
  }

  lemma {:induction false} MidwayGoesOn(s: seq<real>, limit: real, start: nat, idx: nat, maxLen: real,
      sizes: seq<nat>, offsets: seq<nat>)
    requires Midway(s, limit, start, idx, maxLen, sizes, offsets) && idx < |s| && s[idx] <= limit
    requires Times((idx - start + 1) as real, Max(maxLen, s[idx])) <= limit
    ensures Midway(s, limit, start, idx + 1, Max(maxLen, s[idx]), sizes, offsets)
  {
    RunningNext(s, start, idx, maxLen);
    TimesOne(Max(maxLen, s[idx]));
  }

  lemma {:induction false} MidwayCloses(s: seq<real>, limit: real, start: nat, idx: nat, maxLen: real,
      sizes: seq<nat>, offsets: seq<nat>)
    requires Midway(s, limit, start, idx, maxLen, sizes, offsets) && idx < |s| && s[idx] <= limit
    requires Times((idx - start + 1) as real, Max(maxLen, s[idx])) > limit
    requires Times((idx - start) as real, maxLen) <= limit
    ensures start < idx && Midway(s, limit, idx, idx, s[idx], sizes + [idx - start], offsets + [start])
  {
    RunningNext(s, start, idx, maxLen);
    TimesOne(Max(maxLen, s[idx]));
    TimesOne(maxLen);
    TimesOne(s[idx]);
    CloseBatch(s, limit, start, idx, sizes, offsets);
  }

  lemma {:induction false} MidwayStart(s: seq<real>, limit: real)
    ensures Midway(s, limit, 0, 0, 0.0, [], [])
  {
    TimesOne(0.0);
    if s != [] {
      assert Cuts(s, limit) == [] + CutsFrom(s, limit, 0);
    }
  }

  /** The outcome: the last batch is added only when it is strictly below the limit. */
  lemma {:induction false} MidwayEnds(s: seq<real>, maxSizePerBatch: int, start: nat, maxLen: real,
      sizes: seq<nat>, offsets: seq<nat>)
    requires Midway(s, maxSizePerBatch as real, start, |s|, maxLen, sizes, offsets)
    ensures start <= |s| && IsPacking(s, maxSizePerBatch,
      if Times((|s| - start) as real, maxLen) < maxSizePerBatch as real
      then Packed(sizes + [|s| - start], offsets + [start])
      else Packed(sizes, offsets))
  {
    if s != [] {
      Finish(s, maxSizePerBatch as real, start, sizes, offsets);
    } else {
      TimesOne(0.0);
    }
  }

  lemma {:induction false} MidwayFails(s: seq<real>, maxSizePerBatch: int, start: nat, idx: nat, maxLen: real,
      sizes: seq<nat>, offsets: seq<nat>)
    requires Midway(s, maxSizePerBatch as real, start, idx, maxLen, sizes, offsets) && idx < |s|
    ensures s[idx] > maxSizePerBatch as real ==> IsPacking(s, maxSizePerBatch, SampleTooLarge)
    ensures s[idx] <= maxSizePerBatch as real && Times((idx - start) as real, maxLen) > maxSizePerBatch as real ==>
      IsPacking(s, maxSizePerBatch, WrongPacking)
  {
  }

  /** The end of the packing: the open batch is added only when it is strictly below the limit. */
  method CloseLast(s: seq<real>, maxSizePerBatch: int, start: nat, maxLen: real, sizes: seq<nat>, offsets: seq<nat>)
    returns (r: Packing)
    requires Midway(s, maxSizePerBatch as real, start, |s|, maxLen, sizes, offsets)
    ensures IsPacking(s, maxSizePerBatch, r)
  {
    MidwayEnds(s, maxSizePerBatch, start, maxLen, sizes, offsets);
    if Times((|s| - start) as real, maxLen) < maxSizePerBatch as real {
      r := Packed(sizes + [|s| - start], offsets + [start]);
    } else {
      r := Packed(sizes, offsets);
    }
  }

  method Pack(s: seq<real>, maxSizePerBatch: int) returns (r: Packing)
    ensures IsPacking(s, maxSizePerBatch, r)
  {
    var limit := maxSizePerBatch as real;
    var batchSizes: seq<nat>, batchOffsets: seq<nat> := [], [];
    var sampleIdx: nat, batchStartSampleIdx: nat := 0, 0;
    var maxSampleLen := 0.0;
    MidwayStart(s, limit);
    while sampleIdx < |s|
      invariant batchStartSampleIdx <= sampleIdx <= |s|
      invariant Midway(s, limit, batchStartSampleIdx, sampleIdx, maxSampleLen, batchSizes, batchOffsets)
      decreases |s| - sampleIdx, sampleIdx - batchStartSampleIdx
    {
      MidwayFails(s, maxSizePerBatch, batchStartSampleIdx, sampleIdx, maxSampleLen, batchSizes, batchOffsets);
      if s[sampleIdx] > limit {
        return SampleTooLarge;
      }
      var maxSampleLenOld := maxSampleLen;
      maxSampleLen := Max(maxSampleLen, s[sampleIdx]);
      if Times((sampleIdx - batchStartSampleIdx + 1) as real, maxSampleLen) > limit {
        if Times((sampleIdx - batchStartSampleIdx) as real, maxSampleLenOld) > limit {
          return WrongPacking;
        }
        MidwayCloses(s, limit, batchStartSampleIdx, sampleIdx, maxSampleLenOld, batchSizes, batchOffsets);
        batchSizes := batchSizes + [sampleIdx - batchStartSampleIdx];
        batchOffsets := batchOffsets + [batchStartSampleIdx];
        batchStartSampleIdx := sampleIdx;
        maxSampleLen := s[sampleIdx];
      } else {
        MidwayGoesOn(s, limit, batchStartSampleIdx, sampleIdx, maxSampleLenOld, batchSizes, batchOffsets);
        sampleIdx := sampleIdx + 1;
      }
    }
    r := CloseLast(s, maxSizePerBatch, batchStartSampleIdx, maxSampleLen, batchSizes, batchOffsets);
  }

  // ---------------------------------------------------------------- the samples that get lost

  ghost predicate Holds(sizes: seq<nat>, offsets: seq<nat>, i: nat, k: int)
    requires i < |sizes| == |offsets|
  {
    offsets[i] <= k < offsets[i] + sizes[i]
  }

  ghost predicate InSomeBatch(sizes: seq<nat>, offsets: seq<nat>, k: int)
    requires |sizes| == |offsets|
  {
    exists i: nat :: i < |sizes| && Holds(sizes, offsets, i, k)
  }

  /** Batches that reach from the start to the end hold every sample between, and no other. */
  lemma {:induction false} FilledHolds(sizes: seq<nat>, offsets: seq<nat>, end: nat, k: nat)
    requires Filled(sizes, offsets, end) && offsets != [] && offsets[0] == 0
    ensures InSomeBatch(sizes, offsets, k) <==> k < end
    decreases |sizes|
  {
    var n := |sizes| - 1;
    assert offsets[n] + sizes[n] == EndOf(end, offsets, n);
    assert Holds(sizes, offsets, n, k) <==> offsets[n] <= k < end;
    if n > 0 {
      var z, o := sizes[..n], offsets[..n];
      forall i: nat | i < n ensures o[i] + z[i] == EndOf(offsets[n], o, i) {
        assert offsets[i] + sizes[i] == EndOf(end, offsets, i);
      }
      FilledHolds(z, o, offsets[n], k);
      if InSomeBatch(z, o, k) {
        var i: nat :| i < n && Holds(z, o, i, k);
        assert Holds(sizes, offsets, i, k);
      }
      if i: nat :| i < |sizes| && Holds(sizes, offsets, i, k) {
        assert i == n || Holds(z, o, i, k);
      }
    }
  }

  /** A sample is lost if and only if it is in the last batch and that batch is not strictly below the limit. */
  lemma {:induction false} PackedIff(s: seq<real>, limit: real, sizes: seq<nat>, offsets: seq<nat>, k: nat)
    requires s != [] && Emitted(s, limit, sizes, offsets) && k < |s|
    ensures InSomeBatch(sizes, offsets, k) <==> k < LastStart(s, limit) || Padded(s, LastStart(s, limit), |s|) < limit
  {
    if offsets == [] {
      assert LastStart(s, limit) == 0;
    } else if Padded(s, LastStart(s, limit), |s|) < limit {
      FilledHolds(sizes, offsets, |s|, k);
    } else {
      FilledHolds(sizes, offsets, LastStart(s, limit), k);
    }
  }

  /**
   Every sample is in a batch if and only if the padded size of the last batch, which the sizes
   and the limit determine before the call, is strictly below the limit.
   */
  lemma {:induction false} AllPackedIff(s: seq<real>, limit: real, sizes: seq<nat>, offsets: seq<nat>)
    requires s != [] && Emitted(s, limit, sizes, offsets)
    ensures |sizes| == |offsets|
    ensures (forall k: nat | k < |s| :: InSomeBatch(sizes, offsets, k)) <==> Padded(s, LastStart(s, limit), |s|) < limit
  {
    forall k: nat | k < |s|
      ensures InSomeBatch(sizes, offsets, k) <==> k < LastStart(s, limit) || Padded(s, LastStart(s, limit), |s|) < limit
    {
      PackedIff(s, limit, sizes, offsets, k);
    }
    assert InSomeBatch(sizes, offsets, LastStart(s, limit)) <==> Padded(s, LastStart(s, limit), |s|) < limit;
  }

  /** Two samples of length one and a limit of two: they fit exactly, and are dropped. */
  method ExactFitIsLost() returns (r: Packing)
    ensures r == Packed([], [])
  {
    var s := [1.0, 1.0];
    assert Longest(s, 0, 1) == 1.0;
    assert Longest(s, 0, 2) == 1.0;
    assert Padded(s, 0, 2) == 2.0;
    assert Reach(s, 2.0, 0, 1) == Reach(s, 2.0, 0, 2) == 2;
    r := Pack(s, 2);
  }

  // ---------------------------------------------------------------- dealing the batches out

  ghost function Turn(k: nat, parts: nat, id: nat): int {
    Integers.Times(k, parts) + id
  }

  /** Batch k of the partition's output is the range of samples of batch j. */
  ghost predicate Piece(outSamples: seq<int>, outSizes: seq<nat>, k: nat, size: nat, offset: nat)
    requires k < |outSizes|
  {
    && outSizes[k] == size
    && Sum(outSizes, k + 1) <= |outSamples|
    && outSamples[Sum(outSizes, k)..Sum(outSizes, k + 1)] == Integers.Range(offset, offset + size)
  }

  lemma {:induction false} SumOfPrefix(sizes: seq<nat>, more: seq<nat>, n: nat)
    requires n <= |sizes|
    ensures Sum(sizes + more, n) == Sum(sizes, n)
  {
    if n > 0 {
      SumOfPrefix(sizes, more, n - 1);
    }
  }

  lemma {:induction false} PieceStays(outSamples: seq<int>, outSizes: seq<nat>, moreSamples: seq<int>,
      moreSizes: seq<nat>, k: nat, size: nat, offset: nat)
    requires k < |outSizes| && Piece(outSamples, outSizes, k, size, offset)
    ensures Piece(outSamples + moreSamples, outSizes + moreSizes, k, size, offset)
  {
    SumOfPrefix(outSizes, moreSizes, k);
    SumOfPrefix(outSizes, moreSizes, k + 1);
    var a, b := Sum(outSizes, k), Sum(outSizes, k + 1);
    assert (outSamples + moreSamples)[a..b] == outSamples[a..b];
  }

  lemma {:induction false} PieceAdded(outSamples: seq<int>, outSizes: seq<nat>, size: nat, offset: nat)
    requires |outSamples| == Sum(outSizes, |outSizes|)
    ensures var samples, sizes := outSamples + Integers.Range(offset, offset + size), outSizes + [size];
      |samples| == Sum(sizes, |sizes|) && Piece(samples, sizes, |outSizes|, size, offset)
  {
    SumOfPrefix(outSizes, [size], |outSizes|);
    var samples := outSamples + Integers.Range(offset, offset + size);
    assert samples[|outSamples|..|samples|] == Integers.Range(offset, offset + size);
  }

  lemma {:induction false} TurnInside(k: nat, parts: nat, id: nat, n: nat)
    requires id < parts
    ensures k < n / parts ==> Turn(k, parts, id) < n
    ensures k == n / parts ==> (Turn(k, parts, id) < n <==> id < n % parts)
    ensures k > n / parts ==> Turn(k, parts, id) >= n
  {
    Partition.DivideBack(n, parts);
    TimesSwap(n / parts, parts);
    TimesSwap(k, parts);
    if k < n / parts {
      TimesGrow(parts, k + 1, n / parts);
    } else if k > n / parts {
      TimesGrow(parts, n / parts + 1, k);
    }
  }

  /** So far the output holds the partition's first batches, each as a range of samples. */
  ghost predicate DealtSoFar(outSamples: seq<int>, outSizes: seq<nat>, sizes: seq<nat>, offsets: seq<nat>, id: nat,
      parts: nat)
  {
    && |sizes| == |offsets|
    && |outSamples| == Sum(outSizes, |outSizes|)
    && (forall k: nat | k < |outSizes| ::
          && 0 <= Turn(k, parts, id) < |sizes|
          && Piece(outSamples, outSizes, k, sizes[Turn(k, parts, id)], offsets[Turn(k, parts, id)]))
  }

  /** The partition gets every parts-th batch, starting with its own number. */
  ghost predicate DealtOut(outSamples: seq<int>, outSizes: seq<nat>, sizes: seq<nat>, offsets: seq<nat>, id: nat,
      parts: nat, allowEmpty: bool)
    requires parts > 0
  {
    && DealtSoFar(outSamples, outSizes, sizes, offsets, id, parts)
    && (forall k: nat :: k < |outSizes| <==> Turn(k, parts, id) < |sizes| && (allowEmpty || k < |sizes| / parts))
  }

  lemma {:induction false} DealtMore(outSamples: seq<int>, outSizes: seq<nat>, sizes: seq<nat>, offsets: seq<nat>,
      id: nat, parts: nat)
    requires DealtSoFar(outSamples, outSizes, sizes, offsets, id, parts) && 0 <= Turn(|outSizes|, parts, id) < |sizes|
    ensures var j := Turn(|outSizes|, parts, id);
      DealtSoFar(outSamples + Integers.Range(offsets[j], offsets[j] + sizes[j]), outSizes + [sizes[j]], sizes,
          offsets, id, parts)
  {
    var j := Turn(|outSizes|, parts, id);
    var samples := Integers.Range(offsets[j], offsets[j] + sizes[j]);
    PieceAdded(outSamples, outSizes, sizes[j], offsets[j]);
    forall k: nat | k < |outSizes|
      ensures Piece(outSamples + samples, outSizes + [sizes[j]], k, sizes[Turn(k, parts, id)],
          offsets[Turn(k, parts, id)])
    {
      PieceStays(outSamples, outSizes, samples, [sizes[j]], k, sizes[Turn(k, parts, id)], offsets[Turn(k, parts, id)]);
    }
  }

  /** How many batches the partition gets. */
  ghost function Turns(n: nat, id: nat, parts: nat, allowEmpty: bool): nat
    requires parts > 0
  {
    n / parts + (if allowEmpty && id < n % parts then 1 else 0)
  }

  lemma {:induction false} TurnsAre(n: nat, id: nat, parts: nat, allowEmpty: bool, k: nat)
    requires id < parts
    ensures k < Turns(n, id, parts, allowEmpty) <==> Turn(k, parts, id) < n && (allowEmpty || k < n / parts)
  {
    TurnInside(k, parts, id, n);
  }

  /** Round-robin over the batches. */
  method Deal(batchSizes: seq<nat>, batchOffsets: seq<nat>, id: nat, parts: nat, allowEmpty: bool)
    returns (outSamples: seq<int>, outBatchSizes: seq<nat>)
    requires |batchSizes| == |batchOffsets| && id < parts
    ensures DealtOut(outSamples, outBatchSizes, batchSizes, batchOffsets, id, parts, allowEmpty)
    ensures outBatchSizes == [] ==> outSamples == []
    ensures outBatchSizes != [] ==>
      && id < |batchSizes| && outBatchSizes[0] == batchSizes[id]
      && Integers.Range(batchOffsets[id], batchOffsets[id] + batchSizes[id]) <= outSamples
  {
    ghost var mine := Turns(|batchSizes|, id, parts, allowEmpty);
    var nGlobalBatches := |batchSizes| / parts;
    if allowEmpty && |batchSizes| % parts > 0 {
      nGlobalBatches := nGlobalBatches + 1;
    }
    outSamples, outBatchSizes := [], [];
    for i := 0 to nGlobalBatches
      invariant |outBatchSizes| == if i < mine then i else mine
      invariant DealtSoFar(outSamples, outBatchSizes, batchSizes, batchOffsets, id, parts)
    {
      var index := Integers.Times(i, parts) + id;
      assert index == Turn(i, parts, id);
      TurnsAre(|batchSizes|, id, parts, allowEmpty, i);
      if index < |batchSizes| {
        var samples := Listed(batchSizes[index], batchOffsets[index]);
        DealtMore(outSamples, outBatchSizes, batchSizes, batchOffsets, id, parts);
        outBatchSizes := outBatchSizes + [batchSizes[index]];
        outSamples := outSamples + samples;
      }
    }
    forall k: nat ensures k < mine <==> Turn(k, parts, id) < |batchSizes| && (allowEmpty || k < |batchSizes| / parts) {
      TurnsAre(|batchSizes|, id, parts, allowEmpty, k);
    }
    if outBatchSizes != [] {
      assert Turn(0, parts, id) == id;
      assert Piece(outSamples, outBatchSizes, 0, batchSizes[id], batchOffsets[id]);
      assert Sum(outBatchSizes, 0) == 0 && Sum(outBatchSizes, 1) == batchSizes[id];
    }
  }

  method Listed(size: nat, offset: nat) returns (samples: seq<int>)
    ensures samples == Integers.Range(offset, offset + size)
  {
    samples := [];
    for b := 0 to size
      invariant samples == Integers.Range(offset, offset + b)
    {
      samples := samples + [b + offset];
    }
  }

  /** Each batch has its turn with exactly one partition. */
  lemma {:induction false} TurnsOnce(j: nat, parts: nat, a: nat, k: nat)
    requires a < parts
    ensures Turn(k, parts, a) == j <==> a == j % parts && k == j / parts
  {
    Partition.DivideBack(j, parts);
    TimesSwap(k, parts);
    TimesSwap(j / parts, parts);
    if k < j / parts {
      TimesGrow(parts, k + 1, j / parts);
    } else if k > j / parts {
      TimesGrow(parts, j / parts + 1, k);
    }
  }

  datatype Outcome = Batches(samples: seq<int>, sizes: seq<nat>) | BadPartition | Failed(why: Packing)

  /** Dynamic batching: packing, then dealing out. */
  method DynamicPartitionByRoundRobin(samplesSize: seq<real>, partitionId: int, numPartitions: int,
      maxSizePerBatch: int, allowEmpty: bool)
    returns (r: Outcome)
    ensures r.BadPartition? <==> partitionId < 0 || partitionId >= numPartitions
    ensures r.Failed? ==> !r.why.Packed? && IsPacking(samplesSize, maxSizePerBatch, r.why)
    ensures r.Batches? ==> exists packing: Packing ::
      && packing.Packed? && IsPacking(samplesSize, maxSizePerBatch, packing)
      && DealtOut(r.samples, r.sizes, packing.sizes, packing.offsets, partitionId, numPartitions, allowEmpty)
  {
    if partitionId < 0 || partitionId >= numPartitions {
      return BadPartition;
    }
    var packing := Pack(samplesSize, maxSizePerBatch);
    if packing.Packed? {
      var outSamples, outBatchSizes := Deal(packing.sizes, packing.offsets, partitionId, numPartitions, allowEmpty);
      r := Batches(outSamples, outBatchSizes);
    } else {
      r := Failed(packing);
    }
  }
}

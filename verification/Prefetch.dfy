/**
 The prefetching data set of flashlight/fl/dataset/PrefetchDataset.cpp. The underlying data
 set answers the same way every time it is asked, so a prefetched sample is the sample; the
 indexes it is asked for are recorded.
 */
module Prefetch {
  import opened Integers
  import opened Options

  class PrefetchDataset<T> {
    const dataset: seq<T>
    const numThreads: nat
    const prefetchSize: nat
    var cache: seq<T>
    var curIdx: int
    ghost var fetches: seq<int>

    /** Cache slot k holds sample curIdx + k. */
    ghost predicate Valid()
      reads this
    {
      && (numThreads > 0 <==> prefetchSize > 0)
      && |cache| <= prefetchSize
      && (cache != [] ==> 0 <= curIdx && curIdx + |cache| <= |dataset| && cache == dataset[curIdx..curIdx + |cache|])
    }

    constructor (dataset: seq<T>, numThreads: nat, prefetchSize: nat)
      requires numThreads > 0 <==> prefetchSize > 0
      ensures Valid() && this.dataset == dataset && this.numThreads == numThreads && this.prefetchSize == prefetchSize
      ensures cache == [] && curIdx == -1 && fetches == []
    {
      this.dataset, this.numThreads, this.prefetchSize := dataset, numThreads, prefetchSize;
      cache, curIdx, fetches := [], -1, [];
    }

    /** The samples of the cache that a request for idx can still use. */
    ghost function Usable(idx: int): nat
      reads this
    {
      if curIdx <= idx < curIdx + |cache| then curIdx + |cache| - idx else 0
    }

    /** Samples before idx are thrown away; if idx is not among them, everything is. */
    method Discard(idx: int)
      requires Valid() && 0 <= idx < |dataset|
      modifies this`cache, this`curIdx
      ensures |cache| == old(Usable(idx)) && |cache| <= prefetchSize
      ensures idx + |cache| <= |dataset| && cache == dataset[idx..idx + |cache|]
    {
      while cache != [] && idx != curIdx
        invariant Valid() && |cache| <= |old(cache)|
        invariant curIdx + |cache| == old(curIdx + |cache|)
        invariant old(curIdx) <= curIdx
        invariant old(curIdx) <= idx < old(curIdx) + |old(cache)| ==> curIdx <= idx
        decreases |cache|
      {
        cache := cache[1..];
        curIdx := curIdx + 1;
      }
    }

    /** The cache is filled up with the samples that follow. */
    method Fill(idx: int)
      requires 0 <= idx < |dataset| && |cache| <= prefetchSize
      requires idx + |cache| <= |dataset| && cache == dataset[idx..idx + |cache|]
      modifies this`cache, this`fetches
      ensures idx + |old(cache)| <= Min(idx + prefetchSize, |dataset|)
      ensures cache == dataset[idx..Min(idx + prefetchSize, |dataset|)]
      ensures fetches == old(fetches) + Range(idx + |old(cache)|, Min(idx + prefetchSize, |dataset|))
    {
      while |cache| < prefetchSize
        invariant |old(cache)| <= |cache| <= prefetchSize
        invariant idx + |cache| <= |dataset| && cache == dataset[idx..idx + |cache|]
        invariant fetches == old(fetches) + Range(idx + |old(cache)|, idx + |cache|)
      {
        var fetchIdx := idx + |cache|;
        if fetchIdx >= |dataset| {
          break;
        }
        cache := cache + [dataset[fetchIdx]];
        fetches := fetches + [fetchIdx];
      }
    }

    /** Returns the sample of the underlying data set, whatever was requested before. */
    method Get(idx: int) returns (r: Option<T>)
      requires Valid()
      modifies this
      ensures Valid()
      ensures r == if 0 <= idx < |dataset| then Some(dataset[idx]) else None
      ensures r.None? ==> cache == old(cache) && curIdx == old(curIdx) && fetches == old(fetches)
      ensures r.Some? && numThreads == 0 ==>
        fetches == old(fetches) + [idx] && cache == old(cache) && curIdx == old(curIdx)
      ensures r.Some? && numThreads > 0 ==>
        && curIdx == idx + 1
        && cache == dataset[idx + 1..Min(idx + prefetchSize, |dataset|)]
        && idx + old(Usable(idx)) <= Min(idx + prefetchSize, |dataset|)
        && fetches == old(fetches) + Range(idx + old(Usable(idx)), Min(idx + prefetchSize, |dataset|))
    {
      if idx < 0 || idx >= |dataset| {
        return None;
      }
      if numThreads == 0 {
        fetches := fetches + [idx];
        return Some(dataset[idx]);
      }
      Discard(idx);
      Fill(idx);
      var curSample := cache[0];
      cache := cache[1..];
      curIdx := idx + 1;
      return Some(curSample);
    }
  }

  /** Threads and prefetch size must both be positive or both be zero. */
  method Create<T>(dataset: seq<T>, numThreads: int, prefetchSize: int) returns (r: Option<PrefetchDataset<T>>)
    ensures r.Some? <==> (numThreads > 0 && prefetchSize > 0) || (numThreads == 0 && prefetchSize == 0)
    ensures r.Some? ==> fresh(r.value) && r.value.Valid() && r.value.dataset == dataset && InStep(r.value, 0)
  {
    if !(numThreads > 0 && prefetchSize > 0) && !(numThreads == 0 && prefetchSize == 0) {
      return None;
    }
    var d := new PrefetchDataset(dataset, numThreads, prefetchSize);
    return Some(d);
  }

  /** What has been fetched when samples 0 up to i have been requested in order. */
  ghost predicate InStep<T>(d: PrefetchDataset<T>, i: nat)
    reads d
    requires i <= |d.dataset|
  {
    && d.Valid()
    && if d.numThreads == 0 then d.fetches == Range(0, i)
       else if i == 0 then d.cache == [] && d.curIdx == -1 && d.fetches == []
       else
         && d.curIdx == i && i + |d.cache| == Min(i - 1 + d.prefetchSize, |d.dataset|)
         && d.fetches == Range(0, i + |d.cache|)
  }

  method Request<T>(d: PrefetchDataset<T>, i: nat) returns (sample: T)
    requires i < |d.dataset| && InStep(d, i)
    modifies d
    ensures InStep(d, i + 1) && sample == d.dataset[i]
  {
    ghost var p, n := d.prefetchSize, |d.dataset|;
    var r := d.Get(i);
    sample := r.value;
    if d.numThreads > 0 {
      RangeSplit(0, i + old(d.Usable(i)), Min(i + p, n));
    }
  }

  /** A pass over a fresh prefetcher in order fetches every sample exactly once, in order. */
  method SequentialPass<T>(dataset: seq<T>, numThreads: nat, prefetchSize: nat)
    returns (d: PrefetchDataset<T>, samples: seq<T>)
    requires numThreads > 0 <==> prefetchSize > 0
    ensures samples == dataset && d.dataset == dataset && d.fetches == Range(0, |dataset|)
  {
    d := new PrefetchDataset(dataset, numThreads, prefetchSize);
    samples := [];
    for i := 0 to |dataset|
      invariant InStep(d, i) && d.dataset == dataset && d.numThreads == numThreads
      invariant fresh(d) && samples == dataset[..i]
    {
      var sample := Request(d, i);
      samples := samples + [sample];
    }
  }
}

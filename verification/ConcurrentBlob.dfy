/**
 Concurrent calls of BlobDataset::add(sample) in flashlight/fl/dataset/BlobDataset.cpp: each
 call reserves entries and byte ranges in one atomic step, under the mutex, and then writes
 its arrays one by one, each write atomic under the byte store's own mutex. Any number of
 calls are interleaved in any order.
 */
module ConcurrentBlob {
  import opened Blob
  import opened BlobStore
  import opened Bytes

  /** One call: its sample, where it was placed, its first table entry, and how many arrays it has written. */
  datatype Call = Call(sample: seq<Array>, base: int, first: nat, written: nat)

  /** The data set, its calls in the order of their reservations, and the index before and after each of those. */
  datatype State = State(data: seq<Byte>, index: Index, calls: seq<Call>, history: seq<Index>)

  // ---------------------------------------------------------------- steps

  ghost predicate Init(s: State) {
    WellFormed(s.data, s.index) && s.calls == [] && s.history == [s.index]
  }

  ghost predicate Reservation(s: State, t: State, sample: seq<Array>) {
    && (forall i | 0 <= i < |sample| :: Sound(sample[i]))
    && Reserves(s.index, t.index, sample)
    && t.data == s.data
    && t.calls == s.calls + [Call(sample, s.index.offset, EntryCount(s.index.table), 0)]
    && t.history == s.history + [t.index]
  }

  ghost predicate Writes(s: State, t: State, j: nat) {
    && j < |s.calls|
    && var c := s.calls[j];
    && c.written < |c.sample| && c.first + c.written < EntryCount(s.index.table)
    && var e := EntryAt(s.index.table, c.first + c.written);
    && 0 <= e.offset
    && t.data == Overwrite(s.data, e.offset, c.sample[c.written].bytes)
    && t.calls == s.calls[j := c.(written := c.written + 1)]
    && t.index == s.index && t.history == s.history
  }

  ghost predicate Next(s: State, t: State) {
    (exists sample :: Reservation(s, t, sample)) || (exists j: nat :: Writes(s, t, j))
  }

  ghost predicate Run(run: seq<State>) {
    && run != []
    && Init(run[0])
    && forall k | 0 < k < |run| :: Next(run[k - 1], run[k])
  }

  // ---------------------------------------------------------------- the invariant

  ghost function End(c: Call): int {
    c.base + Total(c.sample, |c.sample|)
  }

  /** The call's entries are in the table and its bytes below the index. */
  ghost predicate Placed(index: Index, c: Call) {
    && HEADER <= c.base && End(c) <= index.offset
    && c.written <= |c.sample| && c.first + |c.sample| <= EntryCount(index.table)
    && (forall i | 0 <= i < |c.sample| :: Sound(c.sample[i]))
    && forall k | c.first <= k < c.first + |c.sample| ::
      EntryAt(index.table, k) == Reserved(c.sample, c.base, k - c.first)
  }

  ghost predicate InOrder(calls: seq<Call>) {
    forall i, j | 0 <= i < j < |calls| :: End(calls[i]) <= calls[j].base
  }

  /** The indexes before and after each reservation. */
  ghost predicate Chained(s: State) {
    && |s.history| == |s.calls| + 1
    && s.history[|s.calls|] == s.index
    && forall k | 0 <= k < |s.calls| ::
        && Reserves(s.history[k], s.history[k + 1], s.calls[k].sample)
        && s.calls[k].base == s.history[k].offset
  }

  ghost predicate Invariant(s: State, data: seq<Byte>, index: Index) {
    && WellFormed(data, index)
    && |s.index.table| % FIELDS == 0 && index.offset <= s.index.offset
    && Chained(s) && s.history[0] == index
    && (forall j | 0 <= j < |s.calls| :: Placed(s.index, s.calls[j]) && index.offset <= s.calls[j].base)
    && InOrder(s.calls)
    && Keeps(HEADER, index.offset, data, s.data)
    && forall j | 0 <= j < |s.calls| :: Stored(s.data, s.calls[j].sample, s.calls[j].base, s.calls[j].written)
  }

  lemma {:induction false} InitEstablishes(s: State)
    requires Init(s)
    ensures Invariant(s, s.data, s.index)
  {
  }

  lemma {:induction false} PlacedStays(x: Index, y: Index, sample: seq<Array>, c: Call)
    requires Reserves(x, y, sample) && Placed(x, c)
    ensures Placed(y, c)
  {
  }

  lemma {:induction false} ReservationChains(s: State, t: State, sample: seq<Array>)
    requires Chained(s) && Reservation(s, t, sample)
    ensures Chained(t) && t.history[0] == s.history[0]
  {
    forall k | 0 <= k < |t.calls|
      ensures Reserves(t.history[k], t.history[k + 1], t.calls[k].sample) && t.calls[k].base == t.history[k].offset
    {
      if k < |s.calls| {
        assert t.calls[k] == s.calls[k] && t.history[k] == s.history[k] && t.history[k + 1] == s.history[k + 1];
      }
    }
  }

  lemma {:induction false} ReservationKeeps(s: State, t: State, sample: seq<Array>, data: seq<Byte>, index: Index)
    requires Invariant(s, data, index) && Reservation(s, t, sample)
    ensures Invariant(t, data, index)
  {
    ReservationChains(s, t, sample);
    forall j | 0 <= j < |t.calls| ensures Placed(t.index, t.calls[j]) && index.offset <= t.calls[j].base {
      if j < |s.calls| {
        PlacedStays(s.index, t.index, sample, s.calls[j]);
      }
    }
  }

  /** A write by call j into its own range. */
  lemma {:induction false} WriteOffset(s: State, t: State, j: nat, data: seq<Byte>, index: Index) returns (offset: nat)
    requires Invariant(s, data, index) && Writes(s, t, j)
    ensures var c := s.calls[j];
      && offset == c.base + Total(c.sample, c.written)
      && c.base <= offset && offset + |c.sample[c.written].bytes| <= End(c)
      && t.data == Overwrite(s.data, offset, c.sample[c.written].bytes)
  {
    var c := s.calls[j];
    offset := EntryAt(s.index.table, c.first + c.written).offset;
    assert c.first <= c.first + c.written < c.first + |c.sample|;
    PlacesInOrder(c.sample, c.written, |c.sample|);
  }

  lemma {:induction false} StoredElsewhere(data: seq<Byte>, c: Call, offset: nat, bs: seq<Byte>, n: nat)
    requires n <= |c.sample| && Stored(data, c.sample, c.base, n)
    requires End(c) <= offset || offset + |bs| <= c.base
    ensures Stored(Overwrite(data, offset, bs), c.sample, c.base, n)
  {
    forall i: nat | i < n ensures StoredAt(Overwrite(data, offset, bs), c.sample, c.base, i) {
      PlacesInOrder(c.sample, i, |c.sample|);
      assert StoredAt(data, c.sample, c.base, i);
      OverwriteKeeps(data, offset, bs, c.base + Total(c.sample, i), c.sample[i].bytes);
    }
  }

  lemma {:induction false} WriteKeepsStored(s: State, t: State, j: nat, data: seq<Byte>, index: Index, i: nat)
    requires Invariant(s, data, index) && Writes(s, t, j) && i < |s.calls|
    ensures Stored(t.data, t.calls[i].sample, t.calls[i].base, t.calls[i].written)
  {
    var offset := WriteOffset(s, t, j, data, index);
    var c := s.calls[i];
    if i == j {
      StoredNext(s.data, c.sample, c.base, c.written);
    } else {
      StoredElsewhere(s.data, c, offset, s.calls[j].sample[s.calls[j].written].bytes, c.written);
    }
  }

  /** A write moves no call. */
  lemma {:induction false} WriteMovesNothing(s: State, t: State, j: nat, i: nat)
    requires Writes(s, t, j) && i < |s.calls|
    ensures |t.calls| == |s.calls| && t.calls[i].sample == s.calls[i].sample && t.calls[i].base == s.calls[i].base
    ensures End(t.calls[i]) == End(s.calls[i])
    ensures Placed(s.index, s.calls[i]) ==> Placed(t.index, t.calls[i])
  {
  }

  lemma {:induction false} WriteKeepsOrder(s: State, t: State, j: nat)
    requires Chained(s) && InOrder(s.calls) && Writes(s, t, j)
    ensures Chained(t) && InOrder(t.calls)
  {
    forall k | 0 <= k < |t.calls|
      ensures End(t.calls[k]) == End(s.calls[k]) && t.calls[k].base == s.calls[k].base
      ensures t.calls[k].sample == s.calls[k].sample
    {
      WriteMovesNothing(s, t, j, k);
    }
  }

  lemma {:induction false} WriteKeeps(s: State, t: State, j: nat, data: seq<Byte>, index: Index)
    requires Invariant(s, data, index) && Writes(s, t, j)
    ensures Invariant(t, data, index)
  {
    var offset := WriteOffset(s, t, j, data, index);
    OverwriteKeepsRange(s.data, offset, s.calls[j].sample[s.calls[j].written].bytes, HEADER, index.offset);
    KeepsBoth(HEADER, index.offset, data, s.data, t.data);
    WriteKeepsOrder(s, t, j);
    forall i | 0 <= i < |t.calls|
      ensures Placed(t.index, t.calls[i]) && index.offset <= t.calls[i].base
      ensures Stored(t.data, t.calls[i].sample, t.calls[i].base, t.calls[i].written)
    {
      WriteMovesNothing(s, t, j, i);
      WriteKeepsStored(s, t, j, data, index, i);
    }
  }

  lemma {:induction false} NextKeeps(s: State, t: State, data: seq<Byte>, index: Index)
    requires Invariant(s, data, index) && Next(s, t)
    ensures Invariant(t, data, index)
  {
    if sample :| Reservation(s, t, sample) {
      ReservationKeeps(s, t, sample, data, index);
    } else {
      var j: nat :| Writes(s, t, j);
      WriteKeeps(s, t, j, data, index);
    }
  }

  lemma {:induction false} RunsKeep(run: seq<State>, k: nat)
    requires Run(run) && k < |run|
    ensures Invariant(run[k], run[0].data, run[0].index)
  {
    if k == 0 {
      InitEstablishes(run[0]);
    } else {
      RunsKeep(run, k - 1);
      NextKeeps(run[k - 1], run[k], run[0].data, run[0].index);
    }
  }

  // ---------------------------------------------------------------- what the invariant gives

  /** Call j's sample comes after the samples there were before the run, in the order of the reservations. */
  ghost predicate Numbered(s: State, n: nat) {
    && |s.index.sizes| == |s.index.offsets| == n + |s.calls|
    && forall j | 0 <= j < |s.calls| ::
        s.index.sizes[n + j] == |s.calls[j].sample| && s.index.offsets[n + j] == s.calls[j].first
  }

  lemma {:induction false} ReservationNumbers(s: State, t: State, sample: seq<Array>, n: nat)
    requires Numbered(s, n) && Reservation(s, t, sample)
    ensures Numbered(t, n)
  {
    forall j | 0 <= j < |t.calls|
      ensures t.index.sizes[n + j] == |t.calls[j].sample| && t.index.offsets[n + j] == t.calls[j].first
    {
      if j < |s.calls| {
        assert t.calls[j] == s.calls[j];
        assert s.index.sizes[n + j] == |s.calls[j].sample| && s.index.offsets[n + j] == s.calls[j].first;
      }
    }
  }

  lemma {:induction false} WriteNumbers(s: State, t: State, j: nat, n: nat)
    requires Numbered(s, n) && Writes(s, t, j)
    ensures Numbered(t, n)
  {
  }

  lemma {:induction false} RunsNumber(run: seq<State>, k: nat)
    requires Run(run) && k < |run|
    ensures Numbered(run[k], |run[0].index.sizes|)
  {
    if k > 0 {
      RunsNumber(run, k - 1);
      var s, t, n := run[k - 1], run[k], |run[0].index.sizes|;
      assert Next(s, t);
      if sample :| Reservation(s, t, sample) {
        ReservationNumbers(s, t, sample, n);
      } else {
        var j: nat :| Writes(s, t, j);
        WriteNumbers(s, t, j, n);
      }
    }
  }

  /** Array i of call j has its bytes in [Low, High). */
  ghost function Low(s: State, j: nat, i: nat): int
    requires j < |s.calls| && i < |s.calls[j].sample|
  {
    s.calls[j].base + Total(s.calls[j].sample, i)
  }

  ghost function High(s: State, j: nat, i: nat): int
    requires j < |s.calls| && i < |s.calls[j].sample|
  {
    Low(s, j, i) + |s.calls[j].sample[i].bytes|
  }

  /** In every reachable state the reserved ranges lie above the header, below the index, and apart. */
  lemma {:induction false} RangesDisjoint(run: seq<State>, k: nat, j: nat, i: nat, m: nat, n: nat)
    requires Run(run) && k < |run|
    requires j < |run[k].calls| && i < |run[k].calls[j].sample|
    requires m < |run[k].calls| && n < |run[k].calls[m].sample|
    requires j < m || (j == m && i < n)
    ensures var s := run[k];
      HEADER <= Low(s, j, i) && High(s, j, i) <= Low(s, m, n) && High(s, m, n) <= s.index.offset
  {
    RunsKeep(run, k);
    var s := run[k];
    PlacesInOrder(s.calls[j].sample, i, |s.calls[j].sample|);
    PlacesInOrder(s.calls[m].sample, n, |s.calls[m].sample|);
    if j == m {
      PlacesInOrder(s.calls[j].sample, i, n);
    }
  }

  /** Calls are never dropped, never moved, and never write less. */
  ghost predicate Later(s: State, t: State) {
    && |s.calls| <= |t.calls|
    && forall j | 0 <= j < |s.calls| ::
        && t.calls[j].sample == s.calls[j].sample && t.calls[j].base == s.calls[j].base
        && t.calls[j].first == s.calls[j].first && s.calls[j].written <= t.calls[j].written
  }

  lemma {:induction false} RunsGoOn(run: seq<State>, k: nat, m: nat)
    requires Run(run) && k <= m < |run|
    ensures Later(run[k], run[m])
  {
    if k < m {
      RunsGoOn(run, k, m - 1);
      assert Next(run[m - 1], run[m]);
    }
  }

  /** An array written by step k reads back unchanged in every later state of the run. */
  lemma {:induction false} WrittenReadsBack(run: seq<State>, k: nat, m: nat, j: nat, i: nat)
    requires Run(run) && k <= m < |run|
    requires j < |run[k].calls| && i < run[k].calls[j].written
    ensures var c, t := run[k].calls[j], run[m];
      && i < |c.sample| && c.first + i < EntryCount(t.index.table)
      && var e := EntryAt(t.index.table, c.first + i);
      Readable(t.data, e, t.index.offset) && Load(t.data, e, t.index.offset) == Normal(c.sample[i])
  {
    RunsKeep(run, k);
    RunsKeep(run, m);
    RunsGoOn(run, k, m);
    var c, t := run[m].calls[j], run[m];
    assert StoredAt(t.data, c.sample, c.base, i);
    PlacesInOrder(c.sample, i, |c.sample|);
    ArrayLoads(t.data, c.sample[i], c.base + Total(c.sample, i), t.index.offset);
    assert c.first <= c.first + i < c.first + |c.sample|;
  }

  /** A sample whose writes are done by step k reads back unchanged, under its number, in every later state. */
  lemma {:induction false} SampleReadsBack(run: seq<State>, k: nat, m: nat, j: nat, i: nat)
    requires Run(run) && k <= m < |run|
    requires j < |run[k].calls| && run[k].calls[j].written == |run[k].calls[j].sample|
    ensures var sample, t, p := run[k].calls[j].sample, run[m], |run[0].index.sizes| + j;
      && p < |t.index.sizes| == |t.index.offsets| && t.index.sizes[p] == |sample|
      && (i < |sample| ==>
          && 0 <= t.index.offsets[p] && t.index.offsets[p] + i < EntryCount(t.index.table)
          && var e := EntryAt(t.index.table, t.index.offsets[p] + i);
          Readable(t.data, e, t.index.offset) && Load(t.data, e, t.index.offset) == Normal(sample[i]))
  {
    RunsNumber(run, m);
    RunsGoOn(run, k, m);
    if i < |run[k].calls[j].sample| {
      WrittenReadsBack(run, k, m, j, i);
    }
  }

  lemma {:induction false} PlacedCanWrite(s: State, j: nat) returns (t: State)
    requires j < |s.calls| && Placed(s.index, s.calls[j]) && s.calls[j].written < |s.calls[j].sample|
    ensures Writes(s, t, j)
  {
    var c := s.calls[j];
    var k := c.first + c.written;
    assert EntryAt(s.index.table, k) == Reserved(c.sample, c.base, c.written);
    t := State(Overwrite(s.data, EntryAt(s.index.table, k).offset, c.sample[c.written].bytes), s.index,
               s.calls[j := c.(written := c.written + 1)], s.history);
  }

  /** A call that has arrays left to write is never stuck. */
  lemma {:induction false} PendingCanWrite(run: seq<State>, k: nat, j: nat) returns (t: State)
    requires Run(run) && k < |run| && j < |run[k].calls|
    requires run[k].calls[j].written < |run[k].calls[j].sample|
    ensures Writes(run[k], t, j)
  {
    RunsKeep(run, k);
    t := PlacedCanWrite(run[k], j);
  }

  // ---------------------------------------------------------------- once all calls have returned

  ghost predicate AllReturned(s: State) {
    forall j | 0 <= j < |s.calls| :: s.calls[j].written == |s.calls[j].sample|
  }

  ghost function Added(calls: seq<Call>, n: nat): seq<seq<Array>>
    requires n <= |calls|
  {
    if n == 0 then [] else Added(calls, n - 1) + [Normals(calls[n - 1].sample)]
  }

  /** Stored arrays are inside the store. */
  lemma {:induction false} StoredFits(data: seq<Byte>, sample: seq<Array>, base: int, offset: int)
    requires Stored(data, sample, base, |sample|) && (base <= |data| || base == HEADER)
    requires offset == base + Total(sample, |sample|)
    ensures offset <= |data| || offset == HEADER
  {
    if sample != [] {
      assert StoredAt(data, sample, base, |sample| - 1);
    }
  }

  lemma {:induction false} PrefixHolds(s: State, data: seq<Byte>, index: Index, n: nat)
    requires Invariant(s, data, index) && AllReturned(s) && n <= |s.calls|
    ensures WellFormed(s.data, s.history[n])
    ensures SamplesOf(s.data, s.history[n]) == SamplesOf(data, index) + Added(s.calls, n)
  {
    if n == 0 {
      SamplesKept(data, s.data, index);
    } else {
      PrefixHolds(s, data, index, n - 1);
      var c := s.calls[n - 1];
      StoredFits(s.data, c.sample, c.base, s.history[n].offset);
      SampleAdded(s.data, s.history[n - 1], s.data, s.history[n], c.sample);
    }
  }

  /**
   However the calls interleave, once all have returned the data set holds the samples it held
   before, followed by the added ones in the order of their reservations.
   */
  lemma {:induction false} ConcurrentIsSequential(run: seq<State>, k: nat)
    requires Run(run) && k < |run| && AllReturned(run[k])
    ensures var s := run[k];
      && WellFormed(s.data, s.index)
      && SamplesOf(s.data, s.index) == SamplesOf(run[0].data, run[0].index) + Added(s.calls, |s.calls|)
  {
    RunsKeep(run, k);
    PrefixHolds(run[k], run[0].data, run[0].index, |run[k].calls|);
  }
}

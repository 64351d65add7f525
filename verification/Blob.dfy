/**
 The blob dataset of flashlight/fl/dataset/BlobDataset.cpp over the byte store of
 MemoryBlobDataset.cpp: arrays lie one after another above a 16-byte header, and an index
 says which arrays make up which sample.

 The index is kept as the source keeps it: the number of arrays of each sample, the first
 table entry of each sample, and an entry table of six integers an entry.
 */
module Blob {
  import opened Bytes
  import opened Integers

  // ---------------------------------------------------------------- arrays and entries

  const HEADER := 16
  const MAGIC := 0x31626f6c423a6c66
  const FIELDS := 6

  datatype Dims = Dims(d0: int, d1: int, d2: int, d3: int) {
    function Elements(): int {
      d0 * d1 * d2 * d3
    }
  }

  /** Bytes of one element, by ArrayFire's type code. */
  function SizeOf(kind: int): (n: nat)
    ensures n > 0
  {
    if kind in {4, 7} then 1
    else if kind in {10, 11, 12} then 2
    else if kind in {0, 5, 6} then 4
    else if kind in {1, 2, 8, 9} then 8
    else 16
  }

  function Length(kind: int, dims: Dims): (n: nat)
    ensures n > 0 <==> dims.Elements() > 0
  {
    if dims.Elements() > 0 then Area(SizeOf(kind), dims.Elements()) else 0
  }

  /** One element takes 4 bytes as f32, 8 as c32, f64, s64 or u64, 16 as c64, 1 as b8 or u8, and so on. */
  lemma {:induction false} ElementBytes()
    ensures Length(0, Dims(1, 1, 1, 1)) == 4 && Length(1, Dims(1, 1, 1, 1)) == 8 && Length(2, Dims(1, 1, 1, 1)) == 8
    ensures Length(3, Dims(1, 1, 1, 1)) == 16 && Length(4, Dims(1, 1, 1, 1)) == 1 && Length(5, Dims(1, 1, 1, 1)) == 4
    ensures Length(6, Dims(1, 1, 1, 1)) == 4 && Length(7, Dims(1, 1, 1, 1)) == 1 && Length(8, Dims(1, 1, 1, 1)) == 8
    ensures Length(9, Dims(1, 1, 1, 1)) == 8 && Length(10, Dims(1, 1, 1, 1)) == 2
    ensures Length(11, Dims(1, 1, 1, 1)) == 2 && Length(12, Dims(1, 1, 1, 1)) == 2
  {
    assert Dims(1, 1, 1, 1).Elements() == 1;
  }

  lemma {:induction false} Spread(x: int, y: int, z: int)
    ensures (x + y) * z == x * z + y * z && z * (x + y) == z * x + z * y
  {
  }

  lemma {:induction false} ProductNotNegative(a: int, b: int)
    requires a >= 0 && b >= 0
    ensures a * b >= 0
  {
  }

  lemma {:induction false} ElementsNotNegative(d0: nat, d1: nat, d2: nat, d3: nat)
    ensures Dims(d0, d1, d2, d3).Elements() >= 0
  {
    ProductNotNegative(d0, d1);
    ProductNotNegative(d0 * d1, d2);
    ProductNotNegative(d0 * d1 * d2, d3);
  }

  lemma {:induction false} LengthAdds(kind: int, d: Dims, e: Dims, sum: Dims)
    requires d.Elements() >= 0 && e.Elements() >= 0 && sum.Elements() == d.Elements() + e.Elements()
    ensures Length(kind, sum) == Length(kind, d) + Length(kind, e)
  {
    Spread(d.Elements(), e.Elements(), SizeOf(kind));
  }

  /** The length is proportional to each of the four dimensions. */
  lemma {:induction false} LengthScales(kind: int, d0: nat, d1: nat, d2: nat, d3: nat, n: nat)
    ensures Length(kind, Dims(d0 + n, d1, d2, d3))
         == Length(kind, Dims(d0, d1, d2, d3)) + Length(kind, Dims(n, d1, d2, d3))
    ensures Length(kind, Dims(d0, d1 + n, d2, d3))
         == Length(kind, Dims(d0, d1, d2, d3)) + Length(kind, Dims(d0, n, d2, d3))
    ensures Length(kind, Dims(d0, d1, d2 + n, d3))
         == Length(kind, Dims(d0, d1, d2, d3)) + Length(kind, Dims(d0, d1, n, d3))
    ensures Length(kind, Dims(d0, d1, d2, d3 + n))
         == Length(kind, Dims(d0, d1, d2, d3)) + Length(kind, Dims(d0, d1, d2, n))
  {
    var d := Dims(d0, d1, d2, d3);
    ElementsNotNegative(d0, d1, d2, d3);
    ElementsNotNegative(n, d1, d2, d3);
    ElementsNotNegative(d0, n, d2, d3);
    ElementsNotNegative(d0, d1, n, d3);
    ElementsNotNegative(d0, d1, d2, n);
    ElementsAdd(d0, d1, d2, d3, n);
    LengthAdds(kind, d, Dims(n, d1, d2, d3), Dims(d0 + n, d1, d2, d3));
    LengthAdds(kind, d, Dims(d0, n, d2, d3), Dims(d0, d1 + n, d2, d3));
    LengthAdds(kind, d, Dims(d0, d1, n, d3), Dims(d0, d1, d2 + n, d3));
    LengthAdds(kind, d, Dims(d0, d1, d2, n), Dims(d0, d1, d2, d3 + n));
  }

  lemma {:induction false} ElementsAdd(d0: nat, d1: nat, d2: nat, d3: nat, n: nat)
    ensures Dims(d0 + n, d1, d2, d3).Elements() == Dims(d0, d1, d2, d3).Elements() + Dims(n, d1, d2, d3).Elements()
    ensures Dims(d0, d1 + n, d2, d3).Elements() == Dims(d0, d1, d2, d3).Elements() + Dims(d0, n, d2, d3).Elements()
    ensures Dims(d0, d1, d2 + n, d3).Elements() == Dims(d0, d1, d2, d3).Elements() + Dims(d0, d1, n, d3).Elements()
    ensures Dims(d0, d1, d2, d3 + n).Elements() == Dims(d0, d1, d2, d3).Elements() + Dims(d0, d1, d2, n).Elements()
  {
    Spread(d0, n, d1);
    Spread(d0 * d1, n * d1, d2);
    Spread(d0 * d1 * d2, n * d1 * d2, d3);
    Spread(d1, n, d0);
    Spread(d0 * d1, d0 * n, d2);
    Spread(d0 * d1 * d2, d0 * n * d2, d3);
    Spread(d2, n, d0 * d1);
    Spread(d0 * d1 * d2, d0 * d1 * n, d3);
    Spread(d3, n, d0 * d1 * d2);
  }

  datatype Array = Array(kind: int, dims: Dims, bytes: seq<Byte>)

  /** An array's buffer is as long as its type and dimensions say. */
  predicate Sound(a: Array) {
    |a.bytes| == Length(a.kind, a.dims)
  }

  const EMPTY_ARRAY := Array(0, Dims(0, 0, 0, 0), [])

  /** What reading returns for an array: an array without elements loses its type and dimensions. */
  function Normal(a: Array): Array {
    if a.dims.Elements() > 0 then a else EMPTY_ARRAY
  }

  function Normals(sample: seq<Array>): (r: seq<Array>)
    ensures |r| == |sample|
  {
    seq(|sample|, i requires 0 <= i < |sample| => Normal(sample[i]))
  }

  datatype Entry = Entry(kind: int, dims: Dims, offset: int)

  function EntryCount(table: seq<int>): nat {
    |table| / FIELDS
  }

  function EntryAt(table: seq<int>, k: int): Entry
    requires 0 <= k < EntryCount(table)
  {
    var f := k * FIELDS;
    Entry(table[f], Dims(table[f + 1], table[f + 2], table[f + 3], table[f + 4]), table[f + 5])
  }

  function Fields(e: Entry): seq<int> {
    [e.kind, e.dims.d0, e.dims.d1, e.dims.d2, e.dims.d3, e.offset]
  }

  /** The table with one more entry: the others stay, the new one reads back. */
  lemma {:induction false} EntryAppended(table: seq<int>, e: Entry)
    requires |table| % FIELDS == 0
    ensures var longer := table + Fields(e); var n := EntryCount(table);
      && |longer| % FIELDS == 0
      && EntryCount(longer) == n + 1
      && EntryAt(longer, n) == e
      && forall k | 0 <= k < n :: EntryAt(longer, k) == EntryAt(table, k)
  {
  }

  /**
   Row j behind `start`: type, four dimensions and offset. The first array is placed at `base`, every other
   one right behind the one before.
   */
  ghost predicate RowOf(table: seq<int>, start: nat, sample: seq<Array>, j: nat, base: int)
    requires j < |sample|
  {
    var f, a := start + 6 * j, sample[j];
    && f + 6 <= |table|
    && table[f] == a.kind && table[f + 1] == a.dims.d0 && table[f + 2] == a.dims.d1
    && table[f + 3] == a.dims.d2 && table[f + 4] == a.dims.d3
    && table[f + 5] == if j == 0 then base else table[f - 1] + |sample[j - 1].bytes|
  }

  /** The table after rows for the first n arrays of a sample were appended, and where the next one would go. */
  ghost predicate Rows(before: seq<int>, table: seq<int>, sample: seq<Array>, n: nat, base: int, end: int)
    requires n <= |sample|
  {
    && before <= table && |table| == |before| + 6 * n
    && (forall j: nat | j < n :: RowOf(table, |before|, sample, j, base))
    && end == if n == 0 then base else table[|table| - 1] + |sample[n - 1].bytes|
  }

  lemma {:induction false} RowStays(table: seq<int>, more: seq<int>, start: nat, sample: seq<Array>, j: nat, base: int)
    requires j < |sample| && RowOf(table, start, sample, j, base)
    ensures RowOf(table + more, start, sample, j, base)
  {
  }

  lemma {:induction false} RowsNext(before: seq<int>, table: seq<int>, sample: seq<Array>, n: nat, base: int, end: int)
    requires n < |sample| && Rows(before, table, sample, n, base, end)
    ensures Rows(before, table + Fields(Entry(sample[n].kind, sample[n].dims, end)), sample, n + 1, base,
                 end + |sample[n].bytes|)
  {
    var more := Fields(Entry(sample[n].kind, sample[n].dims, end));
    var longer := table + more;
    forall j: nat | j < n + 1 ensures RowOf(longer, |before|, sample, j, base) {
      if j < n {
        RowStays(table, more, |before|, sample, j, base);
      } else {
        assert longer[|table| + 5] == end;
      }
    }
  }

  // ---------------------------------------------------------------- what a blob holds

  datatype Index = Index(offset: int, sizes: seq<int>, offsets: seq<int>, table: seq<int>)

  /** The entry's bytes lie above the header, below `end`, and inside the store. */
  ghost predicate Readable(data: seq<Byte>, e: Entry, end: int) {
    e.dims.Elements() > 0 ==>
      HEADER <= e.offset && e.offset + Length(e.kind, e.dims) <= end && e.offset + Length(e.kind, e.dims) <= |data|
  }

  ghost function Load(data: seq<Byte>, e: Entry, end: int): Array
    requires Readable(data, e, end)
  {
    if e.dims.Elements() > 0 then
      Array(e.kind, e.dims, data[e.offset..e.offset + Length(e.kind, e.dims)])
    else
      EMPTY_ARRAY
  }

  ghost predicate Bounded(n: nat, sizes: seq<int>, offsets: seq<int>) {
    && |sizes| == |offsets|
    && forall j | 0 <= j < |sizes| :: 0 <= sizes[j] && 0 <= offsets[j] && offsets[j] + sizes[j] <= n
  }

  ghost predicate WellFormed(data: seq<Byte>, x: Index) {
    && |x.table| % FIELDS == 0
    && Bounded(EntryCount(x.table), x.sizes, x.offsets)
    && HEADER <= x.offset
    && (x.offset <= |data| || x.offset == HEADER)
    && forall k | 0 <= k < EntryCount(x.table) :: Readable(data, EntryAt(x.table, k), x.offset)
  }

  /** Every array of the table. */
  ghost function Loaded(data: seq<Byte>, x: Index): (r: seq<Array>)
    requires WellFormed(data, x)
    ensures |r| == EntryCount(x.table)
    ensures forall k | 0 <= k < |r| :: r[k] == Load(data, EntryAt(x.table, k), x.offset)
  {
    seq(EntryCount(x.table), k requires 0 <= k < EntryCount(x.table) => Load(data, EntryAt(x.table, k), x.offset))
  }

  /** The arrays cut into samples. */
  ghost function Cut(arrays: seq<Array>, sizes: seq<int>, offsets: seq<int>): (r: seq<seq<Array>>)
    requires Bounded(|arrays|, sizes, offsets)
    ensures |r| == |sizes|
    ensures forall j | 0 <= j < |r| :: r[j] == arrays[offsets[j]..offsets[j] + sizes[j]]
  {
    seq(|sizes|, j requires 0 <= j < |sizes| => arrays[offsets[j]..offsets[j] + sizes[j]])
  }

  ghost function SamplesOf(data: seq<Byte>, x: Index): seq<seq<Array>>
    requires WellFormed(data, x)
  {
    Cut(Loaded(data, x), x.sizes, x.offsets)
  }

  // ---------------------------------------------------------------- appending

  function Shift(offsets: seq<int>, n: int): (r: seq<int>)
    ensures |r| == |offsets|
    ensures forall j | 0 <= j < |r| :: r[j] == offsets[j] + n
  {
    seq(|offsets|, j requires 0 <= j < |offsets| => offsets[j] + n)
  }

  lemma {:induction false} CutAppendedAt(a: seq<Array>, b: seq<Array>, s: seq<int>, t: seq<int>, o: seq<int>,
      p: seq<int>, j: nat)
    requires Bounded(|a|, s, o) && Bounded(|b|, t, p) && j < |s| + |t|
    ensures var size, offset := (s + t)[j], (o + Shift(p, |a|))[j];
      && 0 <= offset && 0 <= size && offset + size <= |a + b|
      && (a + b)[offset..offset + size] == (Cut(a, s, o) + Cut(b, t, p))[j]
  {
  }

  lemma {:induction false} CutAppended(a: seq<Array>, b: seq<Array>, s: seq<int>, t: seq<int>, o: seq<int>, p: seq<int>)
    requires Bounded(|a|, s, o) && Bounded(|b|, t, p)
    ensures Bounded(|a + b|, s + t, o + Shift(p, |a|))
    ensures Cut(a + b, s + t, o + Shift(p, |a|)) == Cut(a, s, o) + Cut(b, t, p)
  {
    var sizes, offsets := s + t, o + Shift(p, |a|);
    forall j | 0 <= j < |sizes|
      ensures 0 <= offsets[j] && 0 <= sizes[j] && offsets[j] + sizes[j] <= |a + b|
      ensures (a + b)[offsets[j]..offsets[j] + sizes[j]] == (Cut(a, s, o) + Cut(b, t, p))[j]
    {
      CutAppendedAt(a, b, s, t, o, p, j);
    }
  }

  lemma {:induction false} CutWhole(arrays: seq<Array>)
    ensures Bounded(|arrays|, [|arrays|], [0]) && Cut(arrays, [|arrays|], [0]) == [arrays]
  {
    assert arrays[0..|arrays|] == arrays;
  }

  /** The table of x2 starts with the entries of x1 and goes on with those that load as `more`. */
  ghost predicate Continues(x1: Index, data2: seq<Byte>, x2: Index, more: seq<Array>) {
    var n := EntryCount(x1.table);
    && |x2.table| % FIELDS == 0 && EntryCount(x2.table) == n + |more|
    && x1.offset <= x2.offset
    && (forall k | 0 <= k < n :: EntryAt(x2.table, k) == EntryAt(x1.table, k))
    && (forall k | n <= k < n + |more| ::
          && Readable(data2, EntryAt(x2.table, k), x2.offset)
          && Load(data2, EntryAt(x2.table, k), x2.offset) == more[k - n])
  }

  lemma {:induction false} LoadKept(data1: seq<Byte>, data2: seq<Byte>, e: Entry, end1: int, end2: int)
    requires Keeps(HEADER, end1, data1, data2) && end1 <= end2 && Readable(data1, e, end1)
    ensures Readable(data2, e, end2) && Load(data2, e, end2) == Load(data1, e, end1)
  {
  }

  lemma {:induction false} LoadedContinues(data1: seq<Byte>, x1: Index, data2: seq<Byte>, x2: Index, more: seq<Array>)
    requires WellFormed(data1, x1) && Keeps(HEADER, x1.offset, data1, data2) && Continues(x1, data2, x2, more)
    requires Bounded(EntryCount(x2.table), x2.sizes, x2.offsets)
    requires x2.offset <= |data2| || x2.offset == HEADER
    ensures WellFormed(data2, x2) && Loaded(data2, x2) == Loaded(data1, x1) + more
  {
    var n := EntryCount(x1.table);
    forall k | 0 <= k < n + |more|
      ensures Readable(data2, EntryAt(x2.table, k), x2.offset)
      ensures Load(data2, EntryAt(x2.table, k), x2.offset) == (Loaded(data1, x1) + more)[k]
    {
      if k < n {
        LoadKept(data1, data2, EntryAt(x1.table, k), x1.offset, x2.offset);
      }
    }
  }

  /** Appending entries and samples appends what the blob holds. */
  lemma {:induction false} Appended(data1: seq<Byte>, x1: Index, data2: seq<Byte>, x2: Index,
      more: seq<Array>, sizes: seq<int>, offsets: seq<int>)
    requires WellFormed(data1, x1) && Keeps(HEADER, x1.offset, data1, data2) && Continues(x1, data2, x2, more)
    requires x2.offset <= |data2| || x2.offset == HEADER
    requires Bounded(|more|, sizes, offsets)
    requires x2.sizes == x1.sizes + sizes
    requires x2.offsets == x1.offsets + Shift(offsets, EntryCount(x1.table))
    ensures WellFormed(data2, x2)
    ensures SamplesOf(data2, x2) == SamplesOf(data1, x1) + Cut(more, sizes, offsets)
  {
    CutAppended(Loaded(data1, x1), more, x1.sizes, sizes, x1.offsets, offsets);
    LoadedContinues(data1, x1, data2, x2, more);
  }

  // ---------------------------------------------------------------- reserving and writing a sample

  /** Bytes taken by the first n arrays of a sample. */
  ghost function Total(sample: seq<Array>, n: nat): nat
    requires n <= |sample|
  {
    if n == 0 then 0 else Total(sample, n - 1) + |sample[n - 1].bytes|
  }

  lemma {:induction false} TotalGrows(sample: seq<Array>, m: nat, n: nat)
    requires m <= n <= |sample|
    ensures Total(sample, m) <= Total(sample, n)
  {
    if m < n {
      TotalGrows(sample, m, n - 1);
    }
  }

  /** The entry reserved for array i of a sample placed at `base`. */
  ghost function Reserved(sample: seq<Array>, base: int, i: nat): Entry
    requires i < |sample|
  {
    Entry(sample[i].kind, sample[i].dims, base + Total(sample, i))
  }

  /** Array i lies where it was reserved. */
  ghost predicate StoredAt(data: seq<Byte>, sample: seq<Array>, base: int, i: nat)
    requires i < |sample|
  {
    At(data, base + Total(sample, i), sample[i].bytes)
  }

  ghost predicate Stored(data: seq<Byte>, sample: seq<Array>, base: int, n: nat)
    requires n <= |sample|
  {
    forall i: nat | i < n :: StoredAt(data, sample, base, i)
  }

  /** Later arrays start where earlier ones have ended. */
  lemma {:induction false} PlacesInOrder(sample: seq<Array>, i: nat, n: nat)
    requires i < n <= |sample|
    ensures Total(sample, i) + |sample[i].bytes| <= Total(sample, n)
  {
    TotalGrows(sample, i + 1, n);
  }

  lemma {:induction false} StoredKept(data: seq<Byte>, sample: seq<Array>, base: nat, i: nat, n: nat)
    requires i < n < |sample| && StoredAt(data, sample, base, i)
    ensures StoredAt(Overwrite(data, base + Total(sample, n), sample[n].bytes), sample, base, i)
  {
    PlacesInOrder(sample, i, n);
    OverwriteKeeps(data, base + Total(sample, n), sample[n].bytes, base + Total(sample, i), sample[i].bytes);
  }

  /** Writing the next array of a sample leaves the earlier ones in place. */
  lemma {:induction false} StoredNext(data: seq<Byte>, sample: seq<Array>, base: nat, n: nat)
    requires n < |sample| && Stored(data, sample, base, n)
    ensures Stored(Overwrite(data, base + Total(sample, n), sample[n].bytes), sample, base, n + 1)
  {
    var after := Overwrite(data, base + Total(sample, n), sample[n].bytes);
    forall i: nat | i < n + 1 ensures StoredAt(after, sample, base, i) {
      if i < n {
        StoredKept(data, sample, base, i, n);
      }
    }
  }

  lemma {:induction false} ArrayLoads(data: seq<Byte>, a: Array, offset: int, end: int)
    requires Sound(a) && At(data, offset, a.bytes) && HEADER <= offset && offset + |a.bytes| <= end
    ensures var e := Entry(a.kind, a.dims, offset);
      Readable(data, e, end) && Load(data, e, end) == Normal(a)
  {
  }

  lemma {:induction false} StoredLoads(data: seq<Byte>, sample: seq<Array>, base: nat, i: nat, end: int)
    requires i < |sample| && HEADER <= base && Sound(sample[i]) && StoredAt(data, sample, base, i)
    requires end == base + Total(sample, |sample|)
    ensures Readable(data, Reserved(sample, base, i), end)
    ensures Load(data, Reserved(sample, base, i), end) == Normal(sample[i])
  {
    PlacesInOrder(sample, i, |sample|);
    ArrayLoads(data, sample[i], base + Total(sample, i), end);
  }

  /** The index after reserving a sample. */
  ghost predicate Reserves(x1: Index, x2: Index, sample: seq<Array>) {
    var n := EntryCount(x1.table);
    && x2.offset == x1.offset + Total(sample, |sample|)
    && x2.sizes == x1.sizes + [|sample|]
    && x2.offsets == x1.offsets + [n]
    && |x2.table| % FIELDS == 0 && EntryCount(x2.table) == n + |sample|
    && (forall k | 0 <= k < n :: EntryAt(x2.table, k) == EntryAt(x1.table, k))
    && (forall k | n <= k < n + |sample| :: EntryAt(x2.table, k) == Reserved(sample, x1.offset, k - n))
  }

  lemma {:induction false} ReservesContinues(x1: Index, data2: seq<Byte>, x2: Index, sample: seq<Array>)
    requires HEADER <= x1.offset && Reserves(x1, x2, sample) && Stored(data2, sample, x1.offset, |sample|)
    requires forall i | 0 <= i < |sample| :: Sound(sample[i])
    ensures Continues(x1, data2, x2, Normals(sample))
  {
    var n := EntryCount(x1.table);
    forall k | n <= k < n + |sample|
      ensures Readable(data2, EntryAt(x2.table, k), x2.offset)
      ensures Load(data2, EntryAt(x2.table, k), x2.offset) == Normals(sample)[k - n]
    {
      StoredLoads(data2, sample, x1.offset, k - n, x2.offset);
    }
  }

  lemma {:induction false} SampleAdded(data1: seq<Byte>, x1: Index, data2: seq<Byte>, x2: Index, sample: seq<Array>)
    requires WellFormed(data1, x1) && Keeps(HEADER, x1.offset, data1, data2)
    requires forall i | 0 <= i < |sample| :: Sound(sample[i])
    requires Reserves(x1, x2, sample) && Stored(data2, sample, x1.offset, |sample|)
    requires x2.offset <= |data2| || x2.offset == HEADER
    ensures WellFormed(data2, x2)
    ensures SamplesOf(data2, x2) == SamplesOf(data1, x1) + [Normals(sample)]
  {
    ReservesContinues(x1, data2, x2, sample);
    Appended(data1, x1, data2, x2, Normals(sample), [|sample|], [0]);
    CutWhole(Normals(sample));
  }

  // ---------------------------------------------------------------- adding another blob

  function Moved(e: Entry, shift: int): Entry {
    e.(offset := e.offset + shift)
  }

  /** The data part of a blob; a blob nothing was written to has none. */
  ghost function Body(data: seq<Byte>, x: Index): seq<Byte>
    requires WellFormed(data, x)
  {
    if x.offset <= |data| then data[HEADER..x.offset] else []
  }

  ghost predicate Copied(data: seq<Byte>, base: int, body: seq<Byte>) {
    body == [] || At(data, base, body)
  }

  lemma {:induction false} SliceCopied(data: seq<Byte>, lo: nat, hi: nat, copy: seq<Byte>, base: int, offset: nat,
      n: nat)
    requires lo <= offset && offset + n <= hi <= |data| && At(copy, base, data[lo..hi])
    ensures At(copy, offset + base - lo, data[offset..offset + n])
  {
    var bs := data[offset..offset + n];
    forall k | 0 <= k < n ensures copy[offset + base - lo + k] == bs[k] {
      assert copy[base..base + |data[lo..hi]|][offset - lo + k] == data[lo..hi][offset - lo + k] == data[offset + k];
    }
  }

  /** An entry of the other blob loads the same once its bytes are copied and its offset is moved. */
  lemma {:induction false} MovedLoads(data: seq<Byte>, x: Index, copy: seq<Byte>, base: int, e: Entry)
    requires WellFormed(data, x) && HEADER <= base && Copied(copy, base, Body(data, x))
    requires Readable(data, e, x.offset)
    ensures var end := base + |Body(data, x)|; var e2 := Moved(e, base - HEADER);
      Readable(copy, e2, end) && Load(copy, e2, end) == Load(data, e, x.offset)
  {
    if e.dims.Elements() > 0 {
      SliceCopied(data, HEADER, x.offset, copy, base, e.offset, Length(e.kind, e.dims));
    }
  }

  /** The index after adding another blob's samples. */
  ghost predicate Merges(x1: Index, x2: Index, other: Index, length: int) {
    var n := EntryCount(x1.table);
    && x2.offset == x1.offset + length
    && x2.sizes == x1.sizes + other.sizes
    && x2.offsets == x1.offsets + Shift(other.offsets, n)
    && |x2.table| % FIELDS == 0 && EntryCount(x2.table) == n + EntryCount(other.table)
    && (forall k | 0 <= k < n :: EntryAt(x2.table, k) == EntryAt(x1.table, k))
    && (forall k | n <= k < n + EntryCount(other.table) ::
          EntryAt(x2.table, k) == Moved(EntryAt(other.table, k - n), x1.offset - HEADER))
  }

  lemma {:induction false} BlobAdded(data1: seq<Byte>, x1: Index, data2: seq<Byte>, x2: Index, data: seq<Byte>,
      x: Index)
    requires WellFormed(data1, x1) && WellFormed(data, x) && Keeps(HEADER, x1.offset, data1, data2)
    requires Merges(x1, x2, x, |Body(data, x)|) && Copied(data2, x1.offset, Body(data, x))
    requires x2.offset <= |data2| || x2.offset == HEADER
    ensures WellFormed(data2, x2)
    ensures SamplesOf(data2, x2) == SamplesOf(data1, x1) + SamplesOf(data, x)
  {
    var n := EntryCount(x1.table);
    forall k | n <= k < n + EntryCount(x.table)
      ensures Readable(data2, EntryAt(x2.table, k), x2.offset)
      ensures Load(data2, EntryAt(x2.table, k), x2.offset) == Loaded(data, x)[k - n]
    {
      MovedLoads(data, x, data2, x1.offset, EntryAt(x.table, k - n));
    }
    assert Continues(x1, data2, x2, Loaded(data, x));
    Appended(data1, x1, data2, x2, Loaded(data, x), x.sizes, x.offsets);
  }
}

/**
 The operations of flashlight/fl/dataset/BlobDataset.cpp: adding a sample, adding another
 blob, reading samples, writing the index and reading it back.
 */
module BlobStore {
  import opened Blob
  import opened Bytes
  import opened Integers
  import opened Options

  // ---------------------------------------------------------------- the index in the store

  ghost predicate Storable(x: Index) {
    && |x.sizes| == |x.offsets| && |x.table| % FIELDS == 0 && HEADER <= x.offset
    && Fits(x.offset) && Fits(|x.sizes|) && Fits(EntryCount(x.table))
    && AllFit(x.sizes) && AllFit(x.offsets) && AllFit(x.table)
  }

  ghost function HeaderBytes(x: Index): seq<Byte>
    requires Storable(x)
  {
    ToBytes(MAGIC) + ToBytes(x.offset)
  }

  ghost function IndexBytes(x: Index): seq<Byte>
    requires Storable(x)
  {
    Five(ToBytes(|x.sizes|), ToBytes(EntryCount(x.table)), ToWords(x.sizes), ToWords(x.offsets), ToWords(x.table))
  }

  ghost function Five(a: seq<Byte>, b: seq<Byte>, c: seq<Byte>, d: seq<Byte>, e: seq<Byte>): seq<Byte> {
    a + b + c + d + e
  }

  /** The store holds this index. */
  ghost predicate Indexed(data: seq<Byte>, x: Index) {
    Storable(x) && At(data, 0, HeaderBytes(x)) && At(data, x.offset, IndexBytes(x))
  }

  /** The first eight bytes spell "fl:Blob1". */
  ghost predicate Signed(data: seq<Byte>) {
    |data| >= 8 && data[..8] == [0x66, 0x6c, 0x3a, 0x42, 0x6c, 0x6f, 0x62, 0x31]
  }

  /** The numbers vs lie one after the other from `pos` on. */
  ghost predicate WordsAt(data: seq<Byte>, pos: int, vs: seq<int>) {
    forall j | 0 <= j < |vs| :: WordAt(data, pos + 8 * j, vs[j])
  }

  /**
   The format of a blob, as its header describes it: "fl:Blob1", the position of the index, and there the
   number of samples, the number of entries, the sizes, the offsets and the entry table, all as little-endian
   64-bit integers.
   */
  ghost predicate LaidOut(data: seq<Byte>, x: Index) {
    && Signed(data)
    && WordAt(data, 8, x.offset)
    && WordAt(data, x.offset, |x.sizes|)
    && WordAt(data, x.offset + 8, |x.table| / 6)
    && WordsAt(data, x.offset + 16, x.sizes)
    && WordsAt(data, x.offset + 16 + 8 * |x.sizes|, x.offsets)
    && WordsAt(data, x.offset + 16 + 16 * |x.sizes|, x.table)
  }

  /** The numbers of the header and of the index lie at their places. */
  ghost predicate CountsAt(data: seq<Byte>, x: Index) {
    && Fits(x.offset) && Fits(|x.sizes|) && Fits(EntryCount(x.table))
    && At(data, 8, ToBytes(x.offset))
    && At(data, x.offset, ToBytes(|x.sizes|))
    && At(data, x.offset + 8, ToBytes(EntryCount(x.table)))
  }

  /** Bytes of each of the two tables with one number a sample. */
  ghost function Width(x: Index): nat {
    8 * |x.sizes|
  }

  /** The tables of the index lie at their places. */
  ghost predicate TablesAt(data: seq<Byte>, x: Index) {
    && AllFit(x.sizes) && AllFit(x.offsets) && AllFit(x.table)
    && At(data, x.offset + 16, ToWords(x.sizes))
    && At(data, x.offset + 16 + Width(x), ToWords(x.offsets))
    && At(data, x.offset + 16 + Width(x) + Width(x), ToWords(x.table))
  }

  lemma {:induction false} HeaderParts(data: seq<Byte>, x: Index)
    requires Storable(x) && At(data, 0, HeaderBytes(x))
    ensures At(data, 0, ToBytes(MAGIC)) && At(data, 8, ToBytes(x.offset))
  {
    AtBoth(data, 0, ToBytes(MAGIC), ToBytes(x.offset));
  }

  lemma {:induction false} FiveParts(data: seq<Byte>, pos: int,
      a: seq<Byte>, b: seq<Byte>, c: seq<Byte>, d: seq<Byte>, e: seq<Byte>, n: nat)
    requires At(data, pos, Five(a, b, c, d, e)) && |a| == |b| == 8 && |c| == |d| == n
    ensures At(data, pos, a) && At(data, pos + 8, b) && At(data, pos + 16, c)
    ensures At(data, pos + 16 + n, d) && At(data, pos + 16 + n + n, e)
  {
    AtFive(data, pos, a, b, c, d, e);
  }

  lemma {:induction false} BodyParts(data: seq<Byte>, x: Index)
    requires Storable(x) && At(data, x.offset, IndexBytes(x))
    ensures At(data, x.offset, ToBytes(|x.sizes|))
    ensures At(data, x.offset + 8, ToBytes(EntryCount(x.table)))
    ensures At(data, x.offset + 16, ToWords(x.sizes))
    ensures At(data, x.offset + 16 + Width(x), ToWords(x.offsets))
    ensures At(data, x.offset + 16 + Width(x) + Width(x), ToWords(x.table))
  {
    FiveParts(data, x.offset, ToBytes(|x.sizes|), ToBytes(EntryCount(x.table)),
      ToWords(x.sizes), ToWords(x.offsets), ToWords(x.table), Width(x));
  }

  lemma {:induction false} IndexCounts(data: seq<Byte>, x: Index)
    requires Indexed(data, x)
    ensures At(data, 0, ToBytes(MAGIC)) && CountsAt(data, x)
  {
    HeaderParts(data, x);
    BodyParts(data, x);
  }

  lemma {:induction false} IndexTables(data: seq<Byte>, x: Index)
    requires Indexed(data, x)
    ensures TablesAt(data, x)
  {
    BodyParts(data, x);
  }

  lemma {:induction false} SameWord(data: seq<Byte>, pos: int, v: int, w: int)
    requires Fits(v) && Fits(w) && At(data, pos, ToBytes(v)) && At(data, pos, ToBytes(w))
    ensures v == w
  {
    BytesRoundTrip(v);
    BytesRoundTrip(w);
  }

  lemma {:induction false} SameWords(data: seq<Byte>, pos: int, vs: seq<int>, ws: seq<int>)
    requires AllFit(vs) && AllFit(ws) && |vs| == |ws| && At(data, pos, ToWords(vs)) && At(data, pos, ToWords(ws))
    ensures vs == ws
  {
    WordsRoundTrip(vs);
    WordsRoundTrip(ws);
  }

  lemma {:induction false} SameCounts(data: seq<Byte>, x: Index, y: Index)
    requires CountsAt(data, x) && CountsAt(data, y)
    ensures x.offset == y.offset && |x.sizes| == |y.sizes| && EntryCount(x.table) == EntryCount(y.table)
  {
    SameWord(data, 8, x.offset, y.offset);
    SameWord(data, x.offset, |x.sizes|, |y.sizes|);
    SameWord(data, x.offset + 8, EntryCount(x.table), EntryCount(y.table));
  }

  lemma {:induction false} SameTables(data: seq<Byte>, x: Index, y: Index)
    requires TablesAt(data, x) && TablesAt(data, y) && x.offset == y.offset
    requires |x.sizes| == |y.sizes| && |x.offsets| == |y.offsets| && |x.table| == |y.table|
    ensures x == y
  {
    var w := Width(x);
    assert Width(y) == w;
    SameThree(data, x.offset + 16, x.offset + 16 + w, x.offset + 16 + w + w,
      x.sizes, x.offsets, x.table, y.sizes, y.offsets, y.table);
  }

  lemma {:induction false} SameThree(data: seq<Byte>, p: int, q: int, r: int,
      a: seq<int>, b: seq<int>, c: seq<int>, a': seq<int>, b': seq<int>, c': seq<int>)
    requires AllFit(a) && AllFit(b) && AllFit(c) && AllFit(a') && AllFit(b') && AllFit(c')
    requires |a| == |a'| && |b| == |b'| && |c| == |c'|
    requires At(data, p, ToWords(a)) && At(data, q, ToWords(b)) && At(data, r, ToWords(c))
    requires At(data, p, ToWords(a')) && At(data, q, ToWords(b')) && At(data, r, ToWords(c'))
    ensures a == a' && b == b' && c == c'
  {
    SameWords(data, p, a, a');
    SameWords(data, q, b, b');
    SameWords(data, r, c, c');
  }

  lemma {:induction false} WholeTable(table: seq<int>)
    requires |table| % FIELDS == 0
    ensures |table| == FIELDS * EntryCount(table)
  {
  }

  /** The bytes determine the index. */
  lemma {:induction false} IndexedOnce(data: seq<Byte>, x: Index, y: Index)
    requires Indexed(data, x) && Indexed(data, y)
    ensures x == y
  {
    IndexCounts(data, x);
    IndexCounts(data, y);
    SameCounts(data, x, y);
    IndexTables(data, x);
    IndexTables(data, y);
    WholeTable(x.table);
    WholeTable(y.table);
    SameTables(data, x, y);
  }

  predicate HasMagic(data: seq<Byte>) {
    FromBytes(Read(data, 0, Zeros(8))) == MAGIC
  }

  function Zeros(n: nat): (r: seq<Byte>)
    ensures |r| == n
  {
    seq(n, _ => 0)
  }

  lemma {:induction false} IndexedHasMagic(data: seq<Byte>, x: Index)
    requires Indexed(data, x)
    ensures HasMagic(data) && data != []
  {
    IndexCounts(data, x);
    ReadAt(data, 0, ToBytes(MAGIC), Zeros(8));
    BytesRoundTrip(MAGIC);
  }

  lemma {:induction false} MagicBytes()
    ensures ToBytes(MAGIC) == [0x66, 0x6c, 0x3a, 0x42, 0x6c, 0x6f, 0x62, 0x31]
  {
    var bs: seq<Byte> := [0x66, 0x6c, 0x3a, 0x42, 0x6c, 0x6f, 0x62, 0x31];
    NumberOfEight(bs);
    assert Number(bs) == 0x31626f6c423a6c66;
    NumberRoundTrip(bs);
  }

  /** The magic number is there exactly when the first eight bytes spell it. */
  lemma {:induction false} HasMagicIff(data: seq<Byte>)
    ensures HasMagic(data) <==> Signed(data)
  {
    var bs := Read(data, 0, Zeros(8));
    MagicBytes();
    BytesRoundTrip(MAGIC);
    NumberRoundTrip(bs);
    assert HasMagic(data) <==> bs == ToBytes(MAGIC);
    if |data| >= 8 {
      assert bs == data[..8];
    } else {
      assert bs[7] == 0;
    }
  }

  lemma {:induction false} TableLies(data: seq<Byte>, pos: int, vs: seq<int>)
    requires AllFit(vs) && At(data, pos, ToWords(vs))
    ensures WordsAt(data, pos, vs)
  {
    forall j | 0 <= j < |vs| ensures WordAt(data, pos + 8 * j, vs[j]) {
      WordsLie(data, pos, vs, j);
    }
  }

  lemma {:induction false} CountsLie(data: seq<Byte>, x: Index)
    requires CountsAt(data, x)
    ensures WordAt(data, 8, x.offset) && WordAt(data, x.offset, |x.sizes|)
    ensures WordAt(data, x.offset + 8, |x.table| / 6)
  {
    BytesMakeWord(data, 8, x.offset);
    BytesMakeWord(data, x.offset, |x.sizes|);
    BytesMakeWord(data, x.offset + 8, EntryCount(x.table));
  }

  lemma {:induction false} ThreeLie(data: seq<Byte>, p: int, q: int, r: int, a: seq<int>, b: seq<int>, c: seq<int>)
    requires AllFit(a) && AllFit(b) && AllFit(c)
    requires At(data, p, ToWords(a)) && At(data, q, ToWords(b)) && At(data, r, ToWords(c))
    ensures WordsAt(data, p, a) && WordsAt(data, q, b) && WordsAt(data, r, c)
  {
    TableLies(data, p, a);
    TableLies(data, q, b);
    TableLies(data, r, c);
  }

  lemma {:induction false} TablesLie(data: seq<Byte>, x: Index)
    requires TablesAt(data, x)
    ensures WordsAt(data, x.offset + 16, x.sizes)
    ensures WordsAt(data, x.offset + 16 + 8 * |x.sizes|, x.offsets)
    ensures WordsAt(data, x.offset + 16 + 16 * |x.sizes|, x.table)
  {
    var n := |x.sizes|;
    ThreeLie(data, x.offset + 16, x.offset + 16 + 8 * n, x.offset + 16 + 16 * n, x.sizes, x.offsets, x.table);
  }

  lemma {:induction false} IndexedIsLaidOut(data: seq<Byte>, x: Index)
    requires Indexed(data, x)
    ensures LaidOut(data, x)
  {
    IndexedHasMagic(data, x);
    HasMagicIff(data);
    IndexCounts(data, x);
    CountsLie(data, x);
    IndexTables(data, x);
    TablesLie(data, x);
  }

  /** The offsets in the rows are those the arrays are written to. */
  lemma {:induction false} RowOffset(table: seq<int>, start: nat, sample: seq<Array>, i: nat, base: int)
    requires i < |sample| && forall j: nat | j <= i :: RowOf(table, start, sample, j, base)
    ensures start + 6 * i + 5 < |table| && table[start + 6 * i + 5] == base + Total(sample, i)
  {
    assert RowOf(table, start, sample, i, base);
    if i > 0 {
      RowOffset(table, start, sample, i - 1, base);
    }
  }

  lemma {:induction false} StoredInRows(data: seq<Byte>, before: seq<int>, table: seq<int>, sample: seq<Array>,
      base: int, end: int)
    requires Rows(before, table, sample, |sample|, base, end) && Stored(data, sample, base, |sample|)
    ensures forall i | 0 <= i < |sample| :: At(data, table[|before| + 6 * i + 5], sample[i].bytes)
  {
    forall i | 0 <= i < |sample| ensures At(data, table[|before| + 6 * i + 5], sample[i].bytes) {
      RowOffset(table, |before|, sample, i, base);
      assert StoredAt(data, sample, base, i);
    }
  }

  /** A changed store with the same arrays holds the same samples. */
  lemma {:induction false} SamplesKept(data1: seq<Byte>, data2: seq<Byte>, x: Index)
    requires WellFormed(data1, x) && Keeps(HEADER, x.offset, data1, data2)
    ensures WellFormed(data2, x) && SamplesOf(data2, x) == SamplesOf(data1, x)
  {
    LoadedContinues(data1, x, data2, x, []);
    assert Loaded(data1, x) + [] == Loaded(data1, x);
  }

  /** Where array i of sample j comes from. */
  lemma {:induction false} SampleEntry(data: seq<Byte>, x: Index, j: nat, i: nat)
    requires WellFormed(data, x) && j < |x.sizes| && i < x.sizes[j]
    ensures |SamplesOf(data, x)| == |x.sizes| && |SamplesOf(data, x)[j]| == x.sizes[j]
    ensures 0 <= x.offsets[j] + i < EntryCount(x.table)
    ensures Readable(data, EntryAt(x.table, x.offsets[j] + i), x.offset)
    ensures SamplesOf(data, x)[j][i] == Load(data, EntryAt(x.table, x.offsets[j] + i), x.offset)
  {
  }

  /** The table and the end of the reserved bytes after the first i arrays of a sample were entered. */
  ghost predicate Entered(before: seq<int>, table: seq<int>, sample: seq<Array>, i: nat, base: int, end: int)
    requires i <= |sample|
  {
    var n := EntryCount(before);
    && end == base + Total(sample, i)
    && |table| % FIELDS == 0 && EntryCount(table) == n + i
    && (forall k | 0 <= k < n :: EntryAt(table, k) == EntryAt(before, k))
    && (forall k | n <= k < n + i :: EntryAt(table, k) == Reserved(sample, base, k - n))
    && Rows(before, table, sample, i, base, end)
  }

  lemma {:induction false} EnteredNext(before: seq<int>, table: seq<int>, sample: seq<Array>, i: nat, base: int,
      end: int)
    requires i < |sample| && Entered(before, table, sample, i, base, end)
    ensures Entered(before, table + Fields(Entry(sample[i].kind, sample[i].dims, end)), sample, i + 1, base,
                    end + |sample[i].bytes|)
  {
    EntryAppended(table, Entry(sample[i].kind, sample[i].dims, end));
    RowsNext(before, table, sample, i, base, end);
  }

  // ---------------------------------------------------------------- copying

  /** The other blob's data up to a position, or nothing when it has none. */
  ghost function Part(data: seq<Byte>, hi: int): seq<Byte> {
    if HEADER <= hi <= |data| then data[HEADER..hi] else []
  }

  /** The store after part of the other blob's data has been copied behind `base`. */
  ghost predicate CopiedUpTo(before: seq<Byte>, data: seq<Byte>, base: int, other: seq<Byte>, hi: int) {
    Keeps(HEADER, base, before, data) && Copied(data, base, Part(other, hi))
  }

  lemma {:induction false} PartGrows(other: seq<Byte>, hi: int, size: nat)
    requires HEADER <= hi && hi + size <= |other|
    ensures Part(other, hi + size) == Part(other, hi) + other[hi..hi + size]
  {
  }

  lemma {:induction false} CopyGrows(data: seq<Byte>, base: nat, part: seq<Byte>, chunk: seq<Byte>)
    requires Copied(data, base, part)
    ensures Copied(Overwrite(data, base + |part|, chunk), base, part + chunk)
  {
  }

  lemma {:induction false} ChunkCopied(before: seq<Byte>, data: seq<Byte>, base: nat, other: seq<Byte>, hi: int,
      size: nat)
    requires HEADER <= hi && hi + size <= |other| && CopiedUpTo(before, data, base, other, hi)
    ensures CopiedUpTo(before, Overwrite(data, base + hi - HEADER, other[hi..hi + size]), base, other, hi + size)
  {
    var chunk, offset := other[hi..hi + size], base + hi - HEADER;
    PartGrows(other, hi, size);
    assert offset == base + |Part(other, hi)|;
    CopyGrows(data, base, Part(other, hi), chunk);
    OverwriteKeepsRange(data, offset, chunk, HEADER, base);
    KeepsBoth(HEADER, base, before, data, Overwrite(data, offset, chunk));
  }

  lemma {:induction false} ChunksGrow(i: nat, n: nat, size: nat)
    requires i < n
    ensures Area(i + 1, size) == Area(i, size) + size && Area(i + 1, size) <= Area(n, size)
  {
    AreaNext(i, size);
    AreaGrows(i + 1, n, size);
  }

  lemma {:induction false} ChunksAndRest(total: nat, size: nat)
    requires size > 0
    ensures Area(total / size, size) <= total
    ensures total == 0 ==> Area(total / size, size) == 0 && total / size == 0
  {
  }

  // ---------------------------------------------------------------- the data set

  class BlobDataset {
    var data: seq<Byte>
    var sizes: seq<int>
    var offsets: seq<int>
    var table: seq<int>
    var indexOffset: int

    ghost function Here(): Index
      reads this
    {
      Index(indexOffset, sizes, offsets, table)
    }

    ghost predicate Valid()
      reads this
    {
      WellFormed(data, Here())
    }

    /** What the data set holds. */
    ghost function Samples(): seq<seq<Array>>
      requires Valid()
      reads this
    {
      SamplesOf(data, Here())
    }

    /** A data set over some bytes, before its index is read. */
    constructor (bytes: seq<Byte>)
      ensures data == bytes && Here() == Index(0, [], [], [])
    {
      data, sizes, offsets, table, indexOffset := bytes, [], [], [], 0;
    }

    method WriteData(offset: nat, bs: seq<Byte>) returns (n: nat)
      modifies this`data
      ensures data == Overwrite(old(data), offset, bs) && n == |bs|
    {
      data := Overwrite(data, offset, bs);
      n := |bs|;
    }

    // ---- adding a sample

    /** The locked part of add: table entries and byte ranges for every array. */
    method Reserve(sample: seq<Array>) returns (entryOffset: nat)
      requires Valid()
      modifies this`sizes, this`offsets, this`table, this`indexOffset
      ensures entryOffset == EntryCount(old(table))
      ensures Reserves(old(Here()), Here(), sample)
      ensures Rows(old(table), table, sample, |sample|, old(indexOffset), indexOffset)
    {
      ghost var base, n := indexOffset, EntryCount(table);
      entryOffset := EntryCount(table);
      offsets := offsets + [EntryCount(table)];
      sizes := sizes + [|sample|];
      for i := 0 to |sample|
        invariant sizes == old(sizes) + [|sample|] && offsets == old(offsets) + [n]
        invariant Entered(old(table), table, sample, i, base, indexOffset)
      {
        EnteredNext(old(table), table, sample, i, base, indexOffset);
        var e := Entry(sample[i].kind, sample[i].dims, indexOffset);
        indexOffset := indexOffset + |sample[i].bytes|;
        table := table + Fields(e);
      }
    }

    /** The unlocked part of add: every array is written to its range. */
    method WriteArrays(sample: seq<Array>, entryOffset: nat, ghost base: nat)
      requires HEADER <= base && EntryCount(table) == entryOffset + |sample|
      requires forall k | entryOffset <= k < entryOffset + |sample| ::
        EntryAt(table, k) == Reserved(sample, base, k - entryOffset)
      modifies this`data
      ensures Keeps(HEADER, base, old(data), data)
      ensures Stored(data, sample, base, |sample|)
      ensures |sample| > 0 ==> base + Total(sample, |sample|) <= |data|
    {
      for i := 0 to |sample|
        invariant Keeps(HEADER, base, old(data), data)
        invariant Stored(data, sample, base, i)
        invariant i > 0 ==> base + Total(sample, i) <= |data|
      {
        var e := EntryAt(table, entryOffset + i);
        ghost var before := data;
        StoredNext(data, sample, base, i);
        OverwriteKeepsRange(data, e.offset, sample[i].bytes, HEADER, base);
        var _ := WriteData(e.offset, sample[i].bytes);
        KeepsBoth(HEADER, base, old(data), before, data);
      }
    }

    method Add(sample: seq<Array>)
      requires Valid()
      requires forall i | 0 <= i < |sample| :: Sound(sample[i])
      modifies this
      ensures Valid()
      ensures Samples() == old(Samples()) + [Normals(sample)]
      ensures forall i | 0 <= i < |sample| && sample[i].dims.Elements() > 0 :: Normals(sample)[i] == sample[i]
      ensures indexOffset == old(indexOffset) + Total(sample, |sample|)
      ensures Rows(old(table), table, sample, |sample|, old(indexOffset), indexOffset)
      ensures forall i | 0 <= i < |sample| :: At(data, table[|old(table)| + 6 * i + 5], sample[i].bytes)
    {
      var entryOffset := Reserve(sample);
      WriteArrays(sample, entryOffset, old(indexOffset));
      SampleAdded(old(data), old(Here()), data, Here(), sample);
      StoredInRows(data, old(table), table, sample, old(indexOffset), indexOffset);
    }

    // ---- reading samples

    method ReadRawArray(e: Entry) returns (buffer: seq<Byte>)
      requires Readable(data, e, indexOffset)
      ensures buffer == Load(data, e, indexOffset).bytes
    {
      buffer := [];
      if e.dims.Elements() > 0 {
        buffer := Read(data, e.offset, Zeros(Length(e.kind, e.dims)));
      }
    }

    method ReadArray(e: Entry) returns (a: Array)
      requires Readable(data, e, indexOffset)
      ensures a == Load(data, e, indexOffset)
    {
      if e.dims.Elements() > 0 {
        var buffer := ReadRawArray(e);
        a := Array(e.kind, e.dims, buffer);
      } else {
        a := EMPTY_ARRAY;
      }
    }

    method Get(idx: int) returns (r: Option<seq<Array>>)
      requires Valid()
      ensures r == if 0 <= idx < |Samples()| then Some(Samples()[idx]) else None
    {
      if idx < 0 || idx >= |sizes| {
        return None;
      }
      var sample := [];
      for i := 0 to sizes[idx]
        invariant |sample| == i
        invariant forall k | 0 <= k < i :: sample[k] == Samples()[idx][k]
      {
        SampleEntry(data, Here(), idx, i);
        var a := ReadArray(EntryAt(table, offsets[idx] + i));
        sample := sample + [a];
      }
      assert sample == Samples()[idx];
      return Some(sample);
    }

    /** The buffers of a sample's arrays. */
    method RawGet(idx: int) returns (r: Option<seq<seq<Byte>>>)
      requires Valid()
      ensures r.Some? <==> 0 <= idx < |Samples()|
      ensures r.Some? ==> |r.value| == |Samples()[idx]|
      ensures r.Some? ==> forall i | 0 <= i < |r.value| :: r.value[i] == Samples()[idx][i].bytes
    {
      if idx < 0 || idx >= |sizes| {
        return None;
      }
      var sample := [];
      for i := 0 to sizes[idx]
        invariant |sample| == i
        invariant forall k | 0 <= k < i :: sample[k] == Samples()[idx][k].bytes
      {
        SampleEntry(data, Here(), idx, i);
        var buffer := ReadRawArray(EntryAt(table, offsets[idx] + i));
        sample := sample + [buffer];
      }
      return Some(sample);
    }

    // ---- adding another blob

    method ShiftedOffsets(other: BlobDataset) returns (shifted: seq<int>)
      ensures shifted == Shift(other.offsets, EntryCount(table))
    {
      shifted := other.offsets;
      for j := 0 to |shifted|
        invariant |shifted| == |other.offsets|
        invariant forall k | 0 <= k < j :: shifted[k] == other.offsets[k] + EntryCount(table)
        invariant forall k | j <= k < |shifted| :: shifted[k] == other.offsets[k]
      {
        shifted := shifted[j := shifted[j] + EntryCount(table)];
      }
    }

    /** The entries of the other blob, moved to where its data will lie. */
    method AppendEntries(other: BlobDataset)
      requires other != this && |table| % FIELDS == 0
      modifies this`table
      ensures var n, m := EntryCount(old(table)), EntryCount(other.table);
        && |table| % FIELDS == 0 && EntryCount(table) == n + m
        && (forall k | 0 <= k < n :: EntryAt(table, k) == EntryAt(old(table), k))
        && (forall k | n <= k < n + m :: EntryAt(table, k) == Moved(EntryAt(other.table, k - n), indexOffset - HEADER))
    {
      ghost var n := EntryCount(table);
      for i := 0 to EntryCount(other.table)
        invariant |table| % FIELDS == 0 && EntryCount(table) == n + i
        invariant forall k | 0 <= k < n :: EntryAt(table, k) == EntryAt(old(table), k)
        invariant forall k | n <= k < n + i ::
          EntryAt(table, k) == Moved(EntryAt(other.table, k - n), indexOffset - HEADER)
      {
        var e := EntryAt(other.table, i);
        e := e.(offset := e.offset + (indexOffset - HEADER));
        EntryAppended(table, e);
        table := table + Fields(e);
      }
    }

    method CopyChunk(other: BlobDataset, blobOffset: nat, size: nat, ghost before: seq<Byte>, ghost base: nat)
      requires other != this && HEADER <= blobOffset && blobOffset + size <= |other.data|
      requires indexOffset == base + blobOffset - HEADER
      requires CopiedUpTo(before, data, base, other.data, blobOffset)
      modifies this`data, this`indexOffset
      ensures indexOffset == old(indexOffset) + size && indexOffset <= |data|
      ensures CopiedUpTo(before, data, base, other.data, blobOffset + size)
    {
      var buffer := Read(other.data, blobOffset, Zeros(size));
      ChunkCopied(before, data, base, other.data, blobOffset, size);
      var _ := WriteData(indexOffset, buffer);
      indexOffset := indexOffset + size;
    }

    /** Chunk by chunk, the other blob's data is copied behind this one's. */
    method CopyChunks(other: BlobDataset, nChunk: nat, chunkSize: nat, ghost before: seq<Byte>, ghost base: nat)
      returns (blobOffset: nat)
      requires other != this && (nChunk == 0 || HEADER + Area(nChunk, chunkSize) <= |other.data|)
      requires indexOffset == base && CopiedUpTo(before, data, base, other.data, HEADER)
      requires base <= |data| || base == HEADER
      modifies this`data, this`indexOffset
      ensures blobOffset == HEADER + Area(nChunk, chunkSize)
      ensures indexOffset == base + Area(nChunk, chunkSize)
      ensures CopiedUpTo(before, data, base, other.data, blobOffset)
      ensures indexOffset <= |data| || indexOffset == HEADER
    {
      blobOffset := HEADER;
      for i := 0 to nChunk
        invariant blobOffset == HEADER + Area(i, chunkSize)
        invariant indexOffset == base + Area(i, chunkSize)
        invariant CopiedUpTo(before, data, base, other.data, blobOffset)
        invariant indexOffset <= |data| || indexOffset == HEADER
      {
        ChunksGrow(i, nChunk, chunkSize);
        CopyChunk(other, blobOffset, chunkSize, before, base);
        blobOffset := blobOffset + chunkSize;
      }
    }

    method CopyData(other: BlobDataset, chunkSize: int)
      requires other != this && other.Valid() && chunkSize > 0
      requires HEADER <= indexOffset && (indexOffset <= |data| || indexOffset == HEADER)
      modifies this`data, this`indexOffset
      ensures Keeps(HEADER, old(indexOffset), old(data), data)
      ensures Copied(data, old(indexOffset), Body(other.data, other.Here()))
      ensures indexOffset == old(indexOffset) + |Body(other.data, other.Here())|
      ensures indexOffset <= |data| || indexOffset == HEADER
    {
      ghost var before, base := data, indexOffset;
      var copySize := other.indexOffset - HEADER;
      var nChunk := copySize / chunkSize;
      var remainCopySize := copySize - Area(nChunk, chunkSize);
      ChunksAndRest(copySize, chunkSize);
      var blobOffset := CopyChunks(other, nChunk, chunkSize, before, base);
      if remainCopySize > 0 {
        CopyChunk(other, blobOffset, remainCopySize, before, base);
      }
    }

    /** Adds all samples of another blob; a chunk size that is not positive is an error. */
    method AddBlob(other: BlobDataset, chunkSize: int) returns (ok: bool)
      requires other != this && Valid() && other.Valid()
      modifies this
      ensures Valid() && ok == (chunkSize > 0)
      ensures Samples() == if ok then old(Samples()) + other.Samples() else old(Samples())
      ensures !ok ==> unchanged(this)
      ensures ok ==> indexOffset == old(indexOffset) + other.indexOffset - 16
      ensures ok && other.indexOffset > 16 ==>
        && indexOffset <= |data| && other.indexOffset <= |other.data|
        && data[old(indexOffset)..indexOffset] == other.data[16..other.indexOffset]
    {
      if chunkSize <= 0 {
        return false;
      }
      ghost var x1 := Here();
      var shifted := ShiftedOffsets(other);
      sizes := sizes + other.sizes;
      offsets := offsets + shifted;
      AppendEntries(other);
      CopyData(other, chunkSize);
      BlobAdded(old(data), x1, data, Here(), other.data, other.Here());
      return true;
    }

    // ---- the index

    method WriteHeader()
      requires HEADER <= indexOffset && Fits(indexOffset)
      modifies this`data
      ensures At(data, 0, ToBytes(MAGIC) + ToBytes(indexOffset))
      ensures Keeps(HEADER, indexOffset, old(data), data)
    {
      var offset := 0;
      OverwriteKeepsRange(data, 0, ToBytes(MAGIC), HEADER, indexOffset);
      var n := WriteData(offset, ToBytes(MAGIC));
      ghost var half := data;
      offset := offset + n;
      OverwriteKeepsRange(data, 8, ToBytes(indexOffset), HEADER, indexOffset);
      OverwriteNext(data, 0, ToBytes(MAGIC), ToBytes(indexOffset));
      var _ := WriteData(offset, ToBytes(indexOffset));
      KeepsBoth(HEADER, indexOffset, old(data), half, data);
    }

    /** One piece of the index, right behind those already written. */
    method WritePiece(offset: nat, piece: seq<Byte>, ghost start: nat, ghost written: seq<Byte>) returns (next: nat)
      requires HEADER <= start && offset == start + |written| && (written == [] || At(data, start, written))
      modifies this`data
      ensures next == offset + |piece|
      ensures At(data, start, written + piece)
      ensures Keeps(0, start, old(data), data)
    {
      OverwriteKeepsRange(data, offset, piece, 0, start);
      if written == [] {
        assert written + piece == piece;
      } else {
        OverwriteNext(data, start, written, piece);
      }
      var n := WriteData(offset, piece);
      next := offset + n;
    }

    method WriteTables()
      requires Storable(Here())
      modifies this`data
      ensures At(data, indexOffset, IndexBytes(Here()))
      ensures Keeps(0, indexOffset, old(data), data)
    {
      var offset := indexOffset;
      ghost var was, written := data, [];
      offset := WritePiece(offset, ToBytes(|sizes|), indexOffset, []);
      written := ToBytes(|sizes|);
      assert [] + written == written;
      KeepsBoth(0, indexOffset, old(data), was, data);
      was := data;
      offset := WritePiece(offset, ToBytes(EntryCount(table)), indexOffset, written);
      written := written + ToBytes(EntryCount(table));
      KeepsBoth(0, indexOffset, old(data), was, data);
      was := data;
      offset := WritePiece(offset, ToWords(sizes), indexOffset, written);
      written := written + ToWords(sizes);
      KeepsBoth(0, indexOffset, old(data), was, data);
      was := data;
      offset := WritePiece(offset, ToWords(offsets), indexOffset, written);
      written := written + ToWords(offsets);
      KeepsBoth(0, indexOffset, old(data), was, data);
      was := data;
      offset := WritePiece(offset, ToWords(table), indexOffset, written);
      KeepsBoth(0, indexOffset, old(data), was, data);
    }

    /** Writes header and index; the samples stay as they are. */
    method WriteIndex()
      requires Valid() && Storable(Here())
      modifies this`data
      ensures Indexed(data, Here()) && LaidOut(data, Here())
      ensures Valid() && Samples() == old(Samples())
    {
      WriteHeader();
      ghost var half := data;
      WriteTables();
      KeepsAt(0, indexOffset, half, data, 0, HeaderBytes(Here()));
      assert Keeps(HEADER, indexOffset, half, data);
      KeepsBoth(HEADER, indexOffset, old(data), half, data);
      SamplesKept(old(data), data, Here());
      IndexedIsLaidOut(data, Here());
    }

    method ReadWord(offset: nat, ghost expected: int) returns (v: int, next: nat)
      requires Fits(expected) && At(data, offset, ToBytes(expected))
      ensures v == expected && next == offset + 8
    {
      ReadAt(data, offset, ToBytes(expected), Zeros(8));
      BytesRoundTrip(expected);
      v := FromBytes(Read(data, offset, Zeros(8)));
      next := offset + Available(data, offset, 8);
    }

    method ReadWords(offset: nat, n: nat, ghost expected: seq<int>) returns (vs: seq<int>, next: nat)
      requires AllFit(expected) && n == |expected| && At(data, offset, ToWords(expected))
      ensures vs == expected && next == offset + 8 * n
    {
      ReadAt(data, offset, ToWords(expected), Zeros(8 * n));
      WordsRoundTrip(expected);
      vs := FromWords(Read(data, offset, Zeros(8 * n)));
      next := offset + Available(data, offset, 8 * n);
    }

    /** Reads the index from the store; bytes that do not start with the magic number are an error. */
    method ReadIndex() returns (ok: bool)
      requires data == [] || !HasMagic(data) || exists x :: Indexed(data, x)
      modifies this`sizes, this`offsets, this`table, this`indexOffset
      ensures ok <==> data == [] || Signed(data)
      ensures data == [] ==> indexOffset == 16
      ensures data == [] ==> Here() == Index(HEADER, old(sizes), old(offsets), [])
      ensures !ok ==> Here() == Index(old(indexOffset), old(sizes), old(offsets), [])
      ensures ok && data != [] ==> forall x | Indexed(data, x) :: Here() == x
    {
      HasMagicIff(data);
      table := [];
      if data == [] {
        indexOffset := HEADER;
        return true;
      }
      if FromBytes(Read(data, 0, Zeros(8))) != MAGIC {
        return false;
      }
      ReadTables();
      return true;
    }

    method ReadCounts(ghost x: Index) returns (size: nat, entriesSize: nat, next: nat)
      requires HEADER <= x.offset && CountsAt(data, x)
      modifies this`indexOffset
      ensures indexOffset == x.offset && next == x.offset + 16
      ensures size == |x.sizes| && entriesSize == EntryCount(x.table)
    {
      var offset;
      indexOffset, offset := ReadWord(8, x.offset);
      offset := indexOffset;
      size, offset := ReadWord(offset, |x.sizes|);
      entriesSize, next := ReadWord(offset, EntryCount(x.table));
    }

    method ReadVectors(start: nat, size: nat, entriesSize: nat, ghost x: Index)
      requires TablesAt(data, x) && start == x.offset + 16
      requires size == |x.sizes| == |x.offsets| && |x.table| == FIELDS * entriesSize
      modifies this`sizes, this`offsets, this`table
      ensures sizes == x.sizes && offsets == x.offsets && table == x.table
    {
      var offset := start;
      sizes, offset := ReadWords(offset, size, x.sizes);
      offsets, offset := ReadWords(offset, size, x.offsets);
      table, offset := ReadWords(offset, FIELDS * entriesSize, x.table);
    }

    method ReadTables()
      requires exists x :: Indexed(data, x)
      modifies this`sizes, this`offsets, this`table, this`indexOffset
      ensures forall x | Indexed(data, x) :: Here() == x
    {
      ghost var x :| Indexed(data, x);
      IndexCounts(data, x);
      IndexTables(data, x);
      WholeTable(x.table);
      var size, entriesSize, offset := ReadCounts(x);
      ReadVectors(offset, size, entriesSize, x);
      forall y | Indexed(data, y) ensures y == x {
        IndexedOnce(data, x, y);
      }
    }
  }

  /** What the store is reopened as: a fresh data set over the bytes of one whose index was written. */
  method Reopen(blob: BlobDataset) returns (fresh_: BlobDataset, ok: bool)
    requires blob.Valid() && Storable(blob.Here())
    modifies blob`data
    ensures ok && fresh(fresh_) && fresh_.Valid() && fresh_.Samples() == old(blob.Samples())
    ensures fresh_.Here() == old(blob.Here()) && blob.Valid() && blob.Samples() == old(blob.Samples())
  {
    blob.WriteIndex();
    fresh_, ok := OpenIndexed(blob.data, blob.Here());
  }

  /** A data set over bytes that hold an index reads that index. */
  method OpenIndexed(bytes: seq<Byte>, ghost x: Index) returns (blob: BlobDataset, ok: bool)
    requires Indexed(bytes, x)
    ensures ok && fresh(blob) && blob.data == bytes && blob.Here() == x
  {
    blob := new BlobDataset(bytes);
    IndexedHasMagic(bytes, x);
    HasMagicIff(bytes);
    ok := blob.ReadIndex();
  }

  /** Three f32 values take twelve bytes, at position 16 of a new data set, and come back as twelve bytes. */
  method ThreeFloats(bytes: seq<Byte>) returns (blob: BlobDataset, r: Option<seq<seq<Byte>>>)
    requires |bytes| == 12
    ensures fresh(blob) && r == Some([bytes]) && blob.indexOffset == 28 && blob.table == [0, 3, 1, 1, 1, 16]
    ensures 28 <= |blob.data| && blob.data[16..28] == bytes
  {
    blob := new BlobDataset([]);
    var ok := blob.ReadIndex();
    var a := Array(0, Dims(3, 1, 1, 1), bytes);
    assert a.dims.Elements() == 3 && Sound(a);
    blob.Add([a]);
    assert RowOf(blob.table, 0, [a], 0, 16);
    assert blob.Samples()[0] == Normals([a]);
    assert Normals([a])[0] == a;
    r := blob.RawGet(0);
    assert r.value == [bytes];
  }
}

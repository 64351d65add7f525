/**
 Byte strings: the little-endian 64-bit integers in which a blob's index is written, and the
 growing byte store of flashlight/fl/dataset/MemoryBlobDataset.cpp.
 */
module Bytes {

  type Byte = b: int | 0 <= b < 256

  // ---------------------------------------------------------------- 64-bit integers

  const HALF_RANGE := 0x8000_0000_0000_0000

  predicate Fits(v: int) {
    -HALF_RANGE <= v < HALF_RANGE
  }

  ghost function Power(n: nat): nat {
    if n == 0 then 1 else 256 * Power(n - 1)
  }

  /** The n lowest base-256 digits, least significant first. */
  function Digits(u: nat, n: nat): (bs: seq<Byte>)
    ensures |bs| == n
  {
    if n == 0 then [] else [u % 256] + Digits(u / 256, n - 1)
  }

  function Number(bs: seq<Byte>): nat {
    if bs == [] then 0 else bs[0] + 256 * Number(bs[1..])
  }

  lemma {:induction false} NumberOfDigits(u: nat, n: nat)
    requires u < Power(n)
    ensures Number(Digits(u, n)) == u
  {
    if n > 0 {
      NumberOfDigits(u / 256, n - 1);
    }
  }

  lemma {:induction false} EightDigits()
    ensures Power(8) == 2 * HALF_RANGE
  {
  }

  /** An int64 as it lies in memory. */
  function ToBytes(v: int): (bs: seq<Byte>)
    requires Fits(v)
    ensures |bs| == 8
  {
    Digits(if v < 0 then v + 2 * HALF_RANGE else v, 8)
  }

  function FromBytes(bs: seq<Byte>): int {
    var u := Number(bs);
    if u < HALF_RANGE then u else u - 2 * HALF_RANGE
  }

  lemma {:induction false} BytesRoundTrip(v: int)
    requires Fits(v)
    ensures FromBytes(ToBytes(v)) == v
  {
    EightDigits();
    NumberOfDigits(if v < 0 then v + 2 * HALF_RANGE else v, 8);
  }

  lemma {:induction false} DigitsOfNumber(bs: seq<Byte>)
    ensures Digits(Number(bs), |bs|) == bs
  {
    if bs != [] {
      DigitsOfNumber(bs[1..]);
      assert Number(bs) % 256 == bs[0] && Number(bs) / 256 == Number(bs[1..]);
    }
  }

  /** Eight bytes are the bytes of the number they make. */
  lemma {:induction false} NumberRoundTrip(bs: seq<Byte>)
    requires |bs| == 8
    ensures Fits(FromBytes(bs)) && ToBytes(FromBytes(bs)) == bs
  {
    NumberBound(bs);
    EightDigits();
    DigitsOfNumber(bs);
  }

  lemma {:induction false} NumberBound(bs: seq<Byte>)
    ensures Number(bs) < Power(|bs|)
  {
    if bs != [] {
      NumberBound(bs[1..]);
    }
  }

  // ---------------------------------------------------------------- the order of the bytes

  /** The k-th base-256 digit of a number, the lowest being digit 0. */
  function Digit(v: int, k: nat): int
    requires k < 8
  {
    match k
    case 0 => v % 256
    case 1 => v / 0x100 % 256
    case 2 => v / 0x1_0000 % 256
    case 3 => v / 0x100_0000 % 256
    case 4 => v / 0x1_0000_0000 % 256
    case 5 => v / 0x100_0000_0000 % 256
    case 6 => v / 0x1_0000_0000_0000 % 256
    case 7 => v / 0x100_0000_0000_0000 % 256
  }

  lemma {:induction false} DigitNext(u: nat, k: nat)
    requires k < 7
    ensures Digit(u / 256, k) == Digit(u, k + 1)
  {
    match k
    case 0 => assert u / 256 % 256 == u / 0x100 % 256;
    case 1 => assert u / 256 / 0x100 == u / 0x1_0000;
    case 2 => assert u / 256 / 0x1_0000 == u / 0x100_0000;
    case 3 => assert u / 256 / 0x100_0000 == u / 0x1_0000_0000;
    case 4 => assert u / 256 / 0x1_0000_0000 == u / 0x100_0000_0000;
    case 5 => assert u / 256 / 0x100_0000_0000 == u / 0x1_0000_0000_0000;
    case 6 => assert u / 256 / 0x1_0000_0000_0000 == u / 0x100_0000_0000_0000;
  }

  lemma {:induction false} DigitAt(u: nat, n: nat, k: nat)
    requires k < n <= 8
    ensures Digits(u, n)[k] == Digit(u, k)
    decreases n
  {
    if k > 0 {
      DigitAt(u / 256, n - 1, k - 1);
      DigitNext(u, k - 1);
    }
  }

  lemma {:induction false} WrapKeepsLow(v: int, w: int, k: nat)
    requires k < 4 && w == v + 0x1_0000_0000_0000_0000
    ensures Digit(w, k) == Digit(v, k)
  {
    match k
    case 0 => assert w % 256 == v % 256;
    case 1 => assert w / 0x100 == v / 0x100 + 0x100_0000_0000_0000;
    case 2 => assert w / 0x1_0000 == v / 0x1_0000 + 0x1_0000_0000_0000;
    case 3 => assert w / 0x100_0000 == v / 0x100_0000 + 0x100_0000_0000;
  }

  lemma {:induction false} WrapKeepsHigh(v: int, w: int, k: nat)
    requires 4 <= k < 8 && w == v + 0x1_0000_0000_0000_0000
    ensures Digit(w, k) == Digit(v, k)
  {
    match k
    case 4 => assert w / 0x1_0000_0000 == v / 0x1_0000_0000 + 0x1_0000_0000;
    case 5 => assert w / 0x100_0000_0000 == v / 0x100_0000_0000 + 0x100_0000;
    case 6 => assert w / 0x1_0000_0000_0000 == v / 0x1_0000_0000_0000 + 0x1_0000;
    case 7 => assert w / 0x100_0000_0000_0000 == v / 0x100_0000_0000_0000 + 0x100;
  }

  /** Adding 2 to the 64 changes none of the eight low digits. */
  lemma {:induction false} WrapKeepsDigit(v: int, k: nat)
    requires k < 8
    ensures Digit(v + 2 * HALF_RANGE, k) == Digit(v, k)
  {
    if k < 4 {
      WrapKeepsLow(v, v + 2 * HALF_RANGE, k);
    } else {
      WrapKeepsHigh(v, v + 2 * HALF_RANGE, k);
    }
  }

  /** Little-endian: byte k of an int64 is its k-th base-256 digit, in two's complement. */
  lemma {:induction false} ByteAt(v: int, k: nat)
    requires Fits(v) && k < 8
    ensures ToBytes(v)[k] == Digit(v, k)
  {
    DigitAt(if v < 0 then v + 2 * HALF_RANGE else v, 8, k);
    WrapKeepsDigit(v, k);
  }

  /** The number that eight bytes make, the least significant first. */
  function LittleEndian(b0: int, b1: int, b2: int, b3: int, b4: int, b5: int, b6: int, b7: int): int {
    b0 + 0x100 * b1 + 0x1_0000 * b2 + 0x100_0000 * b3 + 0x1_0000_0000 * b4 + 0x100_0000_0000 * b5
    + 0x1_0000_0000_0000 * b6 + 0x100_0000_0000_0000 * b7
  }

  /** The eight bytes from `pos` on hold v in two's complement, least significant byte first. */
  predicate WordAt(data: seq<Byte>, pos: int, v: int) {
    && 0 <= pos && pos + 8 <= |data|
    && LittleEndian(data[pos], data[pos + 1], data[pos + 2], data[pos + 3],
                    data[pos + 4], data[pos + 5], data[pos + 6], data[pos + 7])
       == if v < 0 then v + 0x1_0000_0000_0000_0000 else v
  }

  lemma {:induction false} NumberOfEight(bs: seq<Byte>)
    requires |bs| == 8
    ensures Number(bs) == LittleEndian(bs[0], bs[1], bs[2], bs[3], bs[4], bs[5], bs[6], bs[7])
  {
    assert Number(bs[7..]) == bs[7] by { assert bs[7..][1..] == []; }
    assert Number(bs[6..]) == bs[6] + 256 * Number(bs[7..]) by { assert bs[6..][1..] == bs[7..]; }
    assert Number(bs[5..]) == bs[5] + 256 * Number(bs[6..]) by { assert bs[5..][1..] == bs[6..]; }
    assert Number(bs[4..]) == bs[4] + 256 * Number(bs[5..]) by { assert bs[4..][1..] == bs[5..]; }
    assert Number(bs[3..]) == bs[3] + 256 * Number(bs[4..]) by { assert bs[3..][1..] == bs[4..]; }
    assert Number(bs[2..]) == bs[2] + 256 * Number(bs[3..]) by { assert bs[2..][1..] == bs[3..]; }
    assert Number(bs[1..]) == bs[1] + 256 * Number(bs[2..]) by { assert bs[1..][1..] == bs[2..]; }
  }

  lemma {:induction false} BytesMakeWord(data: seq<Byte>, pos: int, v: int)
    requires Fits(v) && At(data, pos, ToBytes(v))
    ensures WordAt(data, pos, v)
  {
    var bs := ToBytes(v);
    EightDigits();
    NumberOfDigits(if v < 0 then v + 2 * HALF_RANGE else v, 8);
    NumberOfEight(bs);
    assert forall k | 0 <= k < 8 :: bs[k] == data[pos..pos + 8][k] == data[pos + k];
    assert bs[0] == data[pos] && bs[1] == data[pos + 1] && bs[2] == data[pos + 2] && bs[3] == data[pos + 3];
    assert bs[4] == data[pos + 4] && bs[5] == data[pos + 5] && bs[6] == data[pos + 6] && bs[7] == data[pos + 7];
  }

  predicate AllFit(vs: seq<int>) {
    forall i | 0 <= i < |vs| :: Fits(vs[i])
  }

  /** A vector of int64 as it lies in memory. */
  function ToWords(vs: seq<int>): (bs: seq<Byte>)
    requires AllFit(vs)
    ensures |bs| == 8 * |vs|
  {
    if vs == [] then [] else ToBytes(vs[0]) + ToWords(vs[1..])
  }

  function FromWords(bs: seq<Byte>): (vs: seq<int>)
    requires |bs| % 8 == 0
    ensures |vs| == |bs| / 8
  {
    if bs == [] then [] else [FromBytes(bs[..8])] + FromWords(bs[8..])
  }

  lemma {:induction false} WordsRoundTrip(vs: seq<int>)
    requires AllFit(vs)
    ensures FromWords(ToWords(vs)) == vs
  {
    if vs != [] {
      BytesRoundTrip(vs[0]);
      WordsRoundTrip(vs[1..]);
      var bs := ToWords(vs);
      assert bs[..8] == ToBytes(vs[0]) && bs[8..] == ToWords(vs[1..]);
    }
  }

  lemma {:induction false} WordOf(vs: seq<int>, j: nat)
    requires AllFit(vs) && j < |vs|
    ensures ToWords(vs)[8 * j..8 * j + 8] == ToBytes(vs[j])
  {
    if j > 0 {
      WordOf(vs[1..], j - 1);
      assert ToWords(vs)[8..] == ToWords(vs[1..]);
      assert ToWords(vs)[8 * j..8 * j + 8] == ToWords(vs)[8..][8 * (j - 1)..8 * (j - 1) + 8];
    }
  }

  /** Number j of a vector lies 8 * j bytes behind its beginning. */
  lemma {:induction false} WordsLie(data: seq<Byte>, pos: int, vs: seq<int>, j: nat)
    requires AllFit(vs) && j < |vs| && At(data, pos, ToWords(vs))
    ensures WordAt(data, pos + 8 * j, vs[j])
  {
    WordOf(vs, j);
    AtPart(data, pos, ToWords(vs), 8 * j, 8 * j + 8);
    BytesMakeWord(data, pos + 8 * j, vs[j]);
  }

  // ---------------------------------------------------------------- the byte store

  /** The bytes `bs` lie in the store at this position. */
  predicate At(data: seq<Byte>, pos: int, bs: seq<Byte>) {
    0 <= pos && pos + |bs| <= |data| && data[pos..pos + |bs|] == bs
  }

  /** The new store holds what the old one held from position lo up to hi. */
  predicate Keeps(lo: int, hi: int, before: seq<Byte>, after: seq<Byte>) {
    && |before| <= |after|
    && forall k | 0 <= k < |before| && lo <= k < hi :: after[k] == before[k]
  }

  /** writeData: grow with zeros when needed, then copy. */
  function Overwrite(data: seq<Byte>, offset: nat, bs: seq<Byte>): (r: seq<Byte>)
    ensures |r| == if offset + |bs| > |data| then offset + |bs| else |data|
    ensures At(r, offset, bs)
    ensures forall k | 0 <= k < |data| && !(offset <= k < offset + |bs|) :: r[k] == data[k]
  {
    var grown := if offset + |bs| > |data| then data + seq(offset + |bs| - |data|, _ => 0) else data;
    grown[..offset] + bs + grown[offset + |bs|..]
  }

  /** A gap before the written bytes is filled with zeros. */
  lemma {:induction false} OverwriteFills(data: seq<Byte>, offset: nat, bs: seq<Byte>, k: nat)
    requires |data| <= k < offset
    ensures Overwrite(data, offset, bs)[k] == 0
  {
  }

  lemma {:induction false} OverwriteKeeps(data: seq<Byte>, offset: nat, bs: seq<Byte>, pos: int, kept: seq<Byte>)
    requires At(data, pos, kept)
    requires pos + |kept| <= offset || offset + |bs| <= pos
    ensures At(Overwrite(data, offset, bs), pos, kept)
  {
  }

  lemma {:induction false} OverwriteKeepsRange(data: seq<Byte>, offset: nat, bs: seq<Byte>, lo: int, hi: int)
    requires hi <= offset || offset + |bs| <= lo
    ensures Keeps(lo, hi, data, Overwrite(data, offset, bs))
  {
  }

  lemma {:induction false} KeepsBoth(lo: int, hi: int, a: seq<Byte>, b: seq<Byte>, c: seq<Byte>)
    requires Keeps(lo, hi, a, b) && Keeps(lo, hi, b, c)
    ensures Keeps(lo, hi, a, c)
  {
  }

  lemma {:induction false} KeepsAt(lo: int, hi: int, before: seq<Byte>, after: seq<Byte>, pos: int, bs: seq<Byte>)
    requires Keeps(lo, hi, before, after) && At(before, pos, bs) && lo <= pos && pos + |bs| <= hi
    ensures At(after, pos, bs)
  {
  }

  lemma {:induction false} AtPart(data: seq<Byte>, pos: int, bs: seq<Byte>, i: nat, j: nat)
    requires At(data, pos, bs) && i <= j <= |bs|
    ensures At(data, pos + i, bs[i..j])
  {
    forall k | 0 <= k < j - i ensures data[pos + i..pos + j][k] == bs[i..j][k] {
      assert bs[i + k] == data[pos..pos + |bs|][i + k];
    }
  }

  lemma {:induction false} AtBoth(data: seq<Byte>, pos: int, a: seq<Byte>, b: seq<Byte>)
    ensures At(data, pos, a + b) <==> At(data, pos, a) && At(data, pos + |a|, b)
  {
    if At(data, pos, a + b) {
      AtPart(data, pos, a + b, 0, |a|);
      AtPart(data, pos, a + b, |a|, |a + b|);
      assert (a + b)[0..|a|] == a && (a + b)[|a|..|a + b|] == b;
    }
    if At(data, pos, a) && At(data, pos + |a|, b) {
      var end := pos + |a| + |b|;
      assert data[pos..end] == data[pos..pos + |a|] + data[pos + |a|..end];
    }
  }

  lemma {:induction false} AtFive(data: seq<Byte>, pos: int, a: seq<Byte>, b: seq<Byte>, c: seq<Byte>, d: seq<Byte>,
      e: seq<Byte>)
    requires At(data, pos, a + b + c + d + e)
    ensures At(data, pos, a)
    ensures At(data, pos + |a|, b)
    ensures At(data, pos + |a| + |b|, c)
    ensures At(data, pos + |a| + |b| + |c|, d)
    ensures At(data, pos + |a| + |b| + |c| + |d|, e)
  {
    AtBoth(data, pos, a + b + c + d, e);
    AtBoth(data, pos, a + b + c, d);
    AtBoth(data, pos, a + b, c);
    AtBoth(data, pos, a, b);
  }

  /** Writing b right after a leaves a + b in the store. */
  lemma {:induction false} OverwriteNext(data: seq<Byte>, pos: nat, a: seq<Byte>, b: seq<Byte>)
    requires At(data, pos, a)
    ensures At(Overwrite(data, pos + |a|, b), pos, a + b)
  {
  }

  /** How many of n wanted bytes there are, which is what readData returns. */
  function Available(data: seq<Byte>, offset: nat, n: nat): (k: nat)
    ensures k <= n && (k == n <==> n == 0 || offset + n <= |data|)
    ensures k < n ==> k == 0 || offset + k == |data|
    ensures k == 0 ==> n == 0 || offset >= |data|
  {
    if offset + n <= |data| then n else if offset < |data| then |data| - offset else 0
  }

  /** readData: as many of the wanted bytes as there are, over what the buffer held before. */
  function Read(data: seq<Byte>, offset: nat, buffer: seq<Byte>): (r: seq<Byte>)
    ensures |r| == |buffer|
    ensures var k := Available(data, offset, |buffer|);
      && (forall i | 0 <= i < k :: offset + i < |data| && r[i] == data[offset + i])
      && (forall i | k <= i < |r| :: r[i] == buffer[i])
  {
    var size := Available(data, offset, |buffer|);
    if size == 0 then buffer else data[offset..offset + size] + buffer[size..]
  }

  lemma {:induction false} ReadAt(data: seq<Byte>, pos: nat, bs: seq<Byte>, buffer: seq<Byte>)
    requires At(data, pos, bs) && |buffer| == |bs|
    ensures Read(data, pos, buffer) == bs
  {
  }
}

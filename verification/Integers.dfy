/** Integer helpers. Products have a name, so that equal factors give equal products. */
module Integers {

  function Times(a: int, b: int): int {
    a * b
  }

  /** A product of two sizes. */
  function Area(a: nat, b: nat): (r: nat)
    ensures a > 0 && b > 0 ==> r > 0
  {
    a * b
  }

  lemma {:induction false} AreaNext(a: nat, b: nat)
    ensures Area(a + 1, b) == Area(a, b) + b
  {
  }

  lemma {:induction false} AreaGrows(a: nat, b: nat, c: nat)
    requires a <= b
    ensures Area(a, c) <= Area(b, c)
    decreases b
  {
    if a < b {
      AreaNext(b - 1, c);
      AreaGrows(a, b - 1, c);
    }
  }

  function Min(a: int, b: int): int {
    if a < b then a else b
  }

  function Range(a: int, b: int): (r: seq<int>)
    requires a <= b
    ensures |r| == b - a
    ensures forall k | 0 <= k < |r| :: r[k] == a + k
  {
    seq(b - a, k => a + k)
  }

  lemma {:induction false} RangeSplit(a: int, b: int, c: int)
    requires a <= b <= c
    ensures Range(a, c) == Range(a, b) + Range(b, c)
  {
  }
}

/**
 The shuffle of flashlight/fl/dataset/ShuffleDataset.cpp. The random draws are a parameter:
 the draw for position i lies between 0 and i. Draws and permutations correspond one to one,
 so uniform draws make every order equally likely.
 */
module Shuffle {

  /** One draw for every position above the first. */
  ghost predicate Draws(c: seq<nat>, n: nat) {
    |c| == n && forall i | 0 <= i < n :: c[i] <= i
  }

  ghost predicate Occurs(s: seq<int>, v: int) {
    exists k :: 0 <= k < |s| && s[k] == v
  }

  /** Every number below n occurs exactly once. */
  ghost predicate IsPermutation(s: seq<int>) {
    && (forall i | 0 <= i < |s| :: 0 <= s[i] < |s|)
    && (forall i, j | 0 <= i < j < |s| :: s[i] != s[j])
    && (forall v | 0 <= v < |s| :: Occurs(s, v))
  }

  ghost function Iota(n: nat): (s: seq<int>)
    ensures |s| == n && forall i | 0 <= i < n :: s[i] == i
  {
    seq(n, i => i)
  }

  lemma {:induction false} IotaPermutes(n: nat)
    ensures IsPermutation(Iota(n))
  {
    forall v | 0 <= v < n ensures Occurs(Iota(n), v) {
      assert Iota(n)[v] == v;
    }
  }

  ghost function Swap(s: seq<int>, i: nat, j: nat): seq<int>
    requires i < |s| && j < |s|
  {
    s[i := s[j]][j := s[i]]
  }

  /** The swaps of positions i down to 1. */
  ghost function Swaps(s: seq<int>, c: seq<nat>, i: nat): seq<int>
    requires Draws(c, |s|) && (i < |s| || i == 0)
    decreases i
  {
    if i == 0 then s else Swaps(Swap(s, i, c[i]), c, i - 1)
  }

  ghost function Shuffled(n: nat, c: seq<nat>): seq<int>
    requires Draws(c, n)
  {
    Swaps(Iota(n), c, if n == 0 then 0 else n - 1)
  }

  lemma {:induction false} SwapPermutes(s: seq<int>, i: nat, j: nat)
    requires IsPermutation(s) && i < |s| && j < |s|
    ensures IsPermutation(Swap(s, i, j))
  {
    var t := Swap(s, i, j);
    forall v | 0 <= v < |t| ensures Occurs(t, v) {
      assert Occurs(s, v);
      var k :| 0 <= k < |s| && s[k] == v;
      assert t[if k == i then j else if k == j then i else k] == v;
    }
  }

  lemma {:induction false} SwapsPermute(s: seq<int>, c: seq<nat>, i: nat)
    requires IsPermutation(s) && Draws(c, |s|) && (i < |s| || i == 0)
    ensures |Swaps(s, c, i)| == |s| && IsPermutation(Swaps(s, c, i))
    decreases i
  {
    if i > 0 {
      SwapPermutes(s, i, c[i]);
      SwapsPermute(Swap(s, i, c[i]), c, i - 1);
    }
  }

  /** Whatever is drawn, the outcome is a permutation. */
  lemma {:induction false} ShuffledPermutes(n: nat, c: seq<nat>)
    requires Draws(c, n)
    ensures |Shuffled(n, c)| == n && IsPermutation(Shuffled(n, c))
  {
    IotaPermutes(n);
    SwapsPermute(Iota(n), c, if n == 0 then 0 else n - 1);
  }

  /** Positions above i are no longer touched. */
  lemma {:induction false} SwapsLeave(s: seq<int>, c: seq<nat>, i: nat, k: nat)
    requires Draws(c, |s|) && i < k < |s|
    ensures |Swaps(s, c, i)| == |s| && Swaps(s, c, i)[k] == s[k]
    decreases i
  {
    if i > 0 {
      SwapsLeave(Swap(s, i, c[i]), c, i - 1, k);
    }
  }

  /** The draw for position i decides what ends up there. */
  lemma {:induction false} DrawDecides(s: seq<int>, c: seq<nat>, i: nat)
    requires Draws(c, |s|) && 0 < i < |s|
    ensures |Swaps(s, c, i)| == |s| && Swaps(s, c, i)[i] == s[c[i]]
  {
    SwapsLeave(Swap(s, i, c[i]), c, i - 1, i);
  }

  lemma {:induction false} SwapsInjective(s: seq<int>, c: seq<nat>, d: seq<nat>, i: nat, k: nat)
    requires IsPermutation(s) && Draws(c, |s|) && Draws(d, |s|) && 0 < k <= i < |s|
    requires Swaps(s, c, i) == Swaps(s, d, i)
    ensures c[k] == d[k]
    decreases i
  {
    DrawDecides(s, c, i);
    DrawDecides(s, d, i);
    if k < i {
      SwapPermutes(s, i, c[i]);
      SwapsInjective(Swap(s, i, c[i]), c, d, i - 1, k);
    }
  }

  /** Different draws give different orders. */
  lemma {:induction false} ShuffledInjective(n: nat, c: seq<nat>, d: seq<nat>)
    requires Draws(c, n) && Draws(d, n) && Shuffled(n, c) == Shuffled(n, d)
    ensures c == d
  {
    IotaPermutes(n);
    forall k | 0 <= k < n ensures c[k] == d[k] {
      if k > 0 {
        SwapsInjective(Iota(n), c, d, n - 1, k);
      }
    }
  }

  /** The swaps of positions up to i do not look at later draws. */
  lemma {:induction false} SwapsIgnore(s: seq<int>, c: seq<nat>, d: seq<nat>, i: nat)
    requires Draws(c, |s|) && Draws(d, |s|) && (i < |s| || i == 0)
    requires forall k | 0 <= k <= i && k < |s| :: c[k] == d[k]
    ensures Swaps(s, c, i) == Swaps(s, d, i)
    decreases i
  {
    if i > 0 {
      SwapsIgnore(Swap(s, i, c[i]), c, d, i - 1);
    }
  }

  /** Both orders agree above position i. */
  ghost predicate AgreeAbove(s: seq<int>, p: seq<int>, i: int) {
    |p| == |s| && forall k | 0 <= k < |s| && i < k :: s[k] == p[k]
  }

  lemma {:induction false} FindDraw(s: seq<int>, p: seq<int>, i: nat) returns (j: nat)
    requires IsPermutation(s) && IsPermutation(p) && AgreeAbove(s, p, i) && i < |s|
    ensures j <= i && s[j] == p[i] && AgreeAbove(Swap(s, i, j), p, i - 1)
  {
    assert Occurs(s, p[i]);
    var k :| 0 <= k < |s| && s[k] == p[i];
    j := k;
  }

  lemma {:induction false} PutDraw(s: seq<int>, rest: seq<nat>, i: nat, j: nat)
    requires Draws(rest, |s|) && j <= i < |s| && 0 < i
    ensures Draws(rest[i := j], |s|) && Swaps(s, rest[i := j], i) == Swaps(Swap(s, i, j), rest, i - 1)
  {
    SwapsIgnore(Swap(s, i, j), rest[i := j], rest, i - 1);
  }

  lemma {:induction false} SwapsReach(s: seq<int>, p: seq<int>, i: nat) returns (c: seq<nat>)
    requires IsPermutation(s) && IsPermutation(p) && AgreeAbove(s, p, i) && i < |s|
    ensures Draws(c, |s|) && Swaps(s, c, i) == p
    decreases i
  {
    var j := FindDraw(s, p, i);
    if i == 0 {
      c := seq(|s|, k => 0);
      assert s == p;
    } else {
      SwapPermutes(s, i, j);
      var rest := SwapsReach(Swap(s, i, j), p, i - 1);
      c := rest[i := j];
      PutDraw(s, rest, i, j);
    }
  }

  /** Every order comes from some draws. */
  lemma {:induction false} ShuffledSurjective(p: seq<int>) returns (c: seq<nat>)
    requires IsPermutation(p)
    ensures Draws(c, |p|) && Shuffled(|p|, c) == p
  {
    if p == [] {
      c := [];
    } else {
      IotaPermutes(|p|);
      c := SwapsReach(Iota(|p|), p, |p| - 1);
    }
  }

  /** The last slot holds the first draw. */
  lemma {:induction false} LastSlot(n: nat, c: seq<nat>)
    requires Draws(c, n)
    ensures |Shuffled(n, c)| == n && (n > 0 ==> Shuffled(n, c)[n - 1] == c[n - 1])
  {
    ShuffledPermutes(n, c);
    if n > 1 {
      DrawDecides(Iota(n), c, n - 1);
    }
  }

  lemma {:induction false} SwapsNothing(s: seq<int>, c: seq<nat>, i: nat, k: nat)
    requires Draws(c, |s|) && k <= i < |s| && forall j | k <= j <= i :: c[j] == j
    ensures |Swaps(s, c, i)| == |s| && Swaps(s, c, i)[k] == s[k]
    decreases i
  {
    if i > 0 {
      assert Swap(s, i, c[i]) == s;
      if k == i {
        SwapsLeave(s, c, i - 1, k);
      } else {
        SwapsNothing(s, c, i - 1, k);
      }
    }
  }

  /** Where all positions from i on are swapped with themselves, slot i holds i. */
  lemma {:induction false} UndrawnStays(n: nat, c: seq<nat>, i: nat)
    requires Draws(c, n) && i < n && forall k | i <= k < n :: c[k] == k
    ensures |Shuffled(n, c)| == n && Shuffled(n, c)[i] == i
  {
    SwapsNothing(Iota(n), c, n - 1, i);
  }

  lemma {:induction false} SwapsAgree(s: seq<int>, c: seq<nat>, d: seq<nat>, i: nat, k: nat)
    requires Draws(c, |s|) && Draws(d, |s|) && 0 < k <= i < |s| && forall j | k <= j <= i :: c[j] == d[j]
    ensures |Swaps(s, c, i)| == |Swaps(s, d, i)| == |s| && Swaps(s, c, i)[k] == Swaps(s, d, i)[k]
    decreases i
  {
    if k == i {
      DrawDecides(s, c, i);
      DrawDecides(s, d, i);
    } else {
      SwapsAgree(Swap(s, i, c[i]), c, d, i - 1, k);
    }
  }

  /** A slot depends only on the draws from its position on. */
  lemma {:induction false} LaterDrawsDecide(n: nat, c: seq<nat>, d: seq<nat>, k: nat)
    requires Draws(c, n) && Draws(d, n) && 0 < k < n && forall j | k <= j < n :: c[j] == d[j]
    ensures |Shuffled(n, c)| == |Shuffled(n, d)| == n && Shuffled(n, c)[k] == Shuffled(n, d)[k]
  {
    SwapsAgree(Iota(n), c, d, n - 1, k);
  }

  /** The vector counted up and then shuffled in place. */
  method Resample(resampleVec: array<int>, draws: seq<nat>)
    requires Draws(draws, resampleVec.Length)
    modifies resampleVec
    ensures resampleVec[..] == Shuffled(resampleVec.Length, draws)
    ensures IsPermutation(resampleVec[..])
    ensures resampleVec.Length > 0 ==> resampleVec[resampleVec.Length - 1] == draws[resampleVec.Length - 1]
    ensures forall i | 0 <= i < resampleVec.Length && (forall k | i <= k < resampleVec.Length :: draws[k] == k) ::
      resampleVec[i] == i
  {
    var n := resampleVec.Length;
    LastSlot(n, draws);
    forall i | 0 <= i < n && (forall k | i <= k < n :: draws[k] == k) ensures Shuffled(n, draws)[i] == i {
      UndrawnStays(n, draws, i);
    }
    for i := 0 to n
      invariant forall k | 0 <= k < i :: resampleVec[k] == k
    {
      resampleVec[i] := i;
    }
    assert resampleVec[..] == Iota(n);
    ShuffledPermutes(n, draws);
    if n > 0 {
      var i := n - 1;
      while i > 0
        invariant 0 <= i < n
        invariant Swaps(resampleVec[..], draws, i) == Shuffled(n, draws)
      {
        var j := draws[i];
        ghost var before := resampleVec[..];
        resampleVec[i], resampleVec[j] := resampleVec[j], resampleVec[i];
        assert resampleVec[..] == Swap(before, i, j);
        i := i - 1;
      }
    }
  }

  /** Changing one draw leaves every slot above its position as it was. */
  method ResampleTwice(a: array<int>, b: array<int>, draws: seq<nat>, i: nat, j: nat)
    requires a != b && a.Length == b.Length && i < a.Length && j <= i
    requires Draws(draws, a.Length)
    modifies a, b
    ensures forall k | i < k < a.Length :: a[k] == b[k]
  {
    var other := draws[i := j];
    Resample(a, draws);
    Resample(b, other);
    forall k | i < k < a.Length ensures a[..][k] == b[..][k] {
      LaterDrawsDecide(a.Length, draws, other, k);
    }
  }

  /** Draws that swap nothing leave three samples in order; always drawing the first moves them round. */
  method ResampleExample(a: array<int>, b: array<int>)
    requires a != b && a.Length == b.Length == 3
    modifies a, b
    ensures a[..] == [0, 1, 2] && b[..] == [1, 2, 0]
  {
    Resample(a, [0, 1, 2]);
    Resample(b, [0, 0, 0]);
    assert a[..] == [0, 1, 2];
    assert Iota(3) == [0, 1, 2];
    assert Swaps([0, 1, 2], [0, 0, 0], 2) == Swaps([2, 1, 0], [0, 0, 0], 1) == Swaps([1, 2, 0], [0, 0, 0], 0);
  }
}

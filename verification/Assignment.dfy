/**
 The assignment problem and its linear-programming dual.

 An assignment sends every row of an m x n cost matrix to a column of its own. Potentials
 `u` (rows) and `v` (columns) are feasible when `u[r] + v[c]` never exceeds a cost; the
 lemmas here show that an assignment that only uses tight cells, and that covers every
 column with a non-zero potential, is at least as cheap as every other assignment.
 */
module Assignment {
  type Matrix = seq<seq<real>>

  ghost predicate Rectangular(a: Matrix, m: nat, n: nat) {
    && |a| == m
    && forall r | 0 <= r < m :: |a[r]| == n
  }

  /** Each of the m rows has a column below n, and no two rows share one. */
  ghost predicate IsAssignment(f: seq<int>, m: nat, n: nat) {
    && |f| == m
    && (forall r | 0 <= r < m :: 0 <= f[r] < n)
    && (forall r, s | 0 <= r < s < m :: f[r] != f[s])
  }

  /** The cost of the first k rows of an assignment. */
  ghost function CostOf(a: Matrix, f: seq<int>, k: nat): real
    requires k <= |f| <= |a|
    requires forall r | 0 <= r < |f| :: 0 <= f[r] < |a[r]|
  {
    if k == 0 then 0.0 else CostOf(a, f, k - 1) + a[k - 1][f[k - 1]]
  }

  ghost function TotalCost(a: Matrix, f: seq<int>): real
    requires |f| <= |a|
    requires forall r | 0 <= r < |f| :: 0 <= f[r] < |a[r]|
  {
    CostOf(a, f, |f|)
  }

  /** An assignment no other assignment undercuts. */
  ghost predicate Optimal(a: Matrix, f: seq<int>, m: nat, n: nat)
    requires Rectangular(a, m, n)
  {
    && IsAssignment(f, m, n)
    && forall g: seq<int> | IsAssignment(g, m, n) :: TotalCost(a, f) <= TotalCost(a, g)
  }

  ghost function Prefix(u: seq<real>, k: nat): real
    requires k <= |u|
  {
    if k == 0 then 0.0 else Prefix(u, k - 1) + u[k - 1]
  }

  /** The sum of v over the first k columns that lie in `cols`. */
  ghost function Restricted(v: seq<real>, cols: set<int>, k: nat): real
    requires k <= |v|
  {
    if k == 0 then 0.0 else Restricted(v, cols, k - 1) + (if k - 1 in cols then v[k - 1] else 0.0)
  }

  ghost function Image(f: seq<int>, k: nat): set<int>
    requires k <= |f|
  {
    set r | 0 <= r < k :: f[r]
  }

  /** Along an assignment, the column potentials add up to those of its image. */
  ghost function Along(v: seq<real>, f: seq<int>, k: nat): real
    requires k <= |f|
    requires forall r | 0 <= r < |f| :: 0 <= f[r] < |v|
  {
    if k == 0 then 0.0 else Along(v, f, k - 1) + v[f[k - 1]]
  }

  lemma {:induction false} RestrictedInsert(v: seq<real>, cols: set<int>, c: int, k: nat)
    requires k <= |v| && 0 <= c && c !in cols
    ensures Restricted(v, cols + {c}, k) == Restricted(v, cols, k) + (if c < k then v[c] else 0.0)
  {
    if k > 0 {
      RestrictedInsert(v, cols, c, k - 1);
    }
  }

  lemma {:induction false} AlongIsImageSum(v: seq<real>, f: seq<int>, n: nat, k: nat)
    requires |v| == n && IsAssignment(f, |f|, n) && k <= |f|
    ensures Along(v, f, k) == Restricted(v, Image(f, k), n)
  {
    if k == 0 {
      EmptyRestriction(v, n);
      assert Image(f, 0) == {};
    } else {
      AlongIsImageSum(v, f, n, k - 1);
      assert Image(f, k) == Image(f, k - 1) + {f[k - 1]};
      RestrictedInsert(v, Image(f, k - 1), f[k - 1], n);
    }
  }

  lemma {:induction false} EmptyRestriction(v: seq<real>, k: nat)
    requires k <= |v|
    ensures Restricted(v, {}, k) == 0.0
  {
    if k > 0 { EmptyRestriction(v, k - 1); }
  }

  /** Non-positive potentials: a set of columns that misses only zeros sums lowest. */
  lemma {:induction false} SupportSumsLowest(v: seq<real>, support: set<int>, cols: set<int>, k: nat)
    requires k <= |v|
    requires forall c | 0 <= c < |v| :: v[c] <= 0.0
    requires forall c | 0 <= c < |v| && v[c] != 0.0 :: c in support
    ensures Restricted(v, support, k) <= Restricted(v, cols, k)
  {
    if k > 0 { SupportSumsLowest(v, support, cols, k - 1); }
  }

  /** Feasible potentials bound the cost of any assignment from below. */
  lemma {:induction false} WeakDuality(a: Matrix, u: seq<real>, v: seq<real>, f: seq<int>, n: nat, k: nat)
    requires Rectangular(a, |u|, n) && |v| == n && IsAssignment(f, |u|, n) && k <= |u|
    requires forall r, c | 0 <= r < |u| && 0 <= c < n :: u[r] + v[c] <= a[r][c]
    ensures Prefix(u, k) + Along(v, f, k) <= CostOf(a, f, k)
  {
    if k > 0 {
      WeakDuality(a, u, v, f, n, k - 1);
      assert u[k - 1] + v[f[k - 1]] <= a[k - 1][f[k - 1]];
    }
  }

  /** On tight cells the bound is met. */
  lemma {:induction false} TightCost(a: Matrix, u: seq<real>, v: seq<real>, f: seq<int>, n: nat, k: nat)
    requires Rectangular(a, |u|, n) && |v| == n && IsAssignment(f, |u|, n) && k <= |u|
    requires forall r | 0 <= r < |u| :: u[r] + v[f[r]] == a[r][f[r]]
    ensures Prefix(u, k) + Along(v, f, k) == CostOf(a, f, k)
  {
    if k > 0 {
      TightCost(a, u, v, f, n, k - 1);
      assert u[k - 1] + v[f[k - 1]] == a[k - 1][f[k - 1]];
    }
  }

  /** Complementary slackness: tight cells plus feasible, supported potentials give optimality. */
  lemma {:induction false} ComplementarySlackness(a: Matrix, u: seq<real>, v: seq<real>, f: seq<int>, n: nat)
    requires Rectangular(a, |u|, n) && |v| == n && IsAssignment(f, |u|, n)
    requires forall r, c | 0 <= r < |u| && 0 <= c < n :: u[r] + v[c] <= a[r][c]
    requires forall r | 0 <= r < |u| :: u[r] + v[f[r]] == a[r][f[r]]
    requires forall c | 0 <= c < n :: v[c] <= 0.0
    requires forall c | 0 <= c < n && v[c] != 0.0 :: c in f
    ensures Optimal(a, f, |u|, n)
  {
    var m := |u|;
    forall g: seq<int> | IsAssignment(g, m, n)
      ensures TotalCost(a, f) <= TotalCost(a, g)
    {
      TightCost(a, u, v, f, n, m);
      WeakDuality(a, u, v, g, n, m);
      AlongIsImageSum(v, f, n, m);
      AlongIsImageSum(v, g, n, m);
      assert forall c | 0 <= c < n && v[c] != 0.0 :: c in Image(f, m);
      SupportSumsLowest(v, Image(f, m), Image(g, m), n);
    }
  }

  lemma {:induction false} SlotOrder(m: nat, c: int, d: int)
    requires c < d
    ensures c * m + m <= d * m
  {
    assert d * m == c * m + m + (d - c - 1) * m;
    assert (d - c - 1) * m >= 0;
  }

  /** Flattening a matrix column by column gives every cell a slot of its own. */
  lemma {:induction false} ColumnMajorSlots(m: nat, n: nat, r: int, c: int, s: int, d: int)
    requires 0 <= r < m && 0 <= c < n && 0 <= s < m && 0 <= d < n
    ensures 0 <= c * m + r < n * m
    ensures c * m + r == d * m + s ==> r == s && c == d
  {
    SlotOrder(m, c, n);
    if c < d {
      SlotOrder(m, c, d);
    } else if d < c {
      SlotOrder(m, d, c);
    }
  }
}

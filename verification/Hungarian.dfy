/**
 The Hungarian algorithm of flashlight/lib/set/Hungarian.cpp: a step machine over a cost
 matrix, star and prime marks, and row and column covers, all updated in place.

 The flat column-major buffers of the source are two-dimensional arrays here, indexed
 [row, column] (`Assignment.ColumnMajorSlots` shows the flattening is one-to-one).

 The ghost `Search` value names what the marks mean: the starred column of each starred
 row, the primed column of each primed row, and the order in which rows were primed. The
 ghost potentials `u` and `v` say how far each row and column has been lowered.
 */
module Hungarian {
  import opened Assignment
  import opened Sequences

  datatype Mark = None | Star | Prime

  /** A running minimum; Unset stands for the source's largest-float sentinel. */
  datatype Least = Unset | Least(value: real)

  type Placement = map<int, int>

  datatype Search = Search(stars: Placement, primes: Placement, order: seq<int>)

  // ---------------------------------------------------------------- placements

  ghost predicate Placed(f: Placement, m: nat, n: nat) {
    forall r | r in f :: 0 <= r < m && 0 <= f[r] < n
  }

  ghost predicate OneToOne(f: Placement) {
    forall r, s | r in f && s in f && r != s :: f[r] != f[s]
  }

  ghost function Columns(f: Placement): set<int> {
    set r | r in f.Keys :: f[r]
  }

  ghost function Below(n: nat): (s: set<int>)
    ensures |s| == n
    ensures forall i :: i in s <==> 0 <= i < n
  {
    if n == 0 then {} else Below(n - 1) + {n - 1}
  }

  lemma {:induction false} SubsetSize(s: set<int>, t: set<int>)
    requires s <= t
    ensures |s| <= |t|
    ensures |s| == |t| ==> s == t
  {
    assert t == s + (t - s);
    assert |t| == |s| + |t - s|;
  }

  /** A placement occupies at most m rows, and all of them exactly when it has size m. */
  lemma {:induction false} PlacementSize(f: Placement, m: nat, n: nat)
    requires Placed(f, m, n)
    ensures |f| <= m
    ensures |f| == m <==> forall r | 0 <= r < m :: r in f
  {
    SubsetSize(f.Keys, Below(m));
    if forall r | 0 <= r < m :: r in f {
      assert f.Keys == Below(m);
    }
  }

  lemma {:induction false} Member<T>(s: set<T>) returns (x: T)
    requires s != {}
    ensures x in s
  {
    x :| x in s;
  }

  /** A one-to-one placement uses as many columns as rows. */
  lemma {:induction false} ColumnsMatchRows(f: Placement)
    requires OneToOne(f)
    ensures |Columns(f)| == |f|
    decreases |f|
  {
    if f.Keys != {} {
      var r := Member(f.Keys);
      var g := f - {r};
      assert f.Keys == g.Keys + {r};
      assert Columns(f) == Columns(g) + {f[r]} by {
        forall c | c in Columns(f) ensures c in Columns(g) + {f[r]} {
          var s :| s in f.Keys && f[s] == c;
          if s != r { assert s in g && g[s] == c; }
        }
      }
      assert forall s | s in g :: g[s] != f[r];
      ColumnsMatchRows(g);
    } else {
      assert Columns(f) == {};
    }
  }

  lemma {:induction false} DistinctFits(s: seq<int>, m: nat)
    requires Distinct(s) && forall i | 0 <= i < |s| :: 0 <= s[i] < m
    ensures |s| <= m
  {
    DistinctSize(s);
    SubsetSize(Elements(s), Below(m));
  }

  // ---------------------------------------------------------------- what the buffers mean

  ghost function Snapshot(costs: array2<real>): Matrix
    reads costs
  {
    seq(costs.Length0, r requires 0 <= r < costs.Length0 reads costs =>
      seq(costs.Length1, c requires 0 <= c < costs.Length1 reads costs => costs[r, c]))
  }

  ghost predicate Marked(marks: array2<Mark>, stars: Placement, primes: Placement)
    reads marks
  {
    && Placed(stars, marks.Length0, marks.Length1)
    && Placed(primes, marks.Length0, marks.Length1)
    && (forall r | r in stars && r in primes :: stars[r] != primes[r])
    && (forall r, c | 0 <= r < marks.Length0 && 0 <= c < marks.Length1 ::
         && (marks[r, c] == Star <==> r in stars && stars[r] == c)
         && (marks[r, c] == Prime <==> r in primes && primes[r] == c))
  }

  ghost predicate RowHasZero(costs: array2<real>, r: int)
    requires 0 <= r < costs.Length0
    reads costs
  {
    exists c :: 0 <= c < costs.Length1 && costs[r, c] == 0.0
  }

  ghost predicate Tight(costs: array2<real>, f: Placement)
    reads costs
  {
    && Placed(f, costs.Length0, costs.Length1)
    && forall r | r in f :: costs[r, f[r]] == 0.0
  }

  /** The reduced costs are the original ones less the potentials, and not negative. */
  ghost predicate Reduced(costs: array2<real>, a: Matrix, u: seq<real>, v: seq<real>)
    reads costs
  {
    && Rectangular(a, costs.Length0, costs.Length1)
    && |u| == costs.Length0 && |v| == costs.Length1
    && forall r, c | 0 <= r < costs.Length0 && 0 <= c < costs.Length1 ::
         costs[r, c] == a[r][c] - u[r] - v[c] && costs[r, c] >= 0.0
  }

  /** Column potentials are only ever lowered, and only on columns that hold a star. */
  ghost predicate Supported(v: seq<real>, stars: Placement) {
    forall c | 0 <= c < |v| :: v[c] <= 0.0 && (v[c] != 0.0 ==> c in Columns(stars))
  }

  /** The columns of the stars whose rows are not primed. */
  ghost function OpenStarColumns(s: Search): set<int> {
    set r | r in s.stars.Keys && r !in s.primes :: s.stars[r]
  }

  /** Every star lies under exactly one line: its row if that row is primed, else its column. */
  ghost predicate Covered(rowCover: array<bool>, colCover: array<bool>, s: Search)
    reads rowCover, colCover
  {
    && (forall r | 0 <= r < rowCover.Length :: rowCover[r] <==> r in s.primes)
    && (forall c | 0 <= c < colCover.Length ::
         colCover[c] <==> c in OpenStarColumns(s))
  }

  ghost predicate Clear(cover: array<bool>)
    reads cover
  {
    forall i | 0 <= i < cover.Length :: !cover[i]
  }

  /** A star in the column of the i-th prime sits in a row primed earlier. */
  ghost predicate Ordered(s: Search) {
    && Distinct(s.order)
    && (forall r :: r in s.primes <==> r in s.order)
    && forall i, r | 0 <= i < |s.order| && r in s.stars && s.stars[r] == s.primes[s.order[i]] :: r in s.order[..i]
  }

  ghost predicate UncoveredZero(costs: array2<real>, rowCover: array<bool>, colCover: array<bool>, r: int, c: int)
    requires costs.Length0 == rowCover.Length && costs.Length1 == colCover.Length
    reads costs, rowCover, colCover
  {
    0 <= r < costs.Length0 && 0 <= c < costs.Length1 && costs[r, c] == 0.0 && !rowCover[r] && !colCover[c]
  }

  ghost predicate HasUncoveredZero(costs: array2<real>, rowCover: array<bool>, colCover: array<bool>)
    requires costs.Length0 == rowCover.Length && costs.Length1 == colCover.Length
    reads costs, rowCover, colCover
  {
    exists r, c :: UncoveredZero(costs, rowCover, colCover, r, c)
  }

  ghost predicate Sized(costs: array2<real>, marks: array2<Mark>, rowCover: array<bool>, colCover: array<bool>) {
    && costs.Length0 == marks.Length0 == rowCover.Length
    && costs.Length1 == marks.Length1 == colCover.Length
    && rowCover != colCover
    && costs.Length0 <= costs.Length1
  }

  // ---------------------------------------------------------------- searches

  method FindUncoveredZero(costs: array2<real>, colCover: array<bool>, rowCover: array<bool>)
    returns (row: int, col: int)
    requires costs.Length0 == rowCover.Length && costs.Length1 == colCover.Length
    ensures row == -1 <==> col == -1
    ensures row != -1 ==> UncoveredZero(costs, rowCover, colCover, row, col)
    ensures row == -1 ==> !HasUncoveredZero(costs, rowCover, colCover)
    ensures row != -1 ==> forall r, c | c < col || (c == col && r < row) ::
      !UncoveredZero(costs, rowCover, colCover, r, c)
  {
    row, col := -1, -1;
    var c := 0;
    while c < costs.Length1
      invariant 0 <= c <= costs.Length1
      invariant forall r, d | 0 <= d < c :: !UncoveredZero(costs, rowCover, colCover, r, d)
    {
      var r := 0;
      while r < costs.Length0
        invariant 0 <= r <= costs.Length0
        invariant forall q | 0 <= q < r :: !UncoveredZero(costs, rowCover, colCover, q, c)
      {
        if costs[r, c] == 0.0 && !colCover[c] && !rowCover[r] {
          return r, c;
        }
        r := r + 1;
      }
      c := c + 1;
    }
  }

  method FindStarInRow(marks: array2<Mark>, row: int) returns (col: int)
    requires 0 <= row < marks.Length0
    ensures -1 <= col < marks.Length1
    ensures col >= 0 ==> marks[row, col] == Star && forall c | 0 <= c < col :: marks[row, c] != Star
    ensures col == -1 ==> forall c | 0 <= c < marks.Length1 :: marks[row, c] != Star
  {
    for c := 0 to marks.Length1
      invariant forall d | 0 <= d < c :: marks[row, d] != Star
    {
      if marks[row, c] == Star { return c; }
    }
    return -1;
  }

  method FindStarInCol(marks: array2<Mark>, col: int) returns (row: int)
    requires 0 <= col < marks.Length1
    ensures -1 <= row < marks.Length0
    ensures row >= 0 ==> marks[row, col] == Star && forall r | 0 <= r < row :: marks[r, col] != Star
    ensures row == -1 ==> forall r | 0 <= r < marks.Length0 :: marks[r, col] != Star
  {
    for r := 0 to marks.Length0
      invariant forall q | 0 <= q < r :: marks[q, col] != Star
    {
      if marks[r, col] == Star { return r; }
    }
    return -1;
  }

  method FindPrimeInRow(marks: array2<Mark>, row: int) returns (col: int)
    requires 0 <= row < marks.Length0
    ensures -1 <= col < marks.Length1
    ensures col >= 0 ==> marks[row, col] == Prime && forall c | 0 <= c < col :: marks[row, c] != Prime
    ensures col == -1 ==> forall c | 0 <= c < marks.Length1 :: marks[row, c] != Prime
  {
    for c := 0 to marks.Length1
      invariant forall d | 0 <= d < c :: marks[row, d] != Prime
    {
      if marks[row, c] == Prime { return c; }
    }
    return -1;
  }

  // ---------------------------------------------------------------- steps one to three

  method RowMinimum(costs: array2<real>, r: int) returns (minVal: real)
    requires 0 <= r < costs.Length0 && 0 < costs.Length1
    ensures exists c :: 0 <= c < costs.Length1 && costs[r, c] == minVal
    ensures forall c | 0 <= c < costs.Length1 :: minVal <= costs[r, c]
  {
    var least := Unset;
    for c := 0 to costs.Length1
      invariant least == Unset <==> c == 0
      invariant least != Unset ==> exists d :: 0 <= d < c && costs[r, d] == least.value
      invariant forall d | 0 <= d < c :: least != Unset && least.value <= costs[r, d]
    {
      var val := costs[r, c];
      if least == Unset || val < least.value {
        least := Least(val);
      }
    }
    minVal := least.value;
  }

  method SubtractFromRow(costs: array2<real>, r: int, x: real)
    requires 0 <= r < costs.Length0
    modifies costs
    ensures forall q, c | 0 <= q < costs.Length0 && 0 <= c < costs.Length1 ::
              costs[q, c] == old(costs[q, c]) - (if q == r then x else 0.0)
  {
    for c := 0 to costs.Length1
      invariant forall q, d | 0 <= q < costs.Length0 && 0 <= d < costs.Length1 ::
                  costs[q, d] == old(costs[q, d]) - (if q == r && d < c then x else 0.0)
    {
      costs[r, c] := costs[r, c] - x;
    }
  }

  /** Lowers every row by its minimum. */
  method StepOne(costs: array2<real>) returns (step: int, ghost u: seq<real>)
    requires costs.Length0 <= costs.Length1
    modifies costs
    ensures step == 2 && |u| == costs.Length0
    ensures Reduced(costs, old(Snapshot(costs)), u, seq(costs.Length1, _ => 0.0))
    ensures forall r | 0 <= r < costs.Length0 :: RowHasZero(costs, r)
  {
    u := [];
    for r := 0 to costs.Length0
      invariant |u| == r
      invariant forall q, c | 0 <= q < costs.Length0 && 0 <= c < costs.Length1 ::
                  costs[q, c] == old(costs[q, c]) - (if q < r then u[q] else 0.0)
      invariant forall q, c | 0 <= q < r && 0 <= c < costs.Length1 :: costs[q, c] >= 0.0
      invariant forall q | 0 <= q < r :: RowHasZero(costs, q)
    {
      var minVal := RowMinimum(costs, r);
      label Before:
      ghost var at :| 0 <= at < costs.Length1 && costs[r, at] == minVal;
      SubtractFromRow(costs, r, minVal);
      u := u + [minVal];
      assert costs[r, at] == 0.0;
      forall q | 0 <= q < r ensures RowHasZero(costs, q) {
        assert old@Before(RowHasZero(costs, q));
        ghost var c :| 0 <= c < costs.Length1 && old@Before(costs[q, c]) == 0.0;
        assert costs[q, c] == 0.0;
      }
    }
    step := 2;
  }

  /** Stars zeros greedily, so that no zero has both its row and its column free of stars. */
  method StepTwo(costs: array2<real>, marks: array2<Mark>, colCover: array<bool>, rowCover: array<bool>)
    returns (step: int, ghost stars: Placement)
    requires Sized(costs, marks, rowCover, colCover)
    requires Marked(marks, map[], map[]) && Clear(rowCover) && Clear(colCover)
    modifies marks, colCover, rowCover
    ensures step == 3
    ensures Marked(marks, stars, map[]) && OneToOne(stars) && Tight(costs, stars)
    ensures forall r, c | 0 <= r < costs.Length0 && 0 <= c < costs.Length1 && costs[r, c] == 0.0 ::
              r in stars || c in Columns(stars)
    ensures Clear(rowCover) && Clear(colCover)
  {
    stars := map[];
    for r := 0 to costs.Length0
      invariant Greedy(costs, marks, rowCover, colCover, stars)
      invariant forall q, d | 0 <= q < r && 0 <= d < costs.Length1 && costs[q, d] == 0.0 :: rowCover[q] || colCover[d]
    {
      for c := 0 to costs.Length1
        invariant Greedy(costs, marks, rowCover, colCover, stars)
        invariant forall q, d | 0 <= q < r && 0 <= d < costs.Length1 && costs[q, d] == 0.0 :: rowCover[q] || colCover[d]
        invariant forall d | 0 <= d < c && costs[r, d] == 0.0 :: rowCover[r] || colCover[d]
      {
        if costs[r, c] == 0.0 && !rowCover[r] && !colCover[c] {
          StarCell(costs, marks, rowCover, colCover, r, c, stars);
          stars := stars[r := c];
        }
      }
    }
    ClearCover(rowCover);
    ClearCover(colCover);
    step := 3;
  }

  ghost predicate Greedy(costs: array2<real>, marks: array2<Mark>, rowCover: array<bool>, colCover: array<bool>,
                         stars: Placement)
    reads costs, marks, rowCover, colCover
  {
    && Sized(costs, marks, rowCover, colCover)
    && Marked(marks, stars, map[]) && OneToOne(stars) && Tight(costs, stars)
    && (forall q | 0 <= q < rowCover.Length :: rowCover[q] <==> q in stars)
    && (forall d | 0 <= d < colCover.Length :: colCover[d] <==> d in Columns(stars))
  }

  method StarCell(costs: array2<real>, marks: array2<Mark>, rowCover: array<bool>, colCover: array<bool>,
                  r: int, c: int, ghost stars: Placement)
    requires Greedy(costs, marks, rowCover, colCover, stars)
    requires 0 <= r < costs.Length0 && 0 <= c < costs.Length1 && costs[r, c] == 0.0 && !rowCover[r] && !colCover[c]
    modifies marks, rowCover, colCover
    ensures Greedy(costs, marks, rowCover, colCover, stars[r := c])
    ensures rowCover[r] && forall q | 0 <= q < rowCover.Length :: old(rowCover[q]) ==> rowCover[q]
    ensures forall d | 0 <= d < colCover.Length :: old(colCover[d]) ==> colCover[d]
  {
    marks[r, c] := Star;
    rowCover[r] := true;
    colCover[c] := true;
    ghost var more := stars[r := c];
    forall d | 0 <= d < colCover.Length ensures colCover[d] <==> d in Columns(more) {
      if d in Columns(stars) {
        var q :| q in stars.Keys && stars[q] == d;
        assert q in more && more[q] == d;
      }
      assert r in more && more[r] == c;
    }
    assert forall q | q in stars :: stars[q] in Columns(stars);
  }

  method ClearCover(cover: array<bool>)
    modifies cover
    ensures Clear(cover)
  {
    for i := 0 to cover.Length
      invariant forall j | 0 <= j < i :: !cover[j]
    {
      cover[i] := false;
    }
  }

  method CoverStarredColumns(marks: array2<Mark>, colCover: array<bool>, ghost stars: Placement)
    requires marks.Length1 == colCover.Length
    requires Marked(marks, stars, map[]) && Clear(colCover)
    modifies colCover
    ensures forall c | 0 <= c < colCover.Length :: colCover[c] <==> c in Columns(stars)
  {
    for r := 0 to marks.Length0
      invariant forall c | 0 <= c < colCover.Length && colCover[c] :: c in Columns(stars)
      invariant forall q | 0 <= q < r && q in stars :: colCover[stars[q]]
    {
      for c := 0 to marks.Length1
        invariant forall d | 0 <= d < colCover.Length && colCover[d] :: d in Columns(stars)
        invariant forall q | 0 <= q < r && q in stars :: colCover[stars[q]]
        invariant r in stars && stars[r] < c ==> colCover[stars[r]]
      {
        if marks[r, c] == Star {
          assert r in stars.Keys && stars[r] == c;
          colCover[c] := true;
        }
      }
    }
  }

  ghost function Under(cols: set<int>, c: nat): set<int> {
    set d | d in cols && 0 <= d < c
  }

  lemma {:induction false} UnderNext(cols: set<int>, c: nat)
    ensures |Under(cols, c + 1)| == |Under(cols, c)| + (if c in cols then 1 else 0)
  {
    assert Under(cols, c + 1) == Under(cols, c) + (if c in cols then {c} else {});
  }

  method CountCovered(colCover: array<bool>, ghost cols: set<int>) returns (coveredCols: int)
    requires forall c | 0 <= c < colCover.Length :: colCover[c] <==> c in cols
    ensures coveredCols == |Under(cols, colCover.Length)|
  {
    coveredCols := 0;
    assert Under(cols, 0) == {};
    for c := 0 to colCover.Length
      invariant coveredCols == |Under(cols, c)|
    {
      UnderNext(cols, c);
      coveredCols := coveredCols + if colCover[c] then 1 else 0;
    }
  }

  lemma {:induction false} StarredColumnCount(stars: Placement, m: nat, n: nat)
    requires Placed(stars, m, n) && OneToOne(stars)
    ensures |Under(Columns(stars), n)| == |stars| <= m
  {
    assert Under(Columns(stars), n) == Columns(stars);
    ColumnsMatchRows(stars);
    PlacementSize(stars, m, n);
  }

  /** Covers the starred columns and is finished exactly when every row has a star. */
  method StepThree(marks: array2<Mark>, colCover: array<bool>, ghost stars: Placement) returns (step: int)
    requires marks.Length0 <= marks.Length1 == colCover.Length
    requires Marked(marks, stars, map[]) && OneToOne(stars) && Clear(colCover)
    modifies colCover
    ensures forall c | 0 <= c < colCover.Length :: colCover[c] <==> c in Columns(stars)
    ensures step == if |stars| == marks.Length0 then 7 else 4
  {
    CoverStarredColumns(marks, colCover, stars);
    var coveredCols := CountCovered(colCover, Columns(stars));
    StarredColumnCount(stars, marks.Length0, marks.Length1);
    step := if coveredCols == marks.Length1 || coveredCols >= marks.Length0 then 7 else 4;
  }

  // ---------------------------------------------------------------- step four

  /** What holds while zeros are being primed. */
  ghost predicate Searching(costs: array2<real>, marks: array2<Mark>, rowCover: array<bool>, colCover: array<bool>,
                            s: Search)
    reads costs, marks, rowCover, colCover
  {
    && Sized(costs, marks, rowCover, colCover)
    && Marked(marks, s.stars, s.primes) && OneToOne(s.stars)
    && Tight(costs, s.stars) && Tight(costs, s.primes)
    && Covered(rowCover, colCover, s) && Ordered(s)
    && s.primes.Keys <= s.stars.Keys
  }

  /** What step four hands to step five: the last row primed has no star, all others do. */
  ghost predicate Augmentable(marks: array2<Mark>, s: Search, row: int, col: int)
    reads marks
  {
    && Marked(marks, s.stars, s.primes) && OneToOne(s.stars) && Ordered(s)
    && s.order != [] && s.order[|s.order| - 1] == row
    && row !in s.stars && row in s.primes && s.primes[row] == col
    && forall r | r in s.primes && r != row :: r in s.stars
  }

  /** Priming a zero that no line covers keeps stars in prime columns in earlier rows. */
  lemma {:induction false} PrimingKeepsOrder(s: Search, t: Search, row: int, col: int)
    requires Ordered(s) && row !in s.primes
    requires t == Search(s.stars, s.primes[row := col], s.order + [row])
    requires forall r | r in s.stars && s.stars[r] == col :: r in s.primes
    ensures Ordered(t)
  {
    forall r ensures r in t.primes <==> r in t.order {
    }
    forall i, r | 0 <= i < |t.order| && r in t.stars && t.stars[r] == t.primes[t.order[i]]
      ensures r in t.order[..i]
    {
      assert t.order[..i] == s.order[..i];
      if i == |s.order| {
        assert s.order[..i] == s.order;
      } else {
        assert t.order[i] == s.order[i] && s.order[i] in s.primes;
      }
    }
  }

  ghost function Primed(s: Search, row: int, col: int): Search {
    Search(s.stars, s.primes[row := col], s.order + [row])
  }

  /** An open cell lies in a row that is not primed and in no column of a star that is not primed either. */
  lemma {:induction false} OpenCell(rowCover: array<bool>, colCover: array<bool>, s: Search, row: int, col: int)
    requires Covered(rowCover, colCover, s) && Open(rowCover, colCover, row, col)
    ensures row !in s.primes && col !in OpenStarColumns(s)
  {
  }

  lemma {:induction false} PrimedOrder(s: Search, row: int, col: int)
    requires Ordered(s) && row !in s.primes && col !in OpenStarColumns(s)
    ensures Ordered(Primed(s, row, col))
  {
    forall r | r in s.stars && s.stars[r] == col ensures r in s.primes {
      assert r in s.stars.Keys;
    }
    PrimingKeepsOrder(s, Primed(s, row, col), row, col);
  }

  lemma {:induction false} PrimedSize(s: Search, row: int, col: int, m: nat, n: nat)
    requires Placed(s.primes, m, n) && row !in s.primes && 0 <= row < m && 0 <= col < n
    ensures |Primed(s, row, col).primes| == |s.primes| + 1 <= m
  {
    var t := Primed(s, row, col);
    assert t.primes.Keys == s.primes.Keys + {row};
    PlacementSize(t.primes, m, n);
  }

  /** Priming an uncovered zero keeps the order and takes up a new row. */
  lemma {:induction false} PrimingKeeps(costs: array2<real>, marks: array2<Mark>, rowCover: array<bool>,
      colCover: array<bool>, s: Search, row: int, col: int)
    requires Searching(costs, marks, rowCover, colCover, s) && UncoveredZero(costs, rowCover, colCover, row, col)
    ensures row !in s.primes && (row in s.stars ==> s.stars[row] != col)
    ensures Ordered(Primed(s, row, col)) && Tight(costs, Primed(s, row, col).primes)
    ensures |Primed(s, row, col).primes| == |s.primes| + 1 <= costs.Length0
  {
    OpenCell(rowCover, colCover, s, row, col);
    PrimedOrder(s, row, col);
    PrimedSize(s, row, col, costs.Length0, costs.Length1);
    OpenStarInColumn(s, row, col);
  }

  /** Primes one uncovered zero; if its row has a star the line moves to the row, otherwise the search is over. */
  method PrimeZero(costs: array2<real>, marks: array2<Mark>, colCover: array<bool>, rowCover: array<bool>,
                   row: int, col: int, ghost s: Search)
    returns (found: bool)
    requires Searching(costs, marks, rowCover, colCover, s) && UncoveredZero(costs, rowCover, colCover, row, col)
    modifies marks, colCover, rowCover
    ensures Tight(costs, Primed(s, row, col).primes)
    ensures |Primed(s, row, col).primes| == |s.primes| + 1 <= costs.Length0
    ensures if found then Augmentable(marks, Primed(s, row, col), row, col)
            else Searching(costs, marks, rowCover, colCover, Primed(s, row, col))
  {
    ghost var t := Primed(s, row, col);
    PrimingKeeps(costs, marks, rowCover, colCover, s, row, col);
    PrimeCell(marks, row, col, s);
    var c := FindStarInRow(marks, row);
    RowStar(marks, t, row, c);
    found := c < 0;
    if !found {
      CoverRow(rowCover, colCover, row, c, s, t);
    }
  }

  /** Primes uncovered zeros until one lies in a row without a star, or none is left. */
  method StepFour(costs: array2<real>, marks: array2<Mark>, colCover: array<bool>, rowCover: array<bool>,
                  ghost s: Search)
    returns (step: int, firstPathRow: int, firstPathCol: int, ghost t: Search)
    requires Searching(costs, marks, rowCover, colCover, s)
    modifies marks, colCover, rowCover
    ensures step == 5 || step == 6
    ensures t.stars == s.stars && |s.order| <= |t.order|
    ensures step == 6 ==>
              && Searching(costs, marks, rowCover, colCover, t)
              && !HasUncoveredZero(costs, rowCover, colCover)
              && (old(HasUncoveredZero(costs, rowCover, colCover)) ==> |s.order| < |t.order|)
    ensures step == 5 ==> Augmentable(marks, t, firstPathRow, firstPathCol) && Tight(costs, t.primes)
  {
    t := s;
    firstPathRow, firstPathCol := -1, -1;
    PlacementSize(t.primes, costs.Length0, costs.Length1);
    while true
      invariant Searching(costs, marks, rowCover, colCover, t)
      invariant t.stars == s.stars && |s.order| <= |t.order| && |t.primes| <= costs.Length0
      invariant |s.order| == |t.order| ==> unchanged(rowCover) && unchanged(colCover)
      decreases costs.Length0 - |t.primes|
    {
      var row, col := FindUncoveredZero(costs, colCover, rowCover);
      if row < 0 && col < 0 {
        return 6, firstPathRow, firstPathCol, t;
      }
      var found := PrimeZero(costs, marks, colCover, rowCover, row, col, t);
      t := Primed(t, row, col);
      if found {
        return 5, row, col, t;
      }
    }
  }

  lemma {:induction false} RowStar(marks: array2<Mark>, s: Search, row: int, c: int)
    requires Marked(marks, s.stars, s.primes) && 0 <= row < marks.Length0 && -1 <= c < marks.Length1
    requires c >= 0 ==> marks[row, c] == Star
    requires c == -1 ==> forall d | 0 <= d < marks.Length1 :: marks[row, d] != Star
    ensures if c == -1 then row !in s.stars else row in s.stars && s.stars[row] == c
  {
    assert row in s.stars ==> marks[row, s.stars[row]] == Star;
  }

  method PrimeCell(marks: array2<Mark>, row: int, col: int, ghost s: Search)
    requires Marked(marks, s.stars, s.primes) && row !in s.primes
    requires 0 <= row < marks.Length0 && 0 <= col < marks.Length1 && (row in s.stars ==> s.stars[row] != col)
    modifies marks
    ensures Marked(marks, s.stars, s.primes[row := col])
  {
    marks[row, col] := Prime;
  }

  /** Moves the line over a star from its column to its row. */
  method CoverRow(rowCover: array<bool>, colCover: array<bool>, row: int, c: int, ghost s: Search, ghost t: Search)
    requires rowCover != colCover && Covered(rowCover, colCover, s) && OneToOne(s.stars)
    requires 0 <= row < rowCover.Length && 0 <= c < colCover.Length
    requires t.stars == s.stars && row !in s.primes && row in s.stars && s.stars[row] == c
    requires t.primes.Keys == s.primes.Keys + {row}
    modifies rowCover, colCover
    ensures Covered(rowCover, colCover, t)
  {
    rowCover[row] := true;
    colCover[c] := false;
    CoverAfterPriming(s, t, row, c);
  }

  /** A star in an open column sits in a primed row, so an open cell is not starred. */
  lemma {:induction false} OpenStarInColumn(s: Search, row: int, col: int)
    requires col !in OpenStarColumns(s) && row !in s.primes
    ensures row in s.stars ==> s.stars[row] != col
  {
    assert row in s.stars.Keys && row !in s.primes ==> s.stars[row] in OpenStarColumns(s);
  }

  /** Covering a primed row in place of its star's column releases that column only. */
  lemma {:induction false} CoverAfterPriming(s: Search, t: Search, row: int, c: int)
    requires OneToOne(s.stars) && t.stars == s.stars && row !in s.primes
    requires row in s.stars && s.stars[row] == c && t.primes.Keys == s.primes.Keys + {row}
    ensures OpenStarColumns(t) == OpenStarColumns(s) - {c}
  {
  }

  // ---------------------------------------------------------------- step five

  /** The rows of an alternating path: each star in a prime's column leads to the next row. */
  ghost predicate Alternating(s: Search, rows: seq<int>) {
    && rows != [] && rows[0] !in s.stars && Distinct(rows)
    && (forall i | 0 <= i < |rows| :: rows[i] in s.primes)
    && (forall i | 1 <= i < |rows| :: rows[i] in s.stars && s.stars[rows[i]] == s.primes[rows[i - 1]])
  }

  /** No star shares the column of the last prime, so the path ends there. */
  ghost predicate Complete(s: Search, rows: seq<int>) {
    && Alternating(s, rows)
    && s.primes[rows[|rows| - 1]] !in Columns(s.stars)
  }

  /** The cells along the path: prime, star, prime, ..., prime. */
  ghost function Cells(s: Search, rows: seq<int>): (cells: seq<(int, int)>)
    requires Alternating(s, rows)
    ensures |cells| == 2 * |rows| - 1
  {
    var last := rows[|rows| - 1];
    if |rows| == 1 then [(last, s.primes[last])]
    else Cells(s, rows[..|rows| - 1]) + [(last, s.stars[last]), (last, s.primes[last])]
  }

  lemma {:induction false} CellMembers(s: Search, rows: seq<int>)
    requires Alternating(s, rows)
    ensures forall x :: x in Cells(s, rows) <==>
              x.0 in rows && (x.1 == s.primes[x.0] || (x.0 in s.stars && x.1 == s.stars[x.0]))
  {
    var last := rows[|rows| - 1];
    if |rows| > 1 {
      var front := rows[..|rows| - 1];
      CellMembers(s, front);
      assert rows == front + [last];
    }
  }

  lemma {:induction false} CellsDistinct(s: Search, rows: seq<int>)
    requires Alternating(s, rows)
    requires forall r | r in s.stars && r in s.primes :: s.stars[r] != s.primes[r]
    ensures Distinct(Cells(s, rows))
  {
    if |rows| > 1 {
      var last := rows[|rows| - 1];
      var front := rows[..|rows| - 1];
      CellsDistinct(s, front);
      CellMembers(s, front);
      assert last !in front;
      var tail := [(last, s.stars[last]), (last, s.primes[last])];
      DistinctConcat(Cells(s, front), tail);
    }
  }

  lemma {:induction false} DistinctConcat<T>(a: seq<T>, b: seq<T>)
    requires Distinct(a) && Distinct(b)
    requires forall x | x in a :: x !in b
    ensures Distinct(a + b)
  {
    forall i, j | 0 <= i < j < |a + b| ensures (a + b)[i] != (a + b)[j] {
      if i < |a| <= j {
        assert a[i] in a && b[j - |a|] in b;
      }
    }
  }

  lemma {:induction false} ExtendPath(s: Search, rows: seq<int>, r: int)
    requires Alternating(s, rows) && r !in rows && r in s.primes
    requires r in s.stars && s.stars[r] == s.primes[rows[|rows| - 1]]
    ensures Alternating(s, rows + [r])
    ensures Cells(s, rows + [r]) == Cells(s, rows) + [(r, s.stars[r]), (r, s.primes[r])]
  {
    assert (rows + [r])[..|rows|] == rows;
  }

  lemma {:induction false} OrderFits(s: Search, m: nat, n: nat)
    requires Ordered(s) && Placed(s.primes, m, n)
    ensures |s.order| <= m
  {
    forall i | 0 <= i < |s.order| ensures 0 <= s.order[i] < m {
      assert s.order[i] in s.order;
    }
    DistinctFits(s.order, m);
  }

  /** 2m - 1 pairs fit in a buffer of n * n pairs. */
  lemma {:induction false} BufferFits(m: nat, n: nat)
    requires m <= n
    ensures 2 * (2 * m - 1) <= n * n * 2
  {
  }

  /** The first |cells| pairs of the path buffer. */
  ghost predicate Holds(path: array<int>, cells: seq<(int, int)>)
    reads path
  {
    && 2 * |cells| <= path.Length
    && forall p | 0 <= p < |cells| :: path[2 * p] == cells[p].0 && path[2 * p + 1] == cells[p].1
  }

  method AppendPair(path: array<int>, pathCount: int, r: int, c: int, ghost cells: seq<(int, int)>)
    returns (count: int)
    requires Holds(path, cells) && pathCount == |cells| && 2 * pathCount + 2 <= path.Length
    modifies path
    ensures count == pathCount + 1
    ensures Holds(path, cells + [(r, c)])
  {
    count := pathCount + 1;
    path[(count - 1) * 2] := r;
    path[(count - 1) * 2 + 1] := c;
  }

  /** Positions of the path's rows in priming order: they go strictly down. */
  ghost predicate Descending(s: Search, rows: seq<int>, at: seq<int>) {
    && |at| == |rows|
    && (forall i | 0 <= i < |at| :: 0 <= at[i] < |s.order| - i && s.order[at[i]] == rows[i])
    && (forall i, j | 0 <= i < j < |at| :: at[i] > at[j])
  }

  /** The star row met next was primed before every row already on the path. */
  lemma {:induction false} NextRow(s: Search, rows: seq<int>, at: seq<int>, r: int) returns (k: int)
    requires Ordered(s) && Alternating(s, rows) && Descending(s, rows, at)
    requires r in s.stars && s.stars[r] == s.primes[rows[|rows| - 1]]
    ensures 0 <= k < at[|at| - 1]
    ensures r !in rows && r in s.primes && Descending(s, rows + [r], at + [k])
  {
    var last := at[|at| - 1];
    assert s.order[last] == rows[|rows| - 1];
    assert r in s.order[..last];
    k :| 0 <= k < last && s.order[k] == r;
    assert r in s.order;
    forall i | 0 <= i < |rows| ensures rows[i] != r {
      assert s.order[at[i]] == rows[i] && k < at[i];
    }
    ExtendDescending(s, rows, at, r, k);
  }

  /** Rows at descending positions are no more than there are positions. */
  lemma {:induction false} DescendingFits(s: Search, rows: seq<int>, at: seq<int>)
    requires Descending(s, rows, at) && rows != []
    ensures |rows| <= |s.order|
  {
    assert 0 <= at[|at| - 1];
  }

  lemma {:induction false} ExtendDescending(s: Search, rows: seq<int>, at: seq<int>, r: int, k: int)
    requires Descending(s, rows, at) && at != [] && 0 <= k < at[|at| - 1] && s.order[k] == r
    ensures Descending(s, rows + [r], at + [k])
  {
  }

  /** Follows stars and primes alternately until a prime's column holds no star. */
  method TracePath(marks: array2<Mark>, path: array<int>, firstPathRow: int, firstPathCol: int, ghost s: Search)
    returns (pathCount: int, ghost rows: seq<int>)
    requires marks.Length0 <= marks.Length1
    requires 2 * (2 * marks.Length0 - 1) <= path.Length
    requires Augmentable(marks, s, firstPathRow, firstPathCol)
    modifies path
    ensures Complete(s, rows) && rows[0] == firstPathRow
    ensures pathCount == |Cells(s, rows)| <= 2 * marks.Length0 - 1
    ensures Holds(path, Cells(s, rows))
  {
    OrderFits(s, marks.Length0, marks.Length1);
    rows := [firstPathRow];
    pathCount := AppendPair(path, 0, firstPathRow, firstPathCol, []);
    assert Cells(s, rows) == [] + [(firstPathRow, firstPathCol)];
    ghost var at := [|s.order| - 1];
    var done := false;
    while !done
      invariant Traced(path, pathCount, s, rows, at) && rows[0] == firstPathRow
      invariant done ==> Complete(s, rows)
      decreases at[|at| - 1], !done
    {
      pathCount, done, rows, at := TraceStep(marks, path, pathCount, s, rows, at);
    }
  }

  /** The path found so far, with the priming positions of its rows. */
  ghost predicate Traced(path: array<int>, pathCount: int, s: Search, rows: seq<int>, at: seq<int>)
    reads path
  {
    && Alternating(s, rows) && Descending(s, rows, at)
    && pathCount == |Cells(s, rows)| && Holds(path, Cells(s, rows))
  }

  /** The last pair of the buffer holds the last prime of the path. */
  lemma {:induction false} LastColumn(path: array<int>, pathCount: int, s: Search, rows: seq<int>, at: seq<int>)
    requires Traced(path, pathCount, s, rows, at)
    ensures 0 < pathCount && 2 * pathCount <= path.Length && rows[|rows| - 1] in s.primes
    ensures path[(pathCount - 1) * 2 + 1] == s.primes[rows[|rows| - 1]]
  {
    LastCell(s, rows);
    assert Cells(s, rows)[pathCount - 1].1 == path[2 * (pathCount - 1) + 1];
  }

  /** One turn of the tracing loop: the path ends, or grows by a star and a prime. */
  method TraceStep(marks: array2<Mark>, path: array<int>, pathCount: int, ghost s: Search, ghost rows: seq<int>,
                   ghost at: seq<int>)
    returns (count: int, done: bool, ghost rows': seq<int>, ghost at': seq<int>)
    requires Marked(marks, s.stars, s.primes) && Ordered(s) && Traced(path, pathCount, s, rows, at)
    requires 2 * (2 * |s.order| - 1) <= path.Length
    modifies path
    ensures Traced(path, count, s, rows', at') && rows <= rows'
    ensures if done then rows' == rows && at' == at && Complete(s, rows) else at'[|at'| - 1] < at[|at| - 1]
  {
    LastColumn(path, pathCount, s, rows, at);
    var col := path[(pathCount - 1) * 2 + 1];
    var r := FindStarInCol(marks, col);
    StarSearch(marks, s, col, r);
    done := r < 0;
    if done {
      return pathCount, true, rows, at;
    }
    ghost var k := NextRow(s, rows, at, r);
    DescendingFits(s, rows + [r], at + [k]);
    count := ExtendTrace(marks, path, pathCount, r, col, s, rows);
    rows', at' := rows + [r], at + [k];
  }

  /** Appends the star of the next row and then that row's prime, which is always there. */
  method ExtendTrace(marks: array2<Mark>, path: array<int>, pathCount: int, r: int, col: int,
                     ghost s: Search, ghost rows: seq<int>)
    returns (count: int)
    requires Marked(marks, s.stars, s.primes) && Alternating(s, rows)
    requires r !in rows && r in s.primes && r in s.stars && s.stars[r] == s.primes[rows[|rows| - 1]] == col
    requires Holds(path, Cells(s, rows)) && pathCount == |Cells(s, rows)| && 2 * pathCount + 4 <= path.Length
    modifies path
    ensures Alternating(s, rows + [r]) && count == |Cells(s, rows + [r])|
    ensures Holds(path, Cells(s, rows + [r]))
  {
    ghost var cells := Cells(s, rows);
    ExtendPath(s, rows, r);
    count := AppendPair(path, pathCount, r, col, cells);
    var c := FindPrimeInRow(marks, r);
    assert marks[r, s.primes[r]] == Prime;
    count := AppendPair(path, count, r, c, cells + [(r, col)]);
    assert cells + [(r, col)] + [(r, c)] == Cells(s, rows + [r]);
  }

  /** What a search for a star in a column says about the starred columns. */
  lemma {:induction false} StarSearch(marks: array2<Mark>, s: Search, col: int, r: int)
    requires Marked(marks, s.stars, s.primes) && 0 <= col < marks.Length1 && -1 <= r < marks.Length0
    requires r >= 0 ==> marks[r, col] == Star
    requires r == -1 ==> forall q | 0 <= q < marks.Length0 :: marks[q, col] != Star
    ensures if r == -1 then col !in Columns(s.stars) else r in s.stars && s.stars[r] == col
  {
    assert forall q | q in s.stars :: marks[q, s.stars[q]] == Star;
  }

  lemma {:induction false} LastCell(s: Search, rows: seq<int>)
    requires Alternating(s, rows)
    ensures var last := rows[|rows| - 1]; Cells(s, rows)[2 * |rows| - 2] == (last, s.primes[last])
  {
  }

  function Toggle(mark: Mark): Mark {
    if mark == Star then None else Star
  }

  method AugmentPaths(path: array<int>, pathCount: int, marks: array2<Mark>, ghost cells: seq<(int, int)>)
    requires Holds(path, cells) && pathCount == |cells| && Distinct(cells)
    requires forall x | x in cells :: 0 <= x.0 < marks.Length0 && 0 <= x.1 < marks.Length1
    modifies marks
    ensures forall r, c | 0 <= r < marks.Length0 && 0 <= c < marks.Length1 ::
              marks[r, c] == if (r, c) in cells then Toggle(old(marks[r, c])) else old(marks[r, c])
  {
    for p := 0 to pathCount
      invariant forall r, c | 0 <= r < marks.Length0 && 0 <= c < marks.Length1 ::
                  marks[r, c] == if (r, c) in cells[..p] then Toggle(old(marks[r, c])) else old(marks[r, c])
    {
      var row := path[p * 2];
      var col := path[p * 2 + 1];
      assert cells[p] == (row, col) && cells[p] in cells && cells[p] !in cells[..p];
      assert cells[..p + 1] == cells[..p] + [cells[p]];
      marks[row, col] := if marks[row, col] == Star then None else Star;
    }
    assert cells[..pathCount] == cells;
  }

  method ErasePrimes(marks: array2<Mark>)
    modifies marks
    ensures forall r, c | 0 <= r < marks.Length0 && 0 <= c < marks.Length1 ::
              marks[r, c] == if old(marks[r, c]) == Prime then None else old(marks[r, c])
  {
    for c := 0 to marks.Length1
      invariant forall r, d | 0 <= r < marks.Length0 && 0 <= d < marks.Length1 ::
                  marks[r, d] == if d < c && old(marks[r, d]) == Prime then None else old(marks[r, d])
    {
      for r := 0 to marks.Length0
        invariant forall q, d | 0 <= q < marks.Length0 && 0 <= d < marks.Length1 ::
                    marks[q, d] == if (d < c || (d == c && q < r)) && old(marks[q, d]) == Prime then None
                                   else old(marks[q, d])
      {
        if marks[r, c] == Prime { marks[r, c] := None; }
      }
    }
  }

  /** Every row on the path takes its prime's column; the other stars stay. */
  ghost function Augmented(s: Search, rows: seq<int>): Placement
    requires Alternating(s, rows)
  {
    map r | r in s.stars.Keys + (set x | x in rows) :: if r in rows then s.primes[r] else s.stars[r]
  }

  /** The augmented stars are independent, occupy one row more, and free no column. */
  lemma {:induction false} AugmentedAddsOne(s: Search, rows: seq<int>)
    requires Complete(s, rows) && OneToOne(s.stars)
    ensures var t := Augmented(s, rows);
            && OneToOne(t)
            && t.Keys == s.stars.Keys + {rows[0]} && |t| == |s.stars| + 1
            && Columns(s.stars) <= Columns(t)
  {
    AugmentedRows(s, rows);
    AugmentedIsOneToOne(s, rows);
    AugmentedColumns(s, rows);
  }

  lemma {:induction false} AugmentedRows(s: Search, rows: seq<int>)
    requires Alternating(s, rows)
    ensures Augmented(s, rows).Keys == s.stars.Keys + {rows[0]}
    ensures |Augmented(s, rows)| == |s.stars| + 1
  {
  }

  lemma {:induction false} AugmentedIsOneToOne(s: Search, rows: seq<int>)
    requires Complete(s, rows) && OneToOne(s.stars)
    ensures OneToOne(Augmented(s, rows))
  {
    var t := Augmented(s, rows);
    forall q, r | q in t && r in t && q != r ensures t[q] != t[r] {
      if q in rows && r in rows {
        PrimesApart(s, rows, q, r);
      } else if q in rows {
        PrimeMissesStar(s, rows, q, r);
      } else if r in rows {
        PrimeMissesStar(s, rows, r, q);
      }
    }
  }

  lemma {:induction false} AugmentedColumns(s: Search, rows: seq<int>)
    requires Alternating(s, rows)
    ensures Columns(s.stars) <= Columns(Augmented(s, rows))
  {
    var t := Augmented(s, rows);
    forall c | c in Columns(s.stars) ensures c in Columns(t) {
      var r :| r in s.stars.Keys && s.stars[r] == c;
      if r in rows {
        var i :| 0 <= i < |rows| && rows[i] == r;
        var before := rows[i - 1];
        assert before in t.Keys && t[before] == c;
      } else {
        assert r in t.Keys && t[r] == c;
      }
    }
  }

  /** The prime of a path row sits in the column of the next path row's star, if there is a next row. */
  lemma {:induction false} PrimesApart(s: Search, rows: seq<int>, q: int, r: int)
    requires Complete(s, rows) && OneToOne(s.stars) && q in rows && r in rows && q != r
    ensures s.primes[q] != s.primes[r]
  {
    var i :| 0 <= i < |rows| && rows[i] == q;
    var j :| 0 <= j < |rows| && rows[j] == r;
    PrimeThenStar(s, rows, i);
    PrimeThenStar(s, rows, j);
    if i + 1 < |rows| && j + 1 < |rows| {
      assert rows[i + 1] != rows[j + 1];
    }
  }

  lemma {:induction false} PrimeThenStar(s: Search, rows: seq<int>, i: int)
    requires Complete(s, rows) && 0 <= i < |rows|
    ensures if i + 1 < |rows| then
              && rows[i + 1] in s.stars && s.stars[rows[i + 1]] == s.primes[rows[i]]
              && s.primes[rows[i]] in Columns(s.stars)
            else s.primes[rows[i]] !in Columns(s.stars)
  {
    if i + 1 < |rows| {
      var next := rows[i + 1];
      assert next in s.stars.Keys && s.stars[next] == s.primes[rows[i + 1 - 1]];
    }
  }

  lemma {:induction false} PrimeMissesStar(s: Search, rows: seq<int>, q: int, r: int)
    requires Complete(s, rows) && OneToOne(s.stars) && q in rows && r !in rows && r in s.stars
    ensures s.primes[q] != s.stars[r]
  {
    var i :| 0 <= i < |rows| && rows[i] == q;
    PrimeThenStar(s, rows, i);
    if i + 1 < |rows| {
      var next := rows[i + 1];
      assert next in rows && next != r;
      assert s.stars[next] != s.stars[r];
    } else {
      assert r in s.stars.Keys;
    }
  }

  /** Toggles the alternating path, which adds exactly one star, and starts the search over. */
  method StepFive(marks: array2<Mark>, colCover: array<bool>, rowCover: array<bool>, path: array<int>,
                  firstPathRow: int, firstPathCol: int, ghost s: Search)
    returns (step: int, ghost rows: seq<int>)
    requires marks.Length0 <= marks.Length1 && 2 * (2 * marks.Length0 - 1) <= path.Length
    requires rowCover != colCover
    requires Augmentable(marks, s, firstPathRow, firstPathCol)
    modifies marks, colCover, rowCover, path
    ensures step == 3
    ensures Complete(s, rows) && rows[0] == firstPathRow
    ensures Marked(marks, Augmented(s, rows), map[])
    ensures Clear(rowCover) && Clear(colCover)
  {
    var pathCount;
    pathCount, rows := TracePath(marks, path, firstPathRow, firstPathCol, s);
    ghost var cells := Cells(s, rows);
    CellsDistinct(s, rows);
    CellMembers(s, rows);
    AugmentPaths(path, pathCount, marks, cells);
    ClearCover(colCover);
    ClearCover(rowCover);
    ErasePrimes(marks);
    step := 3;
  }

  // ---------------------------------------------------------------- step six

  ghost predicate Open(rowCover: array<bool>, colCover: array<bool>, r: int, c: int)
    reads rowCover, colCover
  {
    0 <= r < rowCover.Length && 0 <= c < colCover.Length && !rowCover[r] && !colCover[c]
  }

  /** With a starless row left, some cell lies under no line. */
  lemma {:induction false} SomeCellOpen(rowCover: array<bool>, colCover: array<bool>, s: Search)
    requires rowCover.Length <= colCover.Length
    requires Placed(s.stars, rowCover.Length, colCover.Length) && OneToOne(s.stars)
    requires Covered(rowCover, colCover, s) && s.primes.Keys <= s.stars.Keys
    requires |s.stars| < rowCover.Length
    ensures exists r, c :: Open(rowCover, colCover, r, c)
  {
    PlacementSize(s.stars, rowCover.Length, colCover.Length);
    var r :| 0 <= r < rowCover.Length && r !in s.stars;
    assert r !in s.primes;
    ColumnsMatchRows(s.stars);
    var cols := Below(colCover.Length);
    if cols <= Columns(s.stars) {
      SubsetSize(cols, Columns(s.stars));
      assert false;
    }
    var c :| c in cols && c !in Columns(s.stars);
    assert Open(rowCover, colCover, r, c);
  }

  method FindSmallestNotCovered(costs: array2<real>, colCover: array<bool>, rowCover: array<bool>)
    returns (minVal: real)
    requires costs.Length0 == rowCover.Length && costs.Length1 == colCover.Length
    requires exists r, c :: Open(rowCover, colCover, r, c)
    ensures exists r, c :: Open(rowCover, colCover, r, c) && costs[r, c] == minVal
    ensures forall r, c | Open(rowCover, colCover, r, c) :: minVal <= costs[r, c]
  {
    var least := Unset;
    ghost var atRow, atCol := -1, -1;
    for c := 0 to costs.Length1
      invariant forall r, d | Open(rowCover, colCover, r, d) && d < c :: least != Unset && least.value <= costs[r, d]
      invariant least != Unset ==> Open(rowCover, colCover, atRow, atCol) && costs[atRow, atCol] == least.value
    {
      for r := 0 to costs.Length0
        invariant forall q, d | Open(rowCover, colCover, q, d) && (d < c || (d == c && q < r)) ::
                    least != Unset && least.value <= costs[q, d]
        invariant least != Unset ==> Open(rowCover, colCover, atRow, atCol) && costs[atRow, atCol] == least.value
      {
        if !colCover[c] && !rowCover[r] {
          var cost := costs[r, c];
          if least == Unset || cost < least.value {
            least := Least(cost);
            atRow, atCol := r, c;
          }
        }
      }
    }
    minVal := least.value;
  }

  method ShiftCosts(costs: array2<real>, colCover: array<bool>, rowCover: array<bool>, minVal: real)
    requires costs.Length0 == rowCover.Length && costs.Length1 == colCover.Length
    modifies costs
    ensures forall r, c | 0 <= r < costs.Length0 && 0 <= c < costs.Length1 ::
              costs[r, c] == old(costs[r, c]) + Shift(rowCover, colCover, minVal, r, c)
  {
    for c := 0 to costs.Length1
      invariant forall q, d | 0 <= q < costs.Length0 && 0 <= d < costs.Length1 ::
                  costs[q, d] == old(costs[q, d]) + (if d < c then Shift(rowCover, colCover, minVal, q, d) else 0.0)
    {
      for r := 0 to costs.Length0
        invariant forall q, d | 0 <= q < costs.Length0 && 0 <= d < costs.Length1 ::
                    costs[q, d] == old(costs[q, d]) +
                      (if d < c || (d == c && q < r) then Shift(rowCover, colCover, minVal, q, d) else 0.0)
      {
        if rowCover[r] { costs[r, c] := costs[r, c] + minVal; }
        if !colCover[c] { costs[r, c] := costs[r, c] - minVal; }
      }
    }
  }

  ghost function Shift(rowCover: array<bool>, colCover: array<bool>, x: real, r: int, c: int): real
    requires 0 <= r < rowCover.Length && 0 <= c < colCover.Length
    reads rowCover, colCover
  {
    (if rowCover[r] then x else 0.0) - (if colCover[c] then 0.0 else x)
  }

  /** Row potentials after a shift: raised on the rows without a line. */
  ghost function Raised(u: seq<real>, primes: Placement, x: real): seq<real> {
    seq(|u|, r requires 0 <= r < |u| => if r in primes then u[r] else u[r] + x)
  }

  /** Column potentials after a shift: lowered on the columns under a line. */
  ghost function Lowered(v: seq<real>, cols: set<int>, x: real): seq<real> {
    seq(|v|, c requires 0 <= c < |v| => if c in cols then v[c] - x else v[c])
  }

  /** Shifts by the smallest open cost, which is positive, and so opens an uncovered zero. */
  method StepSix(costs: array2<real>, marks: array2<Mark>, colCover: array<bool>, rowCover: array<bool>,
                 ghost s: Search, ghost a: Matrix, ghost u: seq<real>, ghost v: seq<real>)
    returns (step: int, minVal: real)
    requires Searching(costs, marks, rowCover, colCover, s) && |s.stars| < costs.Length0
    requires Reduced(costs, a, u, v) && Supported(v, s.stars)
    requires !HasUncoveredZero(costs, rowCover, colCover)
    modifies costs
    ensures step == 4 && minVal > 0.0
    ensures Reduced(costs, a, Raised(u, s.primes, minVal), Lowered(v, OpenStarColumns(s), minVal))
    ensures Supported(Lowered(v, OpenStarColumns(s), minVal), s.stars)
    ensures Searching(costs, marks, rowCover, colCover, s)
    ensures HasUncoveredZero(costs, rowCover, colCover)
  {
    SomeCellOpen(rowCover, colCover, s);
    minVal := FindSmallestNotCovered(costs, colCover, rowCover);
    ghost var r, c :| Open(rowCover, colCover, r, c) && costs[r, c] == minVal;
    assert !UncoveredZero(costs, rowCover, colCover, r, c);
    assert forall q, d | Open(rowCover, colCover, q, d) :: minVal <= costs[q, d];
    ghost var u', v' := Raised(u, s.primes, minVal), Lowered(v, OpenStarColumns(s), minVal);
    ShiftCosts(costs, colCover, rowCover, minVal);
    assert UncoveredZero(costs, rowCover, colCover, r, c);
    forall q, d | 0 <= q < costs.Length0 && 0 <= d < costs.Length1
      ensures costs[q, d] == a[q][d] - u'[q] - v'[d] && costs[q, d] >= 0.0
    {
      assert !rowCover[q] && !colCover[d] ==> Open(rowCover, colCover, q, d);
    }
    assert Tight(costs, s.stars) by {
      forall q | q in s.stars ensures costs[q, s.stars[q]] == 0.0 {
        StarUnderOneLine(s, q);
      }
    }
    assert Tight(costs, s.primes) by {
      forall q | q in s.primes ensures costs[q, s.primes[q]] == 0.0 {
        PrimeColumnOpen(s, q);
      }
    }
    step := 4;
  }

  lemma {:induction false} StarUnderOneLine(s: Search, r: int)
    requires OneToOne(s.stars) && r in s.stars
    ensures s.stars[r] in OpenStarColumns(s) <==> r !in s.primes
  {
  }

  /** The column of a prime never lies under a line. */
  lemma {:induction false} PrimeColumnOpen(s: Search, r: int)
    requires Ordered(s) && r in s.primes
    ensures s.primes[r] !in OpenStarColumns(s)
  {
  }

  // ---------------------------------------------------------------- the step machine

  /** What each value of `step` means for the buffers. */
  ghost predicate Phase(step: int, shifted: bool, costs: array2<real>, marks: array2<Mark>, rowCover: array<bool>,
                        colCover: array<bool>, s: Search, row: int, col: int,
                        a: Matrix, u: seq<real>, v: seq<real>)
    reads costs, marks, rowCover, colCover
  {
    && 1 <= step <= 7
    && Sized(costs, marks, rowCover, colCover)
    && Placed(s.stars, costs.Length0, costs.Length1)
    && |s.order| <= costs.Length0
    && Tight(costs, s.stars) && OneToOne(s.stars)
    && (step == 1 ==> a == Snapshot(costs))
    && (step > 1 ==> Reduced(costs, a, u, v) && Supported(v, s.stars))
    && (step <= 3 || step == 7 ==> s.primes == map[] && s.order == [] && Marked(marks, s.stars, map[]))
    && (step <= 3 ==> Clear(rowCover) && Clear(colCover))
    && (step <= 2 ==> s.stars == map[])
    && (step == 4 || step == 6 ==> |s.stars| < costs.Length0 && Searching(costs, marks, rowCover, colCover, s))
    && (step == 4 && shifted ==> HasUncoveredZero(costs, rowCover, colCover))
    && (step == 6 ==> !HasUncoveredZero(costs, rowCover, colCover))
    && (step == 5 ==> Augmentable(marks, s, row, col) && Tight(costs, s.primes))
    && (step == 7 ==> |s.stars| == costs.Length0)
  }

  /** How far a step is from the next change of the stars or of the primed rows. */
  ghost function Rank(step: int, shifted: bool): int {
    match step
    case 1 => 7
    case 2 => 6
    case 3 => 5
    case 4 => if shifted then 2 else 4
    case 6 => 3
    case 5 => 1
    case _ => 0
  }

  /** A star in every row, read off as the column of each row. */
  ghost function Assigned(stars: Placement, m: nat): seq<int>
    requires forall r | 0 <= r < m :: r in stars
  {
    seq(m, r requires 0 <= r < m => stars[r])
  }

  lemma {:induction false} StarsAreOptimal(costs: array2<real>, stars: Placement, a: Matrix, u: seq<real>, v: seq<real>)
    requires Reduced(costs, a, u, v) && Supported(v, stars) && Tight(costs, stars) && OneToOne(stars)
    requires |stars| == costs.Length0
    ensures forall r | 0 <= r < costs.Length0 :: r in stars
    ensures Optimal(a, Assigned(stars, costs.Length0), costs.Length0, costs.Length1)
  {
    PlacementSize(stars, costs.Length0, costs.Length1);
    var f := Assigned(stars, costs.Length0);
    assert IsAssignment(f, costs.Length0, costs.Length1);
    forall r, c | 0 <= r < |u| && 0 <= c < |v| ensures u[r] + v[c] <= a[r][c] {
      assert costs[r, c] >= 0.0;
    }
    forall r | 0 <= r < |u| ensures u[r] + v[f[r]] == a[r][f[r]] {
      assert costs[r, stars[r]] == 0.0;
    }
    forall c | 0 <= c < |v| && v[c] != 0.0 ensures c in f {
      var r :| r in stars.Keys && stars[r] == c;
      assert f[r] == c;
    }
    ComplementarySlackness(a, u, v, f, costs.Length1);
  }

  lemma {:induction false} NoPrimesCover(rowCover: array<bool>, colCover: array<bool>, s: Search)
    requires s.primes == map[] && Clear(rowCover)
    requires forall c | 0 <= c < colCover.Length :: colCover[c] <==> c in Columns(s.stars)
    ensures Covered(rowCover, colCover, s)
  {
  }

  /** The progress of one step: more stars, or as many stars and more primed rows, or a lower rank. */
  ghost predicate Progress(s: Search, step: int, shifted: bool, s': Search, step': int, shifted': bool) {
    || |s.stars| < |s'.stars|
    || (|s.stars| == |s'.stars| && |s.order| < |s'.order|)
    || (|s.stars| == |s'.stars| && |s.order| == |s'.order| && 0 <= Rank(step', shifted') < Rank(step, shifted))
  }

  /** One of the steps that set up the stars and the covers. */
  method Prepare(step: int, costs: array2<real>, marks: array2<Mark>, rowCover: array<bool>, colCover: array<bool>,
                 row: int, col: int, ghost s: Search, ghost a: Matrix, ghost u: seq<real>, ghost v: seq<real>)
    returns (step': int, ghost s': Search, ghost u': seq<real>, ghost v': seq<real>)
    requires step <= 3 && Phase(step, false, costs, marks, rowCover, colCover, s, row, col, a, u, v)
    modifies costs, marks, rowCover, colCover
    ensures Phase(step', false, costs, marks, rowCover, colCover, s', row, col, a, u', v')
    ensures Progress(s, step, false, s', step', false)
  {
    step', s', u', v' := step, s, u, v;
    match step {
      case 1 =>
        step', u' := StepOne(costs);
        v' := seq(costs.Length1, _ => 0.0);
      case 2 =>
        ghost var stars;
        step', stars := StepTwo(costs, marks, colCover, rowCover);
        s' := Search(stars, map[], []);
      case 3 =>
        step' := StepThree(marks, colCover, s.stars);
        NoPrimesCover(rowCover, colCover, s);
        PlacementSize(s.stars, costs.Length0, costs.Length1);
    }
  }

  /** One of the steps that search for an augmenting path. */
  method Improve(step: int, costs: array2<real>, marks: array2<Mark>, rowCover: array<bool>, colCover: array<bool>,
                 path: array<int>, row: int, col: int, ghost shifted: bool, ghost s: Search,
                 ghost a: Matrix, ghost u: seq<real>, ghost v: seq<real>)
    returns (step': int, row': int, col': int, ghost shifted': bool, ghost s': Search,
             ghost u': seq<real>, ghost v': seq<real>)
    requires 4 <= step <= 6 && Phase(step, shifted, costs, marks, rowCover, colCover, s, row, col, a, u, v)
    requires 2 * (2 * costs.Length0 - 1) <= path.Length
    modifies costs, marks, rowCover, colCover, path
    ensures Phase(step', shifted', costs, marks, rowCover, colCover, s', row', col', a, u', v')
    ensures Progress(s, step, shifted, s', step', shifted')
    ensures step' == 3 ==> !shifted'
  {
    step', row', col', shifted', s', u', v' := step, row, col, shifted, s, u, v;
    match step {
      case 4 =>
        step', row', col', s' := StepFour(costs, marks, colCover, rowCover, s);
        OrderFits(s', costs.Length0, costs.Length1);
      case 5 =>
        ghost var rows;
        step', rows := StepFive(marks, colCover, rowCover, path, row, col, s);
        AugmentedAddsOne(s, rows);
        AugmentedIsTight(costs, s, rows);
        SupportGrows(v, s.stars, Augmented(s, rows));
        s', shifted' := Search(Augmented(s, rows), map[], []), false;
      case 6 =>
        var minVal;
        step', minVal := StepSix(costs, marks, colCover, rowCover, s, a, u, v);
        u', v' := Raised(u, s.primes, minVal), Lowered(v, OpenStarColumns(s), minVal);
        shifted' := true;
    }
  }

  /**
   The matrix overload: runs the steps until step seven. The marks must start out as None.
   On return each row has exactly one star, the other marks are None, and the stars are an
   assignment of least total original cost.
   */
  method AssignmentMatrix(costs: array2<real>, marks: array2<Mark>) returns (ghost columns: seq<int>)
    requires costs.Length0 <= costs.Length1
    requires marks.Length0 == costs.Length0 && marks.Length1 == costs.Length1
    requires forall r, c | 0 <= r < marks.Length0 && 0 <= c < marks.Length1 :: marks[r, c] == None
    modifies costs, marks
    ensures Optimal(old(Snapshot(costs)), columns, costs.Length0, costs.Length1)
    ensures forall r, c | 0 <= r < marks.Length0 && 0 <= c < marks.Length1 ::
              marks[r, c] == if c == columns[r] then Star else None
  {
    var m, n := costs.Length0, costs.Length1;
    ghost var a := Snapshot(costs);
    var rowCover := new bool[m](_ => false);
    var colCover := new bool[n](_ => false);
    BufferFits(m, n);
    var path := new int[n * n * 2];
    var firstPathRow, firstPathCol := -1, -1;
    ghost var s := Search(map[], map[], []);
    ghost var shifted, u: seq<real>, v: seq<real> := false, [], [];
    var step := 1;
    FirstPhase(costs, marks, rowCover, colCover);
    while step != 7
      invariant Phase(step, shifted, costs, marks, rowCover, colCover, s, firstPathRow, firstPathCol, a, u, v)
      invariant fresh(rowCover) && fresh(colCover) && fresh(path)
      invariant 2 * (2 * m - 1) <= path.Length && (step <= 3 ==> !shifted)
      decreases m - |s.stars|, m - |s.order|, Rank(step, shifted)
    {
      PlacementSize(s.stars, m, n);
      if step <= 3 {
        step, s, u, v := Prepare(step, costs, marks, rowCover, colCover, firstPathRow, firstPathCol, s, a, u, v);
      } else {
        step, firstPathRow, firstPathCol, shifted, s, u, v :=
          Improve(step, costs, marks, rowCover, colCover, path, firstPathRow, firstPathCol, shifted, s, a, u, v);
      }
    }
    columns := LastPhase(costs, marks, rowCover, colCover, s, firstPathRow, firstPathCol, a, u, v);
  }

  lemma {:induction false} FirstPhase(costs: array2<real>, marks: array2<Mark>, rowCover: array<bool>,
      colCover: array<bool>)
    requires Sized(costs, marks, rowCover, colCover) && Clear(rowCover) && Clear(colCover)
    requires forall r, c | 0 <= r < marks.Length0 && 0 <= c < marks.Length1 :: marks[r, c] == None
    ensures Phase(1, false, costs, marks, rowCover, colCover, Search(map[], map[], []), -1, -1, Snapshot(costs), [], [])
  {
  }

  lemma {:induction false} LastPhase(costs: array2<real>, marks: array2<Mark>, rowCover: array<bool>,
      colCover: array<bool>, s: Search, row: int, col: int, a: Matrix, u: seq<real>, v: seq<real>)
    returns (columns: seq<int>)
    requires Phase(7, false, costs, marks, rowCover, colCover, s, row, col, a, u, v)
      || Phase(7, true, costs, marks, rowCover, colCover, s, row, col, a, u, v)
    ensures Optimal(a, columns, costs.Length0, costs.Length1)
    ensures forall r, c | 0 <= r < marks.Length0 && 0 <= c < marks.Length1 ::
              marks[r, c] == if c == columns[r] then Star else None
  {
    StarsAreOptimal(costs, s.stars, a, u, v);
    columns := Assigned(s.stars, costs.Length0);
  }

  lemma {:induction false} AugmentedIsTight(costs: array2<real>, s: Search, rows: seq<int>)
    requires Alternating(s, rows) && Tight(costs, s.stars) && Tight(costs, s.primes)
    ensures Tight(costs, Augmented(s, rows))
  {
  }

  lemma {:induction false} SupportGrows(v: seq<real>, stars: Placement, more: Placement)
    requires Supported(v, stars) && Columns(stars) <= Columns(more)
    ensures Supported(v, more)
  {
  }

  /** Lists the stars row by row; buffers may be longer than needed. */
  method StepSeven(marks: array2<Mark>, rowIdxs: array<int>, colIdxs: array<int>, ghost columns: seq<int>)
    requires rowIdxs != colIdxs && marks.Length0 == |columns|
    requires marks.Length0 <= rowIdxs.Length && marks.Length0 <= colIdxs.Length
    requires IsAssignment(columns, marks.Length0, marks.Length1)
    requires forall r, c | 0 <= r < marks.Length0 && 0 <= c < marks.Length1 :: marks[r, c] == Star <==> c == columns[r]
    modifies rowIdxs, colIdxs
    ensures forall r | 0 <= r < marks.Length0 :: rowIdxs[r] == r
    ensures colIdxs[..marks.Length0] == columns
    ensures rowIdxs[marks.Length0..] == old(rowIdxs[marks.Length0..])
    ensures colIdxs[marks.Length0..] == old(colIdxs[marks.Length0..])
  {
    var i := 0;
    for r := 0 to marks.Length0
      invariant i == r
      invariant forall q | 0 <= q < r :: rowIdxs[q] == q && colIdxs[q] == columns[q]
      invariant forall q | marks.Length0 <= q < rowIdxs.Length :: rowIdxs[q] == old(rowIdxs[q])
      invariant forall q | marks.Length0 <= q < colIdxs.Length :: colIdxs[q] == old(colIdxs[q])
    {
      for c := 0 to marks.Length1
        invariant i == if columns[r] < c then r + 1 else r
        invariant forall q | 0 <= q < i :: rowIdxs[q] == q && colIdxs[q] == columns[q]
        invariant forall q | marks.Length0 <= q < rowIdxs.Length :: rowIdxs[q] == old(rowIdxs[q])
        invariant forall q | marks.Length0 <= q < colIdxs.Length :: colIdxs[q] == old(colIdxs[q])
      {
        if marks[r, c] == Star {
          rowIdxs[i] := r;
          colIdxs[i] := c;
          i := i + 1;
        }
      }
    }
  }

  /** The index overload: the least-cost assignment as M (row, column) pairs in row order. */
  method AssignmentPairs(costs: array2<real>, rowIdxs: array<int>, colIdxs: array<int>)
    requires costs.Length0 <= costs.Length1
    requires rowIdxs != colIdxs && costs.Length0 <= rowIdxs.Length && costs.Length0 <= colIdxs.Length
    modifies costs, rowIdxs, colIdxs
    ensures forall r | 0 <= r < costs.Length0 :: rowIdxs[r] == r
    ensures Optimal(old(Snapshot(costs)), colIdxs[..costs.Length0], costs.Length0, costs.Length1)
    ensures rowIdxs[costs.Length0..] == old(rowIdxs[costs.Length0..])
    ensures colIdxs[costs.Length0..] == old(colIdxs[costs.Length0..])
  {
    var marks := new Mark[costs.Length0, costs.Length1]((_, _) => None);
    ghost var columns := AssignmentMatrix(costs, marks);
    StepSeven(marks, rowIdxs, colIdxs, columns);
  }
}

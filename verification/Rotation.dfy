/**
 relativePositionEmbeddingRotate and its gradient in flashlight/fl/autograd/Functions.cpp, on
 one slice of the last two dimensions. Matrices are stored by columns, as ArrayFire stores
 them; the rotation is a matter of padding, reinterpreting and cutting that storage.
 */
module Rotation {
  import opened Integers
  import Reals

  // ---------------------------------------------------------------- matrices stored by columns

  datatype Matrix = Matrix(rows: nat, cols: nat, data: seq<real>)

  ghost predicate Valid(m: Matrix) {
    |m.data| == Area(m.rows, m.cols)
  }

  /** Where cell (i, j) is stored. */
  function Slot(rows: nat, i: nat, j: nat): nat {
    j * rows + i
  }

  lemma {:induction false} SlotInside(rows: nat, cols: nat, i: nat, j: nat)
    requires i < rows && j < cols
    ensures Slot(rows, i, j) < Area(rows, cols)
  {
    assert (j + 1) * rows <= cols * rows;
  }

  lemma {:induction false} SlotDivides(rows: nat, i: nat, j: nat)
    requires i < rows
    ensures Slot(rows, i, j) / rows == j && Slot(rows, i, j) % rows == i
  {
    var q, r := Slot(rows, i, j) / rows, Slot(rows, i, j) % rows;
    assert q * rows + r == j * rows + i;
    assert q < j ==> (q + 1) * rows <= j * rows;
    assert j < q ==> (j + 1) * rows <= q * rows;
  }

  lemma {:induction false} SlotOf(rows: nat, cols: nat, f: nat)
    requires f < Area(rows, cols)
    ensures rows > 0 && f % rows < rows && f / rows < cols && Slot(rows, f % rows, f / rows) == f
  {
    assert rows > 0;
  }

  function Cell(m: Matrix, i: nat, j: nat): real
    requires Valid(m) && i < m.rows && j < m.cols
  {
    SlotInside(m.rows, m.cols, i, j);
    m.data[Slot(m.rows, i, j)]
  }

  /** Matrices with the same cells are the same. */
  lemma {:induction false} SameCells(a: Matrix, b: Matrix)
    requires Valid(a) && Valid(b) && a.rows == b.rows && a.cols == b.cols
    requires forall i: nat, j: nat | i < a.rows && j < a.cols :: Cell(a, i, j) == Cell(b, i, j)
    ensures a == b
  {
    forall f | 0 <= f < |a.data| ensures a.data[f] == b.data[f] {
      SlotOf(a.rows, a.cols, f);
      assert Cell(a, f % a.rows, f / a.rows) == Cell(b, f % a.rows, f / a.rows);
    }
  }

  /** The first n rows. */
  function Rows(m: Matrix, n: nat): (r: Matrix)
    requires Valid(m) && n <= m.rows
    ensures Valid(r) && r.rows == n && r.cols == m.cols
  {
    Matrix(n, m.cols, seq(Area(n, m.cols), f requires 0 <= f < Area(n, m.cols) =>
      SlotOf(n, m.cols, f);
      Cell(m, f % n, f / n)))
  }

  lemma {:induction false} RowsCell(m: Matrix, n: nat, i: nat, j: nat)
    requires Valid(m) && n <= m.rows && i < n && j < m.cols
    ensures Cell(Rows(m, n), i, j) == Cell(m, i, j)
  {
    SlotInside(n, m.cols, i, j);
    SlotDivides(n, i, j);
  }

  /** n rows of zeros below a matrix. */
  function Pad(m: Matrix, n: nat): (r: Matrix)
    requires Valid(m)
    ensures Valid(r) && r.rows == m.rows + n && r.cols == m.cols
  {
    var rows := m.rows + n;
    Matrix(rows, m.cols, seq(Area(rows, m.cols), f requires 0 <= f < Area(rows, m.cols) =>
      SlotOf(rows, m.cols, f);
      if f % rows < m.rows then Cell(m, f % rows, f / rows) else 0.0))
  }

  lemma {:induction false} PadCell(m: Matrix, n: nat, i: nat, j: nat)
    requires Valid(m) && i < m.rows + n && j < m.cols
    ensures Cell(Pad(m, n), i, j) == if i < m.rows then Cell(m, i, j) else 0.0
  {
    SlotInside(m.rows + n, m.cols, i, j);
    SlotDivides(m.rows + n, i, j);
  }

  /** The same storage with other dimensions. */
  function Reshape(m: Matrix, rows: nat, cols: nat): (r: Matrix)
    requires Valid(m) && Area(rows, cols) == Area(m.rows, m.cols)
    ensures Valid(r)
  {
    Matrix(rows, cols, m.data)
  }

  // ---------------------------------------------------------------- the rotation

  lemma {:induction false} Areas(d0: nat, d1: nat)
    requires d0 > 0 && d1 > 0
    ensures Area(d0 + d1 - 1, d1) + d1 == Area(d0 + d1, d1)
    ensures Area(Area(d0 + d1, d1), 1) == Area(d0 + d1, d1) && Area(Area(d0 + d1 - 1, d1), 1) == Area(d0 + d1 - 1, d1)
  {
  }

  function Rotate(m: Matrix): (r: Matrix)
    requires Valid(m) && m.rows > 0 && m.cols > 0
    ensures Valid(r) && r.rows == m.rows + m.cols - 1 && r.cols == m.cols
  {
    var d0, d1 := m.rows, m.cols;
    Areas(d0, d1);
    var padded := Pad(m, d1);
    var flat := Reshape(padded, Area(d0 + d1, d1), 1);
    var cut := Rows(flat, Area(d0 + d1 - 1, d1));
    Reshape(cut, d0 + d1 - 1, d1)
  }

  /** The gradient function, for an input with d0 rows. */
  function RotateGradient(g: Matrix, d0: nat): (r: Matrix)
    requires Valid(g) && d0 > 0 && g.cols > 0 && g.rows == d0 + g.cols - 1
    ensures Valid(r) && r.rows == d0 && r.cols == g.cols
  {
    var d1 := g.cols;
    Areas(d0, d1);
    var flat := Reshape(g, Area(d0 + d1 - 1, d1), 1);
    var longer := Pad(flat, d1);
    Rows(Reshape(longer, d0 + d1, d1), d0)
  }

  /** A single column is its storage. */
  lemma {:induction false} ColumnCell(m: Matrix, f: nat)
    requires Valid(m) && m.cols == 1 && f < m.rows
    ensures |m.data| == m.rows && Cell(m, f, 0) == m.data[f]
  {
  }

  /** Cutting the flattened, padded matrix keeps its storage. */
  lemma {:induction false} RotateStorage(m: Matrix, f: nat)
    requires Valid(m) && m.rows > 0 && m.cols > 0 && f < Area(m.rows + m.cols - 1, m.cols)
    ensures f < |Pad(m, m.cols).data| && Rotate(m).data[f] == Pad(m, m.cols).data[f]
  {
    var d0, d1 := m.rows, m.cols;
    Areas(d0, d1);
    var flat := Reshape(Pad(m, d1), Area(d0 + d1, d1), 1);
    var n := Area(d0 + d1 - 1, d1);
    RowsCell(flat, n, f, 0);
    ColumnCell(Rows(flat, n), f);
    ColumnCell(flat, f);
  }

  lemma {:induction false} SlotShift(d: nat, i: nat, j: nat)
    requires d > 0 && j <= i
    ensures Slot(d - 1, i, j) == Slot(d, i - j, j)
  {
  }

  lemma {:induction false} SlotWrap(d: nat, i: nat, j: nat)
    requires d > 0 && i < j <= d + i
    ensures Slot(d - 1, i, j) == Slot(d, d + i - j, j - 1)
  {
  }

  /** A rotated cell is the padded cell that has its slot. */
  lemma {:induction false} RotateSlot(m: Matrix, i: nat, j: nat, a: nat, b: nat)
    requires Valid(m) && m.rows > 0 && m.cols > 0 && i < m.rows + m.cols - 1 && j < m.cols
    requires a < m.rows + m.cols && b < m.cols && Slot(m.rows + m.cols - 1, i, j) == Slot(m.rows + m.cols, a, b)
    ensures Cell(Rotate(m), i, j) == if a < m.rows then Cell(m, a, b) else 0.0
  {
    SlotInside(m.rows + m.cols - 1, m.cols, i, j);
    RotateStorage(m, Slot(m.rows + m.cols - 1, i, j));
    PadCell(m, m.cols, a, b);
  }

  /** Each column moves down by its number; the rest is zero. */
  lemma {:induction false} RotateCell(m: Matrix, i: nat, j: nat)
    requires Valid(m) && m.rows > 0 && m.cols > 0 && i < m.rows + m.cols - 1 && j < m.cols
    ensures Cell(Rotate(m), i, j) == if 0 <= i - j < m.rows then Cell(m, i - j, j) else 0.0
  {
    var d := m.rows + m.cols;
    if j <= i {
      SlotShift(d, i, j);
      RotateSlot(m, i, j, i - j, j);
    } else {
      SlotWrap(d, i, j);
      RotateSlot(m, i, j, d + i - j, j - 1);
    }
  }

  lemma {:induction false} GradientStorage(g: Matrix, d0: nat, i: nat, j: nat, f: nat)
    requires Valid(g) && d0 > 0 && g.cols > 0 && g.rows == d0 + g.cols - 1
    requires i < d0 && j < g.cols && f == Slot(d0 + g.cols, i, j) && f < Area(g.rows, g.cols)
    ensures Cell(RotateGradient(g, d0), i, j) == g.data[f]
  {
    var d1 := g.cols;
    Areas(d0, d1);
    var flat := Reshape(g, Area(d0 + d1 - 1, d1), 1);
    var longer := Pad(flat, d1);
    RowsCell(Reshape(longer, d0 + d1, d1), d0, i, j);
    PadCell(flat, d1, f, 0);
    ColumnCell(longer, f);
    ColumnCell(flat, f);
  }

  /** The gradient takes each cell from where the rotation put it. */
  lemma {:induction false} GradientCell(g: Matrix, d0: nat, i: nat, j: nat)
    requires Valid(g) && d0 > 0 && g.cols > 0 && g.rows == d0 + g.cols - 1 && i < d0 && j < g.cols
    ensures Cell(RotateGradient(g, d0), i, j) == Cell(g, i + j, j)
  {
    SlotShift(d0 + g.cols, i + j, j);
    SlotInside(g.rows, g.cols, i + j, j);
    GradientStorage(g, d0, i, j, Slot(g.rows, i + j, j));
  }

  /** The gradient function undoes the rotation. */
  lemma {:induction false} GradientUndoes(m: Matrix)
    requires Valid(m) && m.rows > 0 && m.cols > 0
    ensures RotateGradient(Rotate(m), m.rows) == m
  {
    var r := RotateGradient(Rotate(m), m.rows);
    forall i: nat, j: nat | i < m.rows && j < m.cols ensures Cell(r, i, j) == Cell(m, i, j) {
      GradientCell(Rotate(m), m.rows, i, j);
      RotateCell(m, i + j, j);
    }
    SameCells(r, m);
  }

  // ---------------------------------------------------------------- inner products

  /** The inner product of the first n cells of column j. */
  ghost function ColumnDot(a: Matrix, b: Matrix, j: nat, n: nat): real
    requires Valid(a) && Valid(b) && a.rows == b.rows && a.cols == b.cols && j < a.cols && n <= a.rows
  {
    if n == 0 then 0.0 else ColumnDot(a, b, j, n - 1) + Reals.Times(Cell(a, n - 1, j), Cell(b, n - 1, j))
  }

  /** The inner product of the first n columns. */
  ghost function Dot(a: Matrix, b: Matrix, n: nat): real
    requires Valid(a) && Valid(b) && a.rows == b.rows && a.cols == b.cols && n <= a.cols
  {
    if n == 0 then 0.0 else Dot(a, b, n - 1) + ColumnDot(a, b, n - 1, a.rows)
  }

  /** Column j of r is column j of m moved down by j, and column j of h is that of g moved up. */
  ghost predicate Shifted(m: Matrix, r: Matrix, g: Matrix, h: Matrix, j: nat)
    requires Valid(m) && Valid(r) && Valid(g) && Valid(h)
    requires m.cols == r.cols == g.cols == h.cols && h.rows == m.rows && r.rows == g.rows == m.rows + m.cols - 1
    requires j < m.cols
  {
    && (forall i: nat | i < r.rows :: Cell(r, i, j) == if 0 <= i - j < m.rows then Cell(m, i - j, j) else 0.0)
    && (forall i: nat | i < m.rows :: Cell(h, i, j) == Cell(g, i + j, j))
  }

  /** How many cells of a moved column lie among the first n. */
  ghost function Moved(rows: nat, j: nat, n: nat): nat {
    if n <= j then 0 else if n - j <= rows then n - j else rows
  }

  lemma {:induction false} ColumnsAgree(m: Matrix, r: Matrix, g: Matrix, h: Matrix, j: nat, n: nat)
    requires Valid(m) && Valid(r) && Valid(g) && Valid(h)
    requires m.cols == r.cols == g.cols == h.cols && h.rows == m.rows && r.rows == g.rows == m.rows + m.cols - 1
    requires j < m.cols
    requires Shifted(m, r, g, h, j) && n <= r.rows
    ensures ColumnDot(r, g, j, n) == ColumnDot(m, h, j, Moved(m.rows, j, n))
  {
    if n > 0 {
      ColumnsAgree(m, r, g, h, j, n - 1);
      var i := n - 1 - j;
      assert Cell(r, n - 1, j) == if 0 <= i < m.rows then Cell(m, i, j) else 0.0;
      if 0 <= i < m.rows {
        assert Cell(h, i, j) == Cell(g, i + j, j);
        assert Moved(m.rows, j, n) == Moved(m.rows, j, n - 1) + 1 == i + 1;
      } else {
        assert Reals.Times(0.0, Cell(g, n - 1, j)) == 0.0;
      }
    }
  }

  lemma {:induction false} DotsAgree(m: Matrix, r: Matrix, g: Matrix, h: Matrix, n: nat)
    requires Valid(m) && Valid(r) && Valid(g) && Valid(h)
    requires m.cols == r.cols == g.cols == h.cols && h.rows == m.rows && r.rows == g.rows == m.rows + m.cols - 1
    requires forall j: nat | j < m.cols :: Shifted(m, r, g, h, j)
    requires n <= m.cols
    ensures Dot(r, g, n) == Dot(m, h, n)
  {
    if n > 0 {
      DotsAgree(m, r, g, h, n - 1);
      ColumnsAgree(m, r, g, h, n - 1, g.rows);
    }
  }

  /** The gradient function is the adjoint of the rotation. */
  lemma {:induction false} GradientIsAdjoint(m: Matrix, g: Matrix)
    requires Valid(m) && Valid(g) && m.rows > 0 && m.cols > 0 && g.rows == m.rows + m.cols - 1 && g.cols == m.cols
    ensures Dot(Rotate(m), g, m.cols) == Dot(m, RotateGradient(g, m.rows), m.cols)
  {
    var r, h := Rotate(m), RotateGradient(g, m.rows);
    forall j: nat | j < m.cols ensures Shifted(m, r, g, h, j) {
      forall i: nat | i < r.rows ensures Cell(r, i, j) == if 0 <= i - j < m.rows then Cell(m, i - j, j) else 0.0 {
        RotateCell(m, i, j);
      }
      forall i: nat | i < m.rows ensures Cell(h, i, j) == Cell(g, i + j, j) {
        GradientCell(g, m.rows, i, j);
      }
    }
    DotsAgree(m, r, g, h, m.cols);
  }
}

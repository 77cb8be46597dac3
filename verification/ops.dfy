/**
 * The flat-buffer engine of src/ops.rs.
 *
 * Matrices are row-major slices together with their row and column counts.
 * Transpose, dot product and two multiplication kernels work directly on
 * those slices. The kernels write into a caller-supplied output buffer; here
 * they take that buffer and return its new contents.
 *
 * The engine only checks its shape conditions with debug assertions, so a
 * release build trusts its callers. Those conditions are preconditions here.
 */
module Ops {
  import opened Layout
  import opened Sums

  /** ops::dot: an index loop over two slices of equal length. */
  method Dot(a: seq<int>, b: seq<int>) returns (sum: int)
    requires |a| == |b|
    ensures sum == InnerProduct(a, b)
  {
    sum := 0;
    for i := 0 to |a|
      invariant sum == InnerProduct(a[..i], b[..i])
    {
      InnerProductStep(a, b, i);
      sum := sum + a[i] * b[i];
    }
    assert a[..|a|] == a && b[..|b|] == b;
  }

  /** Column c of a rows-by-cols buffer, top to bottom. */
  function ColumnOf(a: seq<int>, rows: nat, cols: nat, c: nat): (col: seq<int>)
    requires |a| == rows * cols && c < cols
    ensures |col| == rows
    ensures forall r :: 0 <= r < rows ==> col[r] == At(a, rows, cols, r, c)
  {
    seq(rows, r requires 0 <= r < rows => At(a, rows, cols, r, c))
  }

  /**
   * The transpose of a rows-by-cols buffer as a cols-by-rows buffer: the
   * columns of `a` laid end to end.
   */
  function Transposed(a: seq<int>, rows: nat, cols: nat): (t: seq<int>)
    requires |a| == rows * cols
    ensures |t| == rows * cols
    ensures forall r: nat, c: nat :: r < rows && c < cols ==> At(t, cols, rows, c, r) == At(a, rows, cols, r, c)
  {
    var columns := seq(cols, c requires 0 <= c < cols => ColumnOf(a, rows, cols, c));
    FlattenCells(columns, rows);
    Flatten(columns)
  }

  /** Transposing twice gives back the buffer. */
  lemma TransposeInvolution(a: seq<int>, rows: nat, cols: nat)
    requires |a| == rows * cols
    ensures Transposed(Transposed(a, rows, cols), cols, rows) == a
  {
    var t := Transposed(a, rows, cols);
    var tt := Transposed(t, cols, rows);
    forall r: nat, c: nat | r < rows && c < cols
      ensures At(tt, rows, cols, r, c) == At(a, rows, cols, r, c)
    {
      assert At(tt, rows, cols, r, c) == At(t, cols, rows, c, r);
    }
    CellwiseEqual(tt, a, rows, cols);
  }

  /**
   * ops::write_transpose: visits the source column by column and stores each
   * cell at its transposed offset. The result does not depend on what the
   * output buffer held before: every cell is overwritten.
   */
  method WriteTranspose(out: seq<int>, a: seq<int>, rows: nat, cols: nat) returns (o: seq<int>)
    requires |a| == rows * cols && |out| == rows * cols
    ensures o == Transposed(a, rows, cols)
  {
    ghost var t := Transposed(a, rows, cols);
    o := out;
    for col := 0 to cols
      invariant |o| == rows * cols && col * rows <= |o|
      invariant forall k :: 0 <= k < col * rows ==> o[k] == t[k]
    {
      for row := 0 to rows
        invariant |o| == rows * cols && col * rows + row <= |o|
        invariant forall k :: 0 <= k < col * rows + row ==> o[k] == t[k]
      {
        FlatBound(col, row, cols, rows);
        FlatBound(row, col, rows, cols);
        assert At(t, cols, rows, col, row) == At(a, rows, cols, row, col);
        o := o[Flat(col, row, rows) := a[Flat(row, col, cols)]];
      }
      assert col * rows + rows == (col + 1) * rows;
    }
  }

  /** ops::transpose: a zeroed buffer filled by write_transpose. */
  method Transpose(a: seq<int>, rows: nat, cols: nat) returns (t: seq<int>)
    requires |a| == rows * cols
    ensures |t| == rows * cols
    ensures forall r: nat, c: nat :: r < rows && c < cols ==> At(t, cols, rows, c, r) == At(a, rows, cols, r, c)
    ensures t == Transposed(a, rows, cols)
  {
    var out := seq(rows * cols, _ => 0);
    t := WriteTranspose(out, a, rows, cols);
  }

  /**
   * The textbook product of an aRows-by-n and an n-by-bCols buffer: cell
   * (r, c) is the sum over i < n of a[r][i] * b[i][c].
   */
  function Product(a: seq<int>, aRows: nat, n: nat, b: seq<int>, bCols: nat): (p: seq<int>)
    requires |a| == aRows * n && |b| == n * bCols
    ensures |p| == aRows * bCols
    ensures forall r: nat, c: nat :: r < aRows && c < bCols ==>
      At(p, aRows, bCols, r, c) == InnerProduct(RowOf(a, aRows, n, r), ColumnOf(b, n, bCols, c))
  {
    var cells := seq(aRows, r requires 0 <= r < aRows =>
      seq(bCols, c requires 0 <= c < bCols => InnerProduct(RowOf(a, aRows, n, r), ColumnOf(b, n, bCols, c))));
    FlattenCells(cells, bCols);
    Flatten(cells)
  }

  /**
   * The product against a right operand stored transposed: cell (r, c) is
   * row r of `a` against row c of `b`, both of length n.
   */
  function RowDots(a: seq<int>, aRows: nat, n: nat, b: seq<int>, bRows: nat): (p: seq<int>)
    requires |a| == aRows * n && |b| == bRows * n
    ensures |p| == aRows * bRows
    ensures forall r: nat, c: nat :: r < aRows && c < bRows ==>
      At(p, aRows, bRows, r, c) == InnerProduct(RowOf(a, aRows, n, r), RowOf(b, bRows, n, c))
  {
    var cells := seq(aRows, r requires 0 <= r < aRows =>
      seq(bRows, c requires 0 <= c < bRows => InnerProduct(RowOf(a, aRows, n, r), RowOf(b, bRows, n, c))));
    FlattenCells(cells, bRows);
    Flatten(cells)
  }

  /** A column of a buffer is the matching row of its transpose. */
  lemma ColumnIsTransposedRow(b: seq<int>, rows: nat, cols: nat, c: nat)
    requires |b| == rows * cols && c < cols
    ensures ColumnOf(b, rows, cols, c) == RowOf(Transposed(b, rows, cols), cols, rows, c)
  {
    var t := Transposed(b, rows, cols);
    forall r | 0 <= r < rows
      ensures ColumnOf(b, rows, cols, c)[r] == RowOf(t, cols, rows, c)[r]
    {
      assert At(t, cols, rows, c, r) == At(b, rows, cols, r, c);
    }
  }

  /**
   * The transpose-then-dot-rows scheme computes the textbook product: feeding
   * the transpose of `b` to the row-dot kernel yields the naive product.
   */
  lemma TransposedKernelIsProduct(a: seq<int>, aRows: nat, n: nat, b: seq<int>, bCols: nat)
    requires |a| == aRows * n && |b| == n * bCols
    ensures RowDots(a, aRows, n, Transposed(b, n, bCols), bCols) == Product(a, aRows, n, b, bCols)
  {
    var bt := Transposed(b, n, bCols);
    var x := RowDots(a, aRows, n, bt, bCols);
    var y := Product(a, aRows, n, b, bCols);
    forall r: nat, c: nat | r < aRows && c < bCols
      ensures At(x, aRows, bCols, r, c) == At(y, aRows, bCols, r, c)
    {
      ColumnIsTransposedRow(b, n, bCols, c);
    }
    CellwiseEqual(x, y, aRows, bCols);
  }

  /**
   * The innermost loop of ops::write_mat_mul: walks row `row` of `a` and
   * column `col` of `b` together, reading both straight from their buffers.
   */
  method RowColumnSum(a: seq<int>, aRows: nat, aCols: nat, b: seq<int>, bCols: nat, row: nat, col: nat)
    returns (sum: int)
    requires |a| == aRows * aCols && |b| == aCols * bCols && row < aRows && col < bCols
    ensures sum == InnerProduct(RowOf(a, aRows, aCols, row), ColumnOf(b, aCols, bCols, col))
  {
    ghost var aRow := RowOf(a, aRows, aCols, row);
    ghost var bCol := ColumnOf(b, aCols, bCols, col);
    sum := 0;
    for i := 0 to aCols
      invariant sum == InnerProduct(aRow[..i], bCol[..i])
    {
      InnerProductStep(aRow, bCol, i);
      FlatBound(row, i, aRows, aCols);
      FlatBound(i, col, aCols, bCols);
      sum := sum + a[Flat(row, i, aCols)] * b[Flat(i, col, bCols)];
    }
    assert aRow[..aCols] == aRow && bCol[..aCols] == bCol;
  }

  /**
   * ops::write_mat_mul: the triple loop. Every output cell (r, c) receives
   * the left-to-right sum of a[r][i] * b[i][c]; nothing of the old output
   * survives.
   */
  method WriteMatMul(out: seq<int>, a: seq<int>, aRows: nat, aCols: nat, b: seq<int>, bRows: nat, bCols: nat)
    returns (o: seq<int>)
    requires aCols == bRows
    requires |a| == aRows * aCols && |b| == bRows * bCols && |out| == aRows * bCols
    ensures |o| == aRows * bCols
    ensures forall r: nat, c: nat :: r < aRows && c < bCols ==>
      At(o, aRows, bCols, r, c) == InnerProduct(RowOf(a, aRows, aCols, r), ColumnOf(b, bRows, bCols, c))
    ensures o == Product(a, aRows, aCols, b, bCols)
  {
    ghost var p := Product(a, aRows, aCols, b, bCols);
    o := out;
    for row := 0 to aRows
      invariant |o| == aRows * bCols && row * bCols <= |o|
      invariant forall k :: 0 <= k < row * bCols ==> o[k] == p[k]
    {
      for col := 0 to bCols
        invariant |o| == aRows * bCols && row * bCols + col <= |o|
        invariant forall k :: 0 <= k < row * bCols + col ==> o[k] == p[k]
      {
        var sum := RowColumnSum(a, aRows, aCols, b, bCols, row, col);
        FlatBound(row, col, aRows, bCols);
        assert At(p, aRows, bCols, row, col) == sum;
        o := o[Flat(row, col, bCols) := sum];
      }
      assert row * bCols + bCols == (row + 1) * bCols;
    }
    assert o == p;
  }

  /**
   * ops::write_mat_mul_transposed: `b` holds the right operand already
   * transposed, so output cell (r, c) is the dot product of row r of `a` and
   * row c of `b`. Every output cell is overwritten.
   */
  method WriteMatMulTransposed(out: seq<int>, a: seq<int>, aRows: nat, aCols: nat, b: seq<int>, bRows: nat, bCols: nat)
    returns (o: seq<int>)
    requires aCols == bCols
    requires |a| == aRows * aCols && |b| == bRows * bCols && |out| == aRows * bRows
    ensures |o| == aRows * bRows
    ensures forall r: nat, c: nat :: r < aRows && c < bRows ==>
      At(o, aRows, bRows, r, c) == InnerProduct(RowOf(a, aRows, aCols, r), RowOf(b, bRows, bCols, c))
    ensures o == RowDots(a, aRows, aCols, b, bRows)
  {
    ghost var p := RowDots(a, aRows, aCols, b, bRows);
    o := out;
    for row := 0 to aRows
      invariant |o| == aRows * bRows && row * bRows <= |o|
      invariant forall k :: 0 <= k < row * bRows ==> o[k] == p[k]
    {
      var aRow := RowOf(a, aRows, aCols, row);
      for col := 0 to bRows
        invariant |o| == aRows * bRows && row * bRows + col <= |o|
        invariant forall k :: 0 <= k < row * bRows + col ==> o[k] == p[k]
      {
        var bRow := RowOf(b, bRows, bCols, col);
        var d := Dot(aRow, bRow);
        FlatBound(row, col, aRows, bRows);
        assert At(p, aRows, bRows, row, col) == d;
        o := o[Flat(row, col, bRows) := d];
      }
      assert row * bRows + bRows == (row + 1) * bRows;
    }
    assert o == p;
  }

  /**
   * ops::mat_mul: transposes `b`, then runs the row-dot kernel over a zeroed
   * buffer. The result is the textbook product.
   */
  method MatMul(a: seq<int>, aRows: nat, aCols: nat, b: seq<int>, bRows: nat, bCols: nat) returns (out: seq<int>)
    requires aCols == bRows
    requires |a| == aRows * aCols && |b| == bRows * bCols
    ensures |out| == aRows * bCols
    ensures out == Product(a, aRows, aCols, b, bCols)
  {
    out := seq(aRows * bCols, _ => 0);
    var bt := Transpose(b, bRows, bCols);
    out := WriteMatMulTransposed(out, a, aRows, aCols, bt, bCols, bRows);
    TransposedKernelIsProduct(a, aRows, aCols, b, bCols);
  }

  /** The unit test dot_small_odd: [1, 3, 7] . [1, -2, 2] is 9. */
  lemma DotExample()
    ensures InnerProduct([1, 3, 7], [1, -2, 2]) == 9
  {
    InnerProduct3([1, 3, 7], [1, -2, 2]);
  }

  /** The transpose of a 3 by 3 buffer, written out. */
  lemma Transposed3x3(a: seq<int>)
    requires |a| == 9
    ensures Transposed(a, 3, 3) == [a[0], a[3], a[6], a[1], a[4], a[7], a[2], a[5], a[8]]
  {
    var cols := seq(3, c requires 0 <= c < 3 => ColumnOf(a, 3, 3, c));
    ColumnOf3(a, 3, 0);
    ColumnOf3(a, 3, 1);
    ColumnOf3(a, 3, 2);
    Flatten3(cols);
  }

  /** The transpose of a 2 by 3 buffer, written out. */
  lemma Transposed2x3(a: seq<int>)
    requires |a| == 6
    ensures Transposed(a, 2, 3) == [a[0], a[3], a[1], a[4], a[2], a[5]]
  {
    var cols := seq(3, c requires 0 <= c < 3 => ColumnOf(a, 2, 3, c));
    ColumnOf2(a, 3, 0);
    ColumnOf2(a, 3, 1);
    ColumnOf2(a, 3, 2);
    Flatten3(cols);
  }

  /** The unit tests of transpose on a 3 by 3 buffer. */
  lemma TransposeSquareExample()
    ensures Transposed([0, 1, 2, 3, 4, 5, 6, 7, 8], 3, 3) == [0, 3, 6, 1, 4, 7, 2, 5, 8]
  {
    Transposed3x3([0, 1, 2, 3, 4, 5, 6, 7, 8]);
  }

  /** The unit tests of transpose on a 2 by 5 buffer. */
  lemma TransposeRectExample()
    ensures Transposed([0, 1, 2, 3, 4, 5, 6, 7, 8, 9], 2, 5) == [0, 5, 1, 6, 2, 7, 3, 8, 4, 9]
  {
    var a := [0, 1, 2, 3, 4, 5, 6, 7, 8, 9];
    var cols := seq(5, c requires 0 <= c < 5 => ColumnOf(a, 2, 5, c));
    ColumnOf2(a, 5, 0);
    ColumnOf2(a, 5, 1);
    ColumnOf2(a, 5, 2);
    ColumnOf2(a, 5, 3);
    ColumnOf2(a, 5, 4);
    Flatten5(cols);
  }

  /** The two rows of a 2-row buffer. */
  lemma RowsOf2(a: seq<int>, cols: nat)
    requires |a| == 2 * cols
    ensures RowOf(a, 2, cols, 0) == a[..cols] && RowOf(a, 2, cols, 1) == a[cols..]
  {
    if cols > 0 {
      assert Flat(1, 0, cols) == cols;
    }
  }

  /** A column of a 2-row buffer, written out. */
  lemma ColumnOf2(b: seq<int>, cols: nat, c: nat)
    requires |b| == 2 * cols && c < cols
    ensures ColumnOf(b, 2, cols, c) == [b[c], b[cols + c]]
  {
    var col := ColumnOf(b, 2, cols, c);
    assert col[0] == At(b, 2, cols, 0, c) == b[c];
    assert col[1] == At(b, 2, cols, 1, c) == b[cols + c];
  }

  /** A column of a 3-row buffer, written out. */
  lemma ColumnOf3(b: seq<int>, cols: nat, c: nat)
    requires |b| == 3 * cols && c < cols
    ensures ColumnOf(b, 3, cols, c) == [b[c], b[cols + c], b[2 * cols + c]]
  {
    var col := ColumnOf(b, 3, cols, c);
    assert col[0] == At(b, 3, cols, 0, c) == b[c];
    assert col[1] == At(b, 3, cols, 1, c) == b[cols + c];
    assert col[2] == At(b, 3, cols, 2, c) == b[2 * cols + c];
  }

  /** A 2 by 2 times 2 by 2 product written out as its four row-column dot products. */
  lemma Product2x2x2(a: seq<int>, b: seq<int>)
    requires |a| == 4 && |b| == 4
    ensures Product(a, 2, 2, b, 2) == [
      InnerProduct([a[0], a[1]], [b[0], b[2]]), InnerProduct([a[0], a[1]], [b[1], b[3]]),
      InnerProduct([a[2], a[3]], [b[0], b[2]]), InnerProduct([a[2], a[3]], [b[1], b[3]])]
  {
    RowsOf2(a, 2);
    assert a[..2] == [a[0], a[1]] && a[2..] == [a[2], a[3]];
    ColumnOf2(b, 2, 0);
    ColumnOf2(b, 2, 1);
    Cells2x2(Product(a, 2, 2, b, 2));
  }

  /** A 2 by 3 times 3 by 2 product written out as its four row-column dot products. */
  lemma Product2x3x2(a: seq<int>, b: seq<int>)
    requires |a| == 6 && |b| == 6
    ensures Product(a, 2, 3, b, 2) == [
      InnerProduct([a[0], a[1], a[2]], [b[0], b[2], b[4]]), InnerProduct([a[0], a[1], a[2]], [b[1], b[3], b[5]]),
      InnerProduct([a[3], a[4], a[5]], [b[0], b[2], b[4]]), InnerProduct([a[3], a[4], a[5]], [b[1], b[3], b[5]])]
  {
    var r0, r1 := [a[0], a[1], a[2]], [a[3], a[4], a[5]];
    var c0, c1 := [b[0], b[2], b[4]], [b[1], b[3], b[5]];
    RowsOf2(a, 3);
    assert RowOf(a, 2, 3, 0) == r0 && RowOf(a, 2, 3, 1) == r1;
    ColumnOf3(b, 2, 0);
    ColumnOf3(b, 2, 1);
    assert ColumnOf(b, 3, 2, 0) == c0 && ColumnOf(b, 3, 2, 1) == c1;
    Cells2x2(Product(a, 2, 3, b, 2));
  }

  /** A 2 by 3 times 3 by 3 product written out as its six row-column dot products. */
  lemma Product2x3x3(a: seq<int>, b: seq<int>)
    requires |a| == 6 && |b| == 9
    ensures Product(a, 2, 3, b, 3) == [
      InnerProduct([a[0], a[1], a[2]], [b[0], b[3], b[6]]),
      InnerProduct([a[0], a[1], a[2]], [b[1], b[4], b[7]]),
      InnerProduct([a[0], a[1], a[2]], [b[2], b[5], b[8]]),
      InnerProduct([a[3], a[4], a[5]], [b[0], b[3], b[6]]),
      InnerProduct([a[3], a[4], a[5]], [b[1], b[4], b[7]]),
      InnerProduct([a[3], a[4], a[5]], [b[2], b[5], b[8]])]
  {
    RowsOf2(a, 3);
    assert a[..3] == [a[0], a[1], a[2]] && a[3..] == [a[3], a[4], a[5]];
    ColumnOf3(b, 3, 0);
    ColumnOf3(b, 3, 1);
    ColumnOf3(b, 3, 2);
    Cells2x3(Product(a, 2, 3, b, 3));
  }

  /** The unit test mat_mul_write_small_rect: a 2 by 3 times a 3 by 2 buffer. */
  lemma ProductExample()
    ensures Product([1, 2, 3, 4, 5, 6], 2, 3, [7, 8, 9, 10, 11, 12], 2) == [58, 64, 139, 154]
  {
    Product2x3x2([1, 2, 3, 4, 5, 6], [7, 8, 9, 10, 11, 12]);
    InnerProduct3([1, 2, 3], [7, 9, 11]);
    InnerProduct3([1, 2, 3], [8, 10, 12]);
    InnerProduct3([4, 5, 6], [7, 9, 11]);
    InnerProduct3([4, 5, 6], [8, 10, 12]);
  }

  /** The unit test mat_mul_transposed_write_small_rect: the same product through the row-dot kernel. */
  lemma TransposedProductExample()
    ensures RowDots([1, 2, 3, 4, 5, 6], 2, 3, Transposed([7, 8, 9, 10, 11, 12], 3, 2), 2) == [58, 64, 139, 154]
  {
    ProductExample();
    TransposedKernelIsProduct([1, 2, 3, 4, 5, 6], 2, 3, [7, 8, 9, 10, 11, 12], 2);
  }
}

/**
 * The matrix value: a row-major element buffer paired with its shape.
 *
 * The repository holds two definitions of the same value, one with fields
 * data / rows / cols (src/matrix.rs) and one with elements / dimensions
 * (the files under src/matrix/); both are this datatype. Row access `m[r]` and element
 * access `m[r][c]` (src/matrix/index.rs) delegate to `row` / `row_mut`, whose
 * definitions are not part of this model; they are taken to return the `cols`
 * elements starting at the offset of cell (r, 0).
 */
module Matrices {
  import opened Layout
  import opened Dims

  datatype Matrix = Matrix(elements: seq<int>, dims: Dimensions)
  {
    /** Storage holds exactly one element per cell. */
    predicate Valid()
    {
      |elements| == Elements(dims)
    }
  }

  /** m[r]: row r, the slice of `cols` elements from offset RowMajor(r, 0). Out-of-range rows panic. */
  function Row(m: Matrix, r: nat): (row: seq<int>)
    requires m.Valid() && r < m.dims.rows
    ensures |row| == m.dims.cols
    ensures forall c :: 0 <= c < m.dims.cols ==> row[c] == At(m.elements, m.dims.rows, m.dims.cols, r, c)
  {
    RowOf(m.elements, m.dims.rows, m.dims.cols, r)
  }

  /** m[r][c]: element c of row r, which is the storage element at the row-major offset of (r, c). */
  function Get(m: Matrix, r: nat, c: nat): (v: int)
    requires m.Valid() && r < m.dims.rows && c < m.dims.cols
    ensures RowMajor(m.dims, r, c) < |m.elements| && v == m.elements[RowMajor(m.dims, r, c)]
  {
    Row(m, r)[c]
  }

  /** Column c, top to bottom. */
  function Column(m: Matrix, c: nat): (col: seq<int>)
    requires m.Valid() && c < m.dims.cols
    ensures |col| == m.dims.rows
    ensures forall r :: 0 <= r < m.dims.rows ==> col[r] == Get(m, r, c)
  {
    seq(m.dims.rows, r requires 0 <= r < m.dims.rows => Get(m, r, c))
  }

  /** m[r] is exactly the slice of `cols` elements that starts at the offset of (r, 0). */
  lemma RowIsSlice(m: Matrix, r: nat)
    requires m.Valid() && r < m.dims.rows
    ensures RowMajor(m.dims, r, 0) + m.dims.cols <= |m.elements|
    ensures Row(m, r) == m.elements[RowMajor(m.dims, r, 0)..RowMajor(m.dims, r, 0) + m.dims.cols]
  {
    if m.dims.cols > 0 {
      FlatBound(r, 0, m.dims.rows, m.dims.cols);
    }
  }

  /** Overwriting one offset of a row-major buffer changes exactly the one cell stored there. */
  lemma UpdateOneCell(a: seq<int>, rows: nat, cols: nat, r: nat, c: nat, v: int)
    requires |a| == rows * cols && r < rows && c < cols
    ensures Flat(r, c, cols) < |a|
    ensures At(a[Flat(r, c, cols) := v], rows, cols, r, c) == v
    ensures forall r2: nat, c2: nat :: r2 < rows && c2 < cols && (r2 != r || c2 != c) ==>
      At(a[Flat(r, c, cols) := v], rows, cols, r2, c2) == At(a, rows, cols, r2, c2)
  {
    FlatBound(r, c, rows, cols);
    forall r2: nat, c2: nat | r2 < rows && c2 < cols && (r2 != r || c2 != c)
      ensures At(a[Flat(r, c, cols) := v], rows, cols, r2, c2) == At(a, rows, cols, r2, c2)
    {
      FlatBound(r2, c2, rows, cols);
      if Flat(r2, c2, cols) == Flat(r, c, cols) {
        FlatInjective(r2, c2, r, c, cols);
      }
    }
  }

  /**
   * m[r][c] = v through IndexMut: the write lands in storage at RowMajor(r, c),
   * so cell (r, c) reads v afterwards, every other cell keeps its value and the
   * shape is untouched.
   */
  function SetCell(m: Matrix, r: nat, c: nat, v: int): (m': Matrix)
    requires m.Valid() && r < m.dims.rows && c < m.dims.cols
    ensures m'.Valid() && m'.dims == m.dims
    ensures Get(m', r, c) == v
    ensures forall r2, c2 :: 0 <= r2 < m.dims.rows && 0 <= c2 < m.dims.cols && (r2 != r || c2 != c) ==>
      Get(m', r2, c2) == Get(m, r2, c2)
  {
    UpdateOneCell(m.elements, m.dims.rows, m.dims.cols, r, c, v);
    Matrix(m.elements[RowMajor(m.dims, r, c) := v], m.dims)
  }

  /** Two valid matrices of one shape that agree on every cell are equal. */
  lemma Extensionality(m1: Matrix, m2: Matrix)
    requires m1.Valid() && m2.Valid() && m1.dims == m2.dims
    requires forall r, c :: 0 <= r < m1.dims.rows && 0 <= c < m1.dims.cols ==> Get(m1, r, c) == Get(m2, r, c)
    ensures m1 == m2
  {
    var rows, cols := m1.dims.rows, m1.dims.cols;
    forall r: nat, c: nat | r < rows && c < cols
      ensures At(m1.elements, rows, cols, r, c) == At(m2.elements, rows, cols, r, c)
    {
      assert Get(m1, r, c) == Get(m2, r, c);
    }
    CellwiseEqual(m1.elements, m2.elements, rows, cols);
  }

  /** The six cells of a 2 by 3 matrix, read through m[r][c]. */
  lemma GetCells2x3(e: seq<int>)
    requires |e| == 6
    ensures Get(Matrix(e, Dimensions(2, 3)), 0, 0) == e[0]
    ensures Get(Matrix(e, Dimensions(2, 3)), 0, 1) == e[1]
    ensures Get(Matrix(e, Dimensions(2, 3)), 0, 2) == e[2]
    ensures Get(Matrix(e, Dimensions(2, 3)), 1, 0) == e[3]
    ensures Get(Matrix(e, Dimensions(2, 3)), 1, 1) == e[4]
    ensures Get(Matrix(e, Dimensions(2, 3)), 1, 2) == e[5]
  {
    var m := Matrix(e, Dimensions(2, 3));
    assert Flat(1, 0, 3) == 3;
    assert Row(m, 0) == e[0..3];
    assert Row(m, 1) == e[3..6];
  }

  /** The unit test index_rect: the six reads of [[1, 2, 3], [4, 5, 6]] give 1 to 6. */
  lemma IndexExample()
    ensures Get(Matrix([1, 2, 3, 4, 5, 6], Dimensions(2, 3)), 0, 0) == 1
    ensures Get(Matrix([1, 2, 3, 4, 5, 6], Dimensions(2, 3)), 0, 1) == 2
    ensures Get(Matrix([1, 2, 3, 4, 5, 6], Dimensions(2, 3)), 0, 2) == 3
    ensures Get(Matrix([1, 2, 3, 4, 5, 6], Dimensions(2, 3)), 1, 0) == 4
    ensures Get(Matrix([1, 2, 3, 4, 5, 6], Dimensions(2, 3)), 1, 1) == 5
    ensures Get(Matrix([1, 2, 3, 4, 5, 6], Dimensions(2, 3)), 1, 2) == 6
  {
    GetCells2x3([1, 2, 3, 4, 5, 6]);
  }
}

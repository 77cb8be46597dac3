/**
 * Transpose and multiplication on matrix values (src/matrix/operations.rs).
 *
 * The product transposes its right operand and then, for every output cell,
 * takes the dot product of a row of the left operand with a row of that
 * transpose. Its dot product is the iterator pipeline zip / map / fold,
 * which stops at the shorter slice and checks nothing, and the product
 * itself performs no shape check either.
 */
module MatrixOps {
  import opened Layout
  import opened Sums
  import opened Dims
  import opened Matrices
  import opened Results
  import Ops
  import opened Constructors

  /**
   * Matrix::transpose: a matrix of the swapped shape with out[c][r] = self[r][c].
   * The source fills a zeroed matrix cell by cell in the same column-major
   * sweep as ops::write_transpose; the value built is the same.
   */
  function Transpose(m: Matrix): (t: Matrix)
    requires m.Valid()
    ensures t.Valid() && t.dims == Dims.Transpose(m.dims)
    ensures forall r, c :: 0 <= r < m.dims.rows && 0 <= c < m.dims.cols ==> Get(t, c, r) == Get(m, r, c)
  {
    Matrix(Ops.Transposed(m.elements, m.dims.rows, m.dims.cols), Dims.Transpose(m.dims))
  }

  /** Transposing a matrix twice gives back the matrix. */
  lemma TransposeInvolution(m: Matrix)
    requires m.Valid()
    ensures Transpose(Transpose(m)) == m
  {
    Ops.TransposeInvolution(m.elements, m.dims.rows, m.dims.cols);
  }

  /** Row c of the transpose is column c of the matrix. */
  lemma TransposedRowIsColumn(m: Matrix, c: nat)
    requires m.Valid() && c < m.dims.cols
    ensures Row(Transpose(m), c) == Column(m, c)
  {
    var t := Transpose(m);
    forall r | 0 <= r < m.dims.rows
      ensures Row(t, c)[r] == Column(m, c)[r]
    {
      assert Get(t, c, r) == Get(m, r, c);
    }
  }

  /**
   * operations::dot: the products of paired elements summed from zero, left
   * to right, over the common prefix of the two slices; excess elements of
   * the longer slice are ignored.
   */
  function Dot(lhs: seq<int>, rhs: seq<int>): (s: int)
    ensures s == InnerProduct(lhs[..Min(|lhs|, |rhs|)], rhs[..Min(|lhs|, |rhs|)])
  {
    ZipFoldIsInnerProduct(0, lhs, rhs);
    ZipFold(0, lhs, rhs)
  }

  /**
   * &a * &b: an a.rows by b.cols matrix whose cell (r, c) is Dot of row r of
   * `a` with row c of the transpose of `b`, that is with column c of `b`.
   * Nothing requires a.cols == b.rows.
   */
  function Mul(a: Matrix, b: Matrix): (p: Matrix)
    requires a.Valid() && b.Valid()
    ensures p.Valid() && p.dims == Dimensions(a.dims.rows, b.dims.cols)
    ensures forall r, c :: 0 <= r < a.dims.rows && 0 <= c < b.dims.cols ==> Get(p, r, c) == Dot(Row(a, r), Column(b, c))
  {
    var cells := ProductCells(a, b);
    FlattenCells(cells, b.dims.cols);
    Matrix(Flatten(cells), Dimensions(a.dims.rows, b.dims.cols))
  }

  /** The output rows of &a * &b: cell (r, c) is Dot of row r of `a` with row c of the transpose of `b`. */
  function ProductCells(a: Matrix, b: Matrix): (cells: seq<seq<int>>)
    requires a.Valid() && b.Valid()
    ensures |cells| == a.dims.rows && Uniform(cells, b.dims.cols)
    ensures forall r, c :: 0 <= r < a.dims.rows && 0 <= c < b.dims.cols ==> cells[r][c] == Dot(Row(a, r), Column(b, c))
  {
    var bt := Transpose(b);
    TransposedRowsAreColumns(b);
    seq(a.dims.rows, r requires 0 <= r < a.dims.rows =>
      seq(b.dims.cols, c requires 0 <= c < b.dims.cols => Dot(Row(a, r), Row(bt, c))))
  }

  lemma TransposedRowsAreColumns(m: Matrix)
    requires m.Valid()
    ensures forall c :: 0 <= c < m.dims.cols ==> Row(Transpose(m), c) == Column(m, c)
  {
    forall c | 0 <= c < m.dims.cols
      ensures Row(Transpose(m), c) == Column(m, c)
    {
      TransposedRowIsColumn(m, c);
    }
  }

  /**
   * When the inner dimensions agree, cell (r, c) of &a * &b is the sum over k
   * of a[r][k] * b[k][c], and the whole buffer is the flat engine's textbook
   * product.
   */
  lemma MulIsProduct(a: Matrix, b: Matrix)
    requires a.Valid() && b.Valid() && a.dims.cols == b.dims.rows
    ensures forall r, c :: 0 <= r < a.dims.rows && 0 <= c < b.dims.cols ==>
      Get(Mul(a, b), r, c) == InnerProduct(Row(a, r), Column(b, c))
    ensures Mul(a, b).elements == Ops.Product(a.elements, a.dims.rows, a.dims.cols, b.elements, b.dims.cols)
  {
    var p := Mul(a, b);
    var q := Ops.Product(a.elements, a.dims.rows, a.dims.cols, b.elements, b.dims.cols);
    forall r: nat, c: nat | r < a.dims.rows && c < b.dims.cols
      ensures Get(p, r, c) == InnerProduct(Row(a, r), Column(b, c))
      ensures At(p.elements, a.dims.rows, b.dims.cols, r, c) == At(q, a.dims.rows, b.dims.cols, r, c)
    {
      assert Row(a, r)[..a.dims.cols] == Row(a, r);
      assert Column(b, c)[..a.dims.cols] == Column(b, c);
      assert Column(b, c) == Ops.ColumnOf(b.elements, b.dims.rows, b.dims.cols, c);
    }
    CellwiseEqual(p.elements, q, a.dims.rows, b.dims.cols);
  }

  /** The identity is neutral on the left: identity(n) * m == m for every m with n rows. */
  lemma MulIdentityLeft(id: Matrix, m: Matrix, n: nat)
    requires IsIdentity(id, n) && m.Valid() && m.dims.rows == n
    ensures Mul(id, m) == m
  {
    var p := Mul(id, m);
    MulIsProduct(id, m);
    forall r, c | 0 <= r < n && 0 <= c < m.dims.cols
      ensures Get(p, r, c) == Get(m, r, c)
    {
      var e := Row(id, r);
      assert forall i :: 0 <= i < n ==> e[i] == Get(id, r, i);
      InnerProductUnit(Column(m, c), e, r);
    }
    Extensionality(p, m);
  }

  /** The identity is neutral on the right: m * identity(n) == m for every m with n columns. */
  lemma MulIdentityRight(m: Matrix, id: Matrix, n: nat)
    requires IsIdentity(id, n) && m.Valid() && m.dims.cols == n
    ensures Mul(m, id) == m
  {
    var p := Mul(m, id);
    MulIsProduct(m, id);
    forall r, c | 0 <= r < m.dims.rows && 0 <= c < n
      ensures Get(p, r, c) == Get(m, r, c)
    {
      InnerProductUnit(Row(m, r), Column(id, c), c);
    }
    Extensionality(p, m);
  }

  /** The rows of a matrix as a list, and its columns read back from that list. */
  lemma RowsOfMatrix(m: Matrix) returns (rows: seq<seq<int>>)
    requires m.Valid()
    ensures |rows| == m.dims.rows && Uniform(rows, m.dims.cols)
    ensures forall j :: 0 <= j < m.dims.rows ==> rows[j] == Row(m, j)
    ensures forall k :: 0 <= k < m.dims.cols ==> ColumnOfRows(rows, m.dims.cols, k) == Column(m, k)
  {
    rows := seq(m.dims.rows, j requires 0 <= j < m.dims.rows => Row(m, j));
  }

  /** With matching inner dimensions, cell (r, c) of a * b is the full dot product of row r with column c. */
  lemma MulCell(a: Matrix, b: Matrix, r: nat, c: nat)
    requires a.Valid() && b.Valid() && a.dims.cols == b.dims.rows
    requires r < a.dims.rows && c < b.dims.cols
    ensures Get(Mul(a, b), r, c) == InnerProduct(Row(a, r), Column(b, c))
  {
    assert Row(a, r)[..a.dims.cols] == Row(a, r);
    assert Column(b, c)[..a.dims.cols] == Column(b, c);
  }

  /** Row i of a * b is row i of a times the matrix whose rows are those of b. */
  lemma ProductRow(a: Matrix, b: Matrix, brows: seq<seq<int>>, i: nat)
    requires a.Valid() && b.Valid() && a.dims.cols == b.dims.rows && i < a.dims.rows
    requires |brows| == b.dims.rows && Uniform(brows, b.dims.cols)
    requires forall k :: 0 <= k < b.dims.cols ==> ColumnOfRows(brows, b.dims.cols, k) == Column(b, k)
    ensures Row(Mul(a, b), i) == VecMat(Row(a, i), brows, b.dims.cols)
  {
    forall k | 0 <= k < b.dims.cols
      ensures Row(Mul(a, b), i)[k] == VecMat(Row(a, i), brows, b.dims.cols)[k]
    {
      MulCell(a, b, i, k);
    }
  }

  /** Column l of b * c is the matrix whose rows are those of b times column l of c. */
  lemma ProductColumn(b: Matrix, c: Matrix, brows: seq<seq<int>>, l: nat)
    requires b.Valid() && c.Valid() && b.dims.cols == c.dims.rows && l < c.dims.cols
    requires |brows| == b.dims.rows && forall j :: 0 <= j < b.dims.rows ==> brows[j] == Row(b, j)
    ensures Uniform(brows, |Column(c, l)|)
    ensures Column(Mul(b, c), l) == MatVec(brows, Column(c, l))
  {
    forall j | 0 <= j < b.dims.rows
      ensures Column(Mul(b, c), l)[j] == MatVec(brows, Column(c, l))[j]
    {
      MulCell(b, c, j, l);
    }
  }

  /** One cell of the associativity law: both bracketings give u M w for row i of a, b and column l of c. */
  lemma MulAssociativeCell(a: Matrix, b: Matrix, c: Matrix, i: nat, l: nat)
    requires a.Valid() && b.Valid() && c.Valid()
    requires a.dims.cols == b.dims.rows && b.dims.cols == c.dims.rows
    requires i < a.dims.rows && l < c.dims.cols
    ensures Mul(Mul(a, b), c).Valid() && Mul(a, Mul(b, c)).Valid()
    ensures Get(Mul(Mul(a, b), c), i, l) == Get(Mul(a, Mul(b, c)), i, l)
  {
    var ab, bc := Mul(a, b), Mul(b, c);
    var brows := RowsOfMatrix(b);
    MulCell(ab, c, i, l);
    MulCell(a, bc, i, l);
    ProductRow(a, b, brows, i);
    ProductColumn(b, c, brows, l);
    SumExchange(Row(a, i), brows, Column(c, l));
  }

  /** The product is associative: (a * b) * c == a * (b * c) whenever the shapes chain. */
  lemma MulAssociative(a: Matrix, b: Matrix, c: Matrix)
    requires a.Valid() && b.Valid() && c.Valid()
    requires a.dims.cols == b.dims.rows && b.dims.cols == c.dims.rows
    ensures Mul(Mul(a, b), c) == Mul(a, Mul(b, c))
  {
    forall i, l | 0 <= i < a.dims.rows && 0 <= l < c.dims.cols
      ensures Get(Mul(Mul(a, b), c), i, l) == Get(Mul(a, Mul(b, c)), i, l)
    {
      MulAssociativeCell(a, b, c, i, l);
    }
    Extensionality(Mul(Mul(a, b), c), Mul(a, Mul(b, c)));
  }

  /**
   * The product with the shape check that the rest of the library performs:
   * operands whose inner dimensions disagree are refused, as the vector
   * operations refuse operands of unequal length.
   */
  function CheckedMul(a: Matrix, b: Matrix): (res: Result<Matrix>)
    requires a.Valid() && b.Valid()
    ensures res.Err? <==> a.dims.cols != b.dims.rows
    ensures res.Err? ==> res.error == DimensionMismatch
    ensures res.Ok? ==> res.value.Valid() && res.value.dims == Dimensions(a.dims.rows, b.dims.cols)
    ensures res.Ok? ==> res.value.elements == Ops.Product(a.elements, a.dims.rows, a.dims.cols, b.elements, b.dims.cols)
  {
    if a.dims.cols != b.dims.rows then Err(DimensionMismatch)
    else
      MulIsProduct(a, b);
      Ok(Mul(a, b))
  }

  /**
   * Mul as written accepts a 1 by 2 times a 1 by 1 operand: the dot product
   * pairs [1, 2] with [3] and drops the 2, yielding [[3]] where the shapes do
   * not even admit a product. CheckedMul refuses the same pair.
   */
  lemma MulAcceptsMismatchedShapes()
    ensures Mul(Matrix([1, 2], Dimensions(1, 2)), Matrix([3], Dimensions(1, 1))) == Matrix([3], Dimensions(1, 1))
    ensures CheckedMul(Matrix([1, 2], Dimensions(1, 2)), Matrix([3], Dimensions(1, 1))) == Err(DimensionMismatch)
  {
    var a, b := Matrix([1, 2], Dimensions(1, 2)), Matrix([3], Dimensions(1, 1));
    var p := Mul(a, b);
    assert Row(a, 0) == [1, 2];
    assert Column(b, 0) == [3];
    assert [1, 2][..1] == [1];
    assert InnerProduct([1], [3]) == 3;
    assert Get(p, 0, 0) == 3;
    assert p.elements == [3];
  }

  /** The unit test transpose_square. */
  lemma TransposeSquareExample()
    ensures Transpose(Matrix([1, 2, 3, 4, 5, 6, 7, 8, 9], Dimensions(3, 3)))
         == Matrix([1, 4, 7, 2, 5, 8, 3, 6, 9], Dimensions(3, 3))
  {
    Ops.Transposed3x3([1, 2, 3, 4, 5, 6, 7, 8, 9]);
  }

  /** The unit test transpose_rect. */
  lemma TransposeRectExample()
    ensures Transpose(Matrix([1, 2, 3, 4, 5, 6], Dimensions(2, 3)))
         == Matrix([1, 4, 2, 5, 3, 6], Dimensions(3, 2))
  {
    Ops.Transposed2x3([1, 2, 3, 4, 5, 6]);
  }

  /** A 2 by 2 product written out cell by cell, for concrete matrices. */
  lemma Mul2x2x2(x: seq<int>, y: seq<int>, z: seq<int>)
    requires |x| == 4 && |y| == 4
    requires z == [
      x[0] * y[0] + x[1] * y[2], x[0] * y[1] + x[1] * y[3],
      x[2] * y[0] + x[3] * y[2], x[2] * y[1] + x[3] * y[3]]
    ensures Mul(Matrix(x, Dimensions(2, 2)), Matrix(y, Dimensions(2, 2))) == Matrix(z, Dimensions(2, 2))
  {
    MulIsProduct(Matrix(x, Dimensions(2, 2)), Matrix(y, Dimensions(2, 2)));
    Ops.Product2x2x2(x, y);
    InnerProduct2([x[0], x[1]], [y[0], y[2]]);
    InnerProduct2([x[0], x[1]], [y[1], y[3]]);
    InnerProduct2([x[2], x[3]], [y[0], y[2]]);
    InnerProduct2([x[2], x[3]], [y[1], y[3]]);
  }

  /** A 2 by 3 times 3 by 3 product written out cell by cell, for concrete matrices. */
  lemma Mul2x3x3(x: seq<int>, y: seq<int>, z: seq<int>)
    requires |x| == 6 && |y| == 9
    requires z == [
      x[0] * y[0] + x[1] * y[3] + x[2] * y[6],
      x[0] * y[1] + x[1] * y[4] + x[2] * y[7],
      x[0] * y[2] + x[1] * y[5] + x[2] * y[8],
      x[3] * y[0] + x[4] * y[3] + x[5] * y[6],
      x[3] * y[1] + x[4] * y[4] + x[5] * y[7],
      x[3] * y[2] + x[4] * y[5] + x[5] * y[8]]
    ensures Mul(Matrix(x, Dimensions(2, 3)), Matrix(y, Dimensions(3, 3))) == Matrix(z, Dimensions(2, 3))
  {
    MulIsProduct(Matrix(x, Dimensions(2, 3)), Matrix(y, Dimensions(3, 3)));
    Ops.Product2x3x3(x, y);
    InnerProduct3([x[0], x[1], x[2]], [y[0], y[3], y[6]]);
    InnerProduct3([x[0], x[1], x[2]], [y[1], y[4], y[7]]);
    InnerProduct3([x[0], x[1], x[2]], [y[2], y[5], y[8]]);
    InnerProduct3([x[3], x[4], x[5]], [y[0], y[3], y[6]]);
    InnerProduct3([x[3], x[4], x[5]], [y[1], y[4], y[7]]);
    InnerProduct3([x[3], x[4], x[5]], [y[2], y[5], y[8]]);
  }

  /** The unit test matrix_multiplication_small_square: [[1, 2], [3, 4]] times [[5, 6], [7, 8]]. */
  lemma MulSquareExample()
    ensures Mul(Matrix([1, 2, 3, 4], Dimensions(2, 2)), Matrix([5, 6, 7, 8], Dimensions(2, 2)))
         == Matrix([1 * 5 + 2 * 7, 1 * 6 + 2 * 8, 3 * 5 + 4 * 7, 3 * 6 + 4 * 8], Dimensions(2, 2))
  {
    Mul2x2x2([1, 2, 3, 4], [5, 6, 7, 8], [1 * 5 + 2 * 7, 1 * 6 + 2 * 8, 3 * 5 + 4 * 7, 3 * 6 + 4 * 8]);
  }

  /** The unit test matrix_multiplication_small_rect: a 2 by 3 times a 3 by 3 matrix. */
  lemma MulRectExample()
    ensures Mul(Matrix([1, 2, 3, 4, 5, 6], Dimensions(2, 3)), Matrix([1, 2, 3, 4, 5, 6, 7, 8, 9], Dimensions(3, 3)))
         == Matrix([30, 36, 42, 66, 81, 96], Dimensions(2, 3))
  {
    Mul2x3x3([1, 2, 3, 4, 5, 6], [1, 2, 3, 4, 5, 6, 7, 8, 9], [30, 36, 42, 66, 81, 96]);
  }
}

/**
 * Building matrices (src/matrix/constructors.rs).
 *
 * `new` and `from_row_major` abort when their input does not describe a
 * well-formed matrix; here they return Err(ShapeMismatch) instead. The
 * remaining constructors cannot fail.
 */
module Constructors {
  import opened Layout
  import opened Dims
  import opened Matrices
  import opened Results

  /** Some row's length differs from the first row's, the condition Matrix::new asserts against. */
  predicate Ragged(rows: seq<seq<int>>)
  {
    exists i :: 0 <= i < |rows| && |rows[i]| != |rows[0]|
  }

  /**
   * Matrix::new: the rows laid end to end. The shape is |rows| by the length
   * of the first row, or 0 by 0 when there are no rows.
   */
  function New(rows: seq<seq<int>>): (res: Result<Matrix>)
    ensures res.Err? <==> Ragged(rows)
    ensures res.Err? ==> res.error == ShapeMismatch
    ensures res.Ok? ==> res.value.Valid()
    ensures res.Ok? ==> res.value.dims == Dimensions(|rows|, if |rows| == 0 then 0 else |rows[0]|)
    ensures res.Ok? ==> forall r, c :: 0 <= r < |rows| && 0 <= c < |rows[r]| ==> Get(res.value, r, c) == rows[r][c]
  {
    if Ragged(rows) then Err(ShapeMismatch)
    else
      var cols := if |rows| == 0 then 0 else |rows[0]|;
      FlattenCells(rows, cols);
      Ok(Matrix(Flatten(rows), Dimensions(|rows|, cols)))
  }

  /** Row r of a matrix built by New is the r-th input row. */
  lemma NewRows(rows: seq<seq<int>>, r: nat)
    requires New(rows).Ok? && r < |rows|
    ensures Row(New(rows).value, r) == rows[r]
  {
    FlattenRow(rows, |rows[0]|, r);
  }

  /** Cutting a matrix into its rows and building it again gives back the same matrix. */
  lemma NewOfRows(m: Matrix)
    requires m.Valid() && m.dims.rows > 0
    ensures New(seq(m.dims.rows, r requires 0 <= r < m.dims.rows => Row(m, r))) == Ok(m)
  {
    var rows := seq(m.dims.rows, r requires 0 <= r < m.dims.rows => Row(m, r));
    assert !Ragged(rows);
    var m' := New(rows).value;
    Extensionality(m', m);
  }

  /**
   * Matrix::from_row_major: adopts the buffer as it is, provided it holds
   * exactly one element per cell of the shape.
   */
  function FromRowMajor(d: Dimensions, elements: seq<int>): (res: Result<Matrix>)
    ensures res.Err? <==> |elements| != Elements(d)
    ensures res.Err? ==> res.error == ShapeMismatch
    ensures res.Ok? ==> res.value.Valid() && res.value.dims == d && res.value.elements == elements
  {
    if |elements| != Elements(d) then Err(ShapeMismatch) else Ok(Matrix(elements, d))
  }

  /** Building from rows and building from the concatenated rows agree. */
  lemma FromRowMajorAgreesWithNew(rows: seq<seq<int>>)
    requires |rows| > 0 && !Ragged(rows)
    ensures FromRowMajor(Dimensions(|rows|, |rows[0]|), Flatten(rows)) == New(rows)
  {
    FlattenLength(rows, |rows[0]|);
  }

  /** Matrix::filled: every one of the d.rows * d.cols cells holds `value`. */
  function Filled(value: int, d: Dimensions): (m: Matrix)
    ensures m.Valid() && m.dims == d
    ensures forall r, c :: 0 <= r < d.rows && 0 <= c < d.cols ==> Get(m, r, c) == value
  {
    var elements := seq(Elements(d), _ => value);
    ConstantCells(elements, value, d.rows, d.cols);
    Matrix(elements, d)
  }

  /** Matrix::zeros. */
  function Zeros(d: Dimensions): (m: Matrix)
    ensures m.Valid() && m.dims == d
    ensures forall r, c :: 0 <= r < d.rows && 0 <= c < d.cols ==> Get(m, r, c) == 0
  {
    Filled(0, d)
  }

  /** Matrix::ones. */
  function Ones(d: Dimensions): (m: Matrix)
    ensures m.Valid() && m.dims == d
    ensures forall r, c :: 0 <= r < d.rows && 0 <= c < d.cols ==> Get(m, r, c) == 1
  {
    Filled(1, d)
  }

  /**
   * Matrix::diagonal: a zeroed size-by-size matrix, then `value` written at
   * [i][i] for each i in turn.
   */
  method Diagonal(value: int, size: nat) returns (m: Matrix)
    ensures m.Valid() && m.dims == Square(size)
    ensures forall r, c :: 0 <= r < size && 0 <= c < size ==> Get(m, r, c) == (if r == c then value else 0)
  {
    m := Filled(0, Square(size));
    for i := 0 to size
      invariant m.Valid() && m.dims == Square(size)
      invariant forall r, c :: 0 <= r < size && 0 <= c < size ==> Get(m, r, c) == (if r == c && r < i then value else 0)
    {
      m := SetCell(m, i, i, value);
    }
  }

  /** `m` is the size-by-size identity: one on the diagonal and zero elsewhere. */
  predicate IsIdentity(m: Matrix, size: nat)
  {
    && m.Valid() && m.dims == Square(size)
    && forall r, c :: 0 <= r < size && 0 <= c < size ==> Get(m, r, c) == (if r == c then 1 else 0)
  }

  /** Matrix::identity: the diagonal matrix with one on the diagonal. */
  method Identity(size: nat) returns (m: Matrix)
    ensures m.Valid() && m.dims == Square(size)
    ensures forall r, c :: 0 <= r < size && 0 <= c < size ==> Get(m, r, c) == (if r == c then 1 else 0)
    ensures IsIdentity(m, size)
  {
    m := Diagonal(1, size);
  }

  /** The doc test of from_row_major: six elements as a 2 by 3 matrix are the rows [1, 2, 3] and [4, 5, 6]. */
  lemma FromRowMajorExample()
    ensures New([[1, 2, 3], [4, 5, 6]]) == Ok(Matrix([1, 2, 3, 4, 5, 6], Dimensions(2, 3)))
    ensures FromRowMajor(Dimensions(2, 3), [1, 2, 3, 4, 5, 6]) == New([[1, 2, 3], [4, 5, 6]])
  {
    var rows := [[1, 2, 3], [4, 5, 6]];
    assert !Ragged(rows);
    Flatten2(rows);
    assert Flatten(rows) == [1, 2, 3, 4, 5, 6];
  }
}

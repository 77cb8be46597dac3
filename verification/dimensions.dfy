/**
 * The shape of a matrix (src/matrix/dimensions.rs): a row count, a column
 * count, and the row-major map from a cell to its offset in storage.
 */
module Dims {
  import opened Layout

  datatype Dimensions = Dimensions(rows: nat, cols: nat)

  /** Dimensions::square: a size-by-size shape, which is its own transpose and has size * size cells. */
  function Square(size: nat): (d: Dimensions)
    ensures Transpose(d) == d && Elements(d) == size * size
  {
    Dimensions(size, size)
  }

  /** Dimensions::elements: how many cells the shape has; none exactly when a side is zero. */
  function Elements(d: Dimensions): (n: nat)
    ensures n == 0 <==> d.rows == 0 || d.cols == 0
  {
    d.rows * d.cols
  }

  /** Dimensions::transpose: rows and columns swapped, which keeps the cell count. */
  function Transpose(d: Dimensions): (t: Dimensions)
    ensures t.rows == d.cols && t.cols == d.rows
    ensures Elements(t) == Elements(d)
  {
    Dimensions(d.cols, d.rows)
  }

  /**
   * Dimensions::row_major: the storage offset of cell (row, col). It does no
   * bounds check; an in-range cell lands inside storage.
   */
  function RowMajor(d: Dimensions, row: nat, col: nat): (k: nat)
    ensures row < d.rows && col < d.cols ==> k < Elements(d)
  {
    if row < d.rows && col < d.cols then
      FlatBound(row, col, d.rows, d.cols);
      Flat(row, col, d.cols)
    else
      Flat(row, col, d.cols)
  }

  /** From<(usize, usize)>: the first component is the row count; the pair is recovered from the shape. */
  function FromPair(p: (nat, nat)): (d: Dimensions)
    ensures (d.rows, d.cols) == p
  {
    Dimensions(p.0, p.1)
  }

  /** From<[usize; 2]>: element 0 is the row count; the array is recovered from the shape. */
  function FromArray(a: seq<nat>): (d: Dimensions)
    requires |a| == 2
    ensures [d.rows, d.cols] == a
  {
    Dimensions(a[0], a[1])
  }

  /** Transposing a shape twice restores it. */
  lemma TransposeInvolution(d: Dimensions)
    ensures Transpose(Transpose(d)) == d
  {
  }

  /**
   * RowMajor is a bijection from the in-range cells onto the offsets
   * 0 .. Elements(d): in-range cells land inside storage (RowMajor's own
   * contract), distinct cells land on distinct offsets, and every offset is
   * reached.
   */
  lemma RowMajorInjective(d: Dimensions, r1: nat, c1: nat, r2: nat, c2: nat)
    requires c1 < d.cols && c2 < d.cols
    requires RowMajor(d, r1, c1) == RowMajor(d, r2, c2)
    ensures r1 == r2 && c1 == c2
  {
    FlatInjective(r1, c1, r2, c2, d.cols);
  }

  lemma RowMajorOnto(d: Dimensions, k: nat)
    requires k < Elements(d)
    ensures exists row: nat, col: nat :: row < d.rows && col < d.cols && RowMajor(d, row, col) == k
  {
    FlatSurjective(k, d.rows, d.cols);
    var row, col := k / d.cols, k % d.cols;
    assert RowMajor(d, row, col) == k;
  }

  /** Both conversions build the same shape from the same two numbers, and either one rebuilds any shape. */
  lemma ConversionsAgree(rows: nat, cols: nat, d: Dimensions)
    ensures FromArray([rows, cols]) == FromPair((rows, cols))
    ensures FromPair((d.rows, d.cols)) == d && FromArray([d.rows, d.cols]) == d
  {
  }
}

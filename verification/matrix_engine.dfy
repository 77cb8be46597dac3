/**
 * The flat-buffer matrix of src/matrix.rs: `&a * &b` hands both buffers to
 * ops::mat_mul and wraps the result with a.rows rows and b.cols columns.
 *
 * mat_mul only debug-asserts its shape arguments (through transpose and
 * write_mat_mul_transposed); those assertions are the precondition here.
 */
module EngineMatrix {
  import opened Dims
  import opened Matrices
  import opened Results
  import Ops
  import MatrixOps

  /**
   * &a * &b through the flat engine. It computes the textbook product and so
   * agrees with the iterator-based product of src/matrix/operations.rs on
   * every pair of operands whose shapes match.
   */
  method Mul(a: Matrix, b: Matrix) returns (p: Matrix)
    requires a.Valid() && b.Valid() && a.dims.cols == b.dims.rows
    ensures p.Valid() && p.dims == Dimensions(a.dims.rows, b.dims.cols)
    ensures p.elements == Ops.Product(a.elements, a.dims.rows, a.dims.cols, b.elements, b.dims.cols)
    ensures p == MatrixOps.Mul(a, b) && MatrixOps.CheckedMul(a, b) == Ok(p)
  {
    var data := Ops.MatMul(a.elements, a.dims.rows, a.dims.cols, b.elements, b.dims.rows, b.dims.cols);
    p := Matrix(data, Dimensions(a.dims.rows, b.dims.cols));
    MatrixOps.MulIsProduct(a, b);
  }
}

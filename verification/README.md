# land: dense matrices and vectors over flat row-major buffers

This project models the core of `land`, a small dense linear-algebra library,
and proves properties of the model in Dafny. The scalar type is `int`, so zero,
one, `+`, `-` and `*` are exact. There are four parts.

- **The flat-buffer engine** (`ops.dfy`, module `Ops`). It works on slices laid
  out row after row. It contains `dot`, `transpose`/`write_transpose`, the
  naive triple loop `write_mat_mul`, the row-dot kernel
  `write_mat_mul_transposed`, and `mat_mul`, which transposes its right operand
  and then runs the row-dot kernel. The `write_*` kernels are methods. Each one
  takes the output buffer and returns it filled, and each is proved equal to a
  functional reference. The central theorems are that transpose is an
  involution and that the transpose-then-dot-rows scheme gives exactly the
  textbook product.
- **The shape** (`dimensions.dfy`, module `Dims`): `Dimensions`, `square`,
  `elements`, `transpose`, the row-major offset map `row_major(r, c) = r * cols + c`,
  and the tuple and array conversions.
- **The matrix value** (`matrix.dfy`, `constructors.dfy`,
  `matrix_operations.dfy`, `matrix_engine.dfy`). A matrix is a flat `seq<int>`
  plus its `Dimensions`, with the invariant `|elements| == rows * cols`. It has:
  - row and element indexing, and the in-place cell write;
  - the constructors;
  - `transpose`;
  - the product `&a * &b` in two versions. One is the iterator-based version in
    `src/matrix/operations.rs`. The other is the engine-backed version in
    `src/matrix.rs`.
- **The vector** (`vector.dfy`, `vector_operations.dfy`): constructors,
  indexing, `map` and equality. It also has the length-checked `dot` and the
  elementwise `add`/`sub` in all four owned/borrowed operand forms.

Two shared modules hold the facts everything else relies on:
- `layout.dfy` (module `Layout`) holds the row-major index map, the cell
  accessor `At`, and `Flatten`, which lays rows end to end. The matrix storage,
  the transpose and both products are all built as a `Flatten` of rows.
- `sums.dfy` (module `Sums`) holds the left fold from zero that every dot
  product computes. It also holds the zip/map/fold form, which stops at the
  shorter input.

The library signals misuse in two ways, and the model treats them differently:
- **`assert!` panics** are returned as values: `Err(ShapeMismatch)` for ragged
  rows or a wrong element count, and `Err(DimensionMismatch)` for vectors of
  unequal length (module `Results`). These are the panics in `Matrix::new`,
  `from_row_major` and the vector operations.
- **`debug_assert!`s and out-of-range indexing** become preconditions.

The two `Matrix` definitions in the repository are the same value:
- `data/rows/cols` in `src/matrix.rs`;
- `elements/dimensions` in `src/matrix/*.rs`.

Both are the one datatype `Matrices.Matrix`. The row accessors `row`/`row_mut`
that `src/matrix/index.rs` delegates to are not part of this model. They are
taken to return the `cols` elements starting at `row_major(r, 0)`.

Where the library's design promises a shape check that its code does not
perform, the model follows the code. The product in `src/matrix/operations.rs`
refuses nothing. The corrected, checking product is modelled alongside it, as
described under Findings.

## Model

| member | source | states |
|---|---|---|
| Ops.Dot | src/ops.rs:103-111 | for slices of equal length, the loop returns the left fold from zero of a[i] * b[i] |
| Ops.Transposed | src/ops.rs:83-101 | the transpose has rows * cols elements, and cell (c, r) of it is cell (r, c) of the input, for every in-range r and c |
| Ops.TransposeInvolution | src/ops.rs:83-101 | transposing a rows-by-cols buffer and then the cols-by-rows result gives back the original buffer |
| Ops.WriteTranspose | src/ops.rs:92-101 | the column-major double loop leaves the transpose in the output, whatever the output held before |
| Ops.Transpose | src/ops.rs:83-90 | transposing into a zeroed buffer yields a buffer of the same length whose cell (c, r) is input cell (r, c) |
| Ops.Product | src/ops.rs:23-50 | the textbook product: cell (r, c) is the dot product of row r of a with column c of b |
| Ops.RowDots | src/ops.rs:53-81 | the product against a pre-transposed right operand: cell (r, c) is the dot product of row r of a with row c of b |
| Ops.ColumnIsTransposedRow | src/ops.rs:15-18 | column c of b is row c of b's transpose, which is what lets mat_mul read columns as rows |
| Ops.TransposedKernelIsProduct | src/ops.rs:5-81 | the row-dot kernel applied to the transpose of b yields the same buffer as the naive triple loop on b |
| Ops.RowColumnSum | src/ops.rs:41-45 | the innermost loop over i, which reads a[row * a_cols + i] and b[i * b_cols + col], sums row `row` of a against column `col` of b |
| Ops.WriteMatMul | src/ops.rs:23-50 | given a_cols == b_rows and matching lengths, every output cell (r, c) is overwritten with the sum over i of a[r][i] * b[i][c] |
| Ops.WriteMatMulTransposed | src/ops.rs:53-81 | given a_cols == b_cols, every output cell (r, c) is overwritten with dot(row r of a, row c of b), so nothing stale survives |
| Ops.MatMul | src/ops.rs:5-21 | the result has a_rows * b_cols elements and equals the textbook product |
| Ops.DotExample | src/ops.rs:117-124 | dot([1, 3, 7], [1, -2, 2]) == 9 |
| Ops.TransposeSquareExample | src/ops.rs:126-153 | the 3 by 3 buffer 0..8 transposes to [0, 3, 6, 1, 4, 7, 2, 5, 8] |
| Ops.TransposeRectExample | src/ops.rs:136-162 | the 2 by 5 buffer 0..9 transposes to [0, 5, 1, 6, 2, 7, 3, 8, 4, 9] |
| Ops.ProductExample | src/ops.rs:164-172 | [1..6] as 2 by 3 times [7..12] as 3 by 2 is [58, 64, 139, 154] |
| Ops.TransposedProductExample | src/ops.rs:174-183 | the row-dot kernel on the transposed right operand also gives [58, 64, 139, 154] |
| Sums.ZipFoldIsInnerProduct | src/matrix/operations.rs:21-29 | zip / map / fold from an accumulator adds the left-fold dot product of the common prefix of the two inputs |
| Sums.InnerProductCommutes | src/vector/operations.rs:16-26 | the fold of pairwise products is the same with the operands swapped |
| Dims.Square | src/matrix/dimensions.rs:11-16 | square(n) is its own transpose and has n * n elements |
| Dims.Elements | src/matrix/dimensions.rs:18-20 | elements() is zero exactly when the shape has no rows or no columns |
| Dims.Transpose | src/matrix/dimensions.rs:22-27 | transpose swaps rows and cols and keeps the element count |
| Dims.TransposeInvolution | src/matrix/dimensions.rs:22-27 | transposing a shape twice restores it |
| Dims.RowMajor | src/matrix/dimensions.rs:30-32 | an in-range (row, col) maps to an offset below elements() |
| Dims.RowMajorInjective | src/matrix/dimensions.rs:30-32 | two cells with in-range columns and the same offset are the same cell |
| Dims.RowMajorOnto | src/matrix/dimensions.rs:30-32 | every offset below elements() is the offset of some in-range cell |
| Dims.FromPair | src/matrix/dimensions.rs:35-39 | the pair (rows, cols) is recovered from the shape built from it, so the first component is the row count |
| Dims.FromArray | src/matrix/dimensions.rs:41-45 | the array [rows, cols] is recovered from the shape built from it, so element 0 is the row count |
| Dims.ConversionsAgree | src/matrix/dimensions.rs:35-45 | the two From conversions build the same shape from the same two numbers, and each rebuilds any shape from its own rows and cols |
| Matrices.Row | src/matrix/index.rs:10-12 | m[r] has exactly cols elements, and element c is the stored cell (r, c) |
| Matrices.Get | src/matrix/index.rs:3-13 | m[r][c] reads storage at row_major(r, c), which is inside the storage |
| Matrices.RowIsSlice | src/matrix/index.rs:10-12 | m[r] is the slice of cols elements that starts at row_major(r, 0) |
| Matrices.SetCell | src/matrix/index.rs:15-23 | writing m[r][c] = v makes that cell v, leaves every other cell and the dimensions unchanged, and keeps the invariant |
| Matrices.IndexExample | src/matrix/index.rs:30-43 | the six reads of [[1, 2, 3], [4, 5, 6]] give 1 to 6 |
| Constructors.New | src/matrix/constructors.rs:5-29 | new fails exactly when some row's length differs from the first row's. Otherwise the shape is (len, len of row 0, or 0), the invariant holds and cell (r, c) is rows[r][c] |
| Constructors.NewRows | src/matrix/constructors.rs:23-28 | row r of the matrix built from rows is rows[r] |
| Constructors.NewOfRows | src/matrix/constructors.rs:5-29 | for every valid matrix with at least one row, building a matrix from its own rows gives back the matrix. A matrix with no rows comes back 0 by 0, since new([]) has no first row to take the width from |
| Constructors.FromRowMajor | src/matrix/constructors.rs:48-60 | from_row_major fails exactly when the element count differs from elements(). Otherwise the buffer and shape are stored unchanged |
| Constructors.FromRowMajorAgreesWithNew | src/matrix/constructors.rs:5-60 | for equal-length rows, from_row_major of the concatenation equals new of the rows |
| Constructors.FromRowMajorExample | src/matrix/constructors.rs:32-46 | [1..6] as 2 by 3 equals the matrix built from [[1, 2, 3], [4, 5, 6]] |
| Constructors.Filled | src/matrix/constructors.rs:68-73 | filled(v, d) has shape d and every cell v |
| Constructors.Zeros | src/matrix/constructors.rs:81-83 | zeros(d) has shape d and every cell 0 |
| Constructors.Ones | src/matrix/constructors.rs:86-88 | ones(d) has shape d and every cell 1 |
| Constructors.Diagonal | src/matrix/constructors.rs:91-99 | diagonal(v, n) is n by n, with v at [i][i] and 0 everywhere else |
| Constructors.Identity | src/matrix/constructors.rs:102-104 | identity(n) is n by n, with 1 on the diagonal and 0 elsewhere |
| MatrixOps.Transpose | src/matrix/operations.rs:8-18 | the transpose has the transposed dimensions, and out[c][r] == self[r][c] |
| MatrixOps.TransposeInvolution | src/matrix/operations.rs:8-18 | transposing a matrix twice gives back the matrix |
| MatrixOps.TransposedRowIsColumn | src/matrix/operations.rs:40-53 | row c of rhs.transpose() is column c of rhs |
| MatrixOps.Dot | src/matrix/operations.rs:21-29 | the zip-based dot sums lhs[i] * rhs[i] only over i < min of the two lengths |
| MatrixOps.Mul | src/matrix/operations.rs:37-58 | &a * &b has dimensions (a.rows, b.cols), and out[r][c] is dot(a[r], column c of b), with no shape check |
| MatrixOps.MulIsProduct | src/matrix/operations.rs:37-58 | when a.cols == b.rows, out[r][c] is the sum over k of a[r][k] * b[k][c], the same buffer write_mat_mul computes |
| MatrixOps.MulIdentityLeft | src/matrix/operations.rs:21-58 | for any n by n identity (the shape identity(n) returns, src/matrix/constructors.rs:102-104) and any valid m with n rows, identity * m == m |
| MatrixOps.MulIdentityRight | src/matrix/operations.rs:21-58 | for any valid m with n columns and any n by n identity, m * identity == m |
| MatrixOps.MulAssociative | src/matrix/operations.rs:21-58 | for valid a, b, c with a.cols == b.rows and b.cols == c.rows, (a * b) * c == a * (b * c) |
| MatrixOps.CheckedMul | src/matrix/operations.rs:37-58 | the corrected product fails exactly when a.cols != b.rows, and otherwise yields the textbook product |
| MatrixOps.MulAcceptsMismatchedShapes | src/matrix/operations.rs:21-58 | a 1 by 2 times a 1 by 1 matrix is accepted and yields [[3]], which the corrected product refuses |
| MatrixOps.TransposeSquareExample | src/matrix/operations.rs:66-73 | [[1, 2, 3], [4, 5, 6], [7, 8, 9]] transposes to [[1, 4, 7], [2, 5, 8], [3, 6, 9]] |
| MatrixOps.TransposeRectExample | src/matrix/operations.rs:75-82 | [[1, 2, 3], [4, 5, 6]] transposes to [[1, 4], [2, 5], [3, 6]] |
| MatrixOps.MulRectExample | src/matrix/operations.rs:84-92 | [[1, 2, 3], [4, 5, 6]] times [[1, 2, 3], [4, 5, 6], [7, 8, 9]] is [[30, 36, 42], [66, 81, 96]] |
| MatrixOps.MulSquareExample | src/matrix/operations.rs:94-108 | [[1, 2], [3, 4]] times [[5, 6], [7, 8]] is the written-out product |
| EngineMatrix.Mul | src/matrix.rs:13-31 | given valid operands and self.cols == rhs.rows, the result has rows == self.rows and cols == rhs.cols, keeps the invariant, has data equal to mat_mul's textbook product, and equals the iterator-based product, which the shape-checking product accepts |
| Vectors.New | src/vector.rs:12-18 | new adopts the elements unchanged, so len() is their count and v[i] is element i |
| Vectors.Len | src/vector.rs:16-18 | len() is zero exactly for the empty vector |
| Vectors.Get | src/vector.rs:105-111 | v[i] with i < len() is one of the vector's elements |
| Vectors.Set | src/vector.rs:105-117 | v[i] = x with i < len() changes position i only and keeps the length |
| Vectors.Filled | src/vector.rs:38-42 | filled(v, n) has length n and every element v |
| Vectors.Zeros | src/vector.rs:66-68 | zeros(n) has length n and every element 0 |
| Vectors.Ones | src/vector.rs:71-73 | ones(n) has length n and every element 1 |
| Vectors.Map | src/vector.rs:49-58 | map keeps the length and replaces element i by f of element i |
| Vectors.Equal | src/vector.rs:76-83 | equality holds exactly when the lengths match and every element matches |
| Vectors.EqualIsIdentity | src/vector.rs:80-82 | equality of vectors coincides with equality of the values |
| Vectors.ConstructorExamples | src/vector.rs:123-136 | filled(2, 3), zeros(3) and ones(3) are [2, 2, 2], [0, 0, 0] and [1, 1, 1] |
| Vectors.MapExample | src/vector.rs:138-145 | mapping +1 over [1, 2, 3] gives [2, 3, 4] |
| VectorOps.Dot | src/vector/operations.rs:3-26 | dot fails exactly when the lengths differ, and otherwise is the left fold from zero of lhs[i] * rhs[i] |
| VectorOps.VectorDot | src/vector/operations.rs:28-35 | Vector::dot is the free dot on the two element sequences |
| VectorOps.DotCommutes | src/vector/operations.rs:16-35 | a.dot(b) == b.dot(a), including agreeing on failure |
| VectorOps.Elementwise | src/vector/operations.rs:37-95 | add and sub fail exactly when the lengths differ. Otherwise the length is kept and element i is lhs[i] op rhs[i] |
| VectorOps.OwnedRef | src/vector/operations.rs:39-54 | writing the results over the left operand computes the elementwise result |
| VectorOps.RefOwned | src/vector/operations.rs:56-71 | writing the results over the right operand still computes lhs[i] op rhs[i] |
| VectorOps.RefRef | src/vector/operations.rs:73-82 | the clone-then-owned form computes the elementwise result |
| VectorOps.OwnedOwned | src/vector/operations.rs:84-93 | the both-owned form computes the elementwise result |
| VectorOps.AddThenSub | src/vector/operations.rs:37-98 | subtracting b from a + b gives back a |
| VectorOps.AddCommutes | src/vector/operations.rs:37-98 | a + b == b + a, including agreeing on failure |
| VectorOps.OperationExamples | src/vector/operations.rs:104-144 | [1, 2, 3] dot [1, 2, 2] is 11, their sum is [2, 4, 5] and their difference is [0, 0, 1] |
| VectorOps.MismatchExample | src/vector/operations.rs:3-13 | operands of lengths 3 and 2 are refused by dot and by add |

## Left out

- The `Scalar` trait (`src/traits.rs`) is only a bound. The scalar is `int`, so
  overflow of a fixed-width scalar is not modelled: sums and products are exact.
- `usize` overflow in `rows * cols`, `row * cols + col` and the like is not
  modelled. Dimensions and offsets are unbounded `nat`.
- Floating point, including the f64 benchmarks in `src/ops.rs`, is not modelled.
- `mat!` (`src/macros.rs`) is construction sugar for `Matrix::new`. Its one
  two-dimensional arm does not match the one-dimensional `mat![1, 2, 3]` that
  the vector tests use; those tests are stated on vectors directly.
- `src/lib.rs` is module wiring only.
- `Display` and `Debug` formatting are left out.
- The iterator accessors, `Deref` and `AsRef` of `Vector` only expose the
  underlying sequence.
- Ownership and borrowing are not modelled. A clone is a copy of the value.
  The four operator forms are four methods whose bodies follow the source's
  loops, and all four compute the same function.
- Vectors.Map: `f` is a pure function. An `FnMut` closure that keeps state
  between calls is not modelled.
- Matrix equality (`PartialEq for Matrix`) is not part of the model. The unit
  tests' comparisons are stated as equality of the values.
- Matrices.Row: the `row`/`row_mut` definitions are not part of the model.
  Row r is taken to be the `cols` elements from `row_major(r, 0)`, and an
  out-of-range row is a precondition.
- MatrixOps.Transpose: the source fills a zeroed matrix through `out[col][row]`
  in a column-major sweep. The model builds the same value as the flat
  engine's transpose, which is that same sweep.
- MatrixOps.Mul: the source writes `out[row][col]` into a zeroed matrix in a
  double loop. The model builds the same cells as a function.
- Ops.WriteMatMul, Ops.WriteMatMulTransposed, Ops.WriteTranspose, Ops.Dot: the
  `debug_assert!`s become preconditions. A release build skips them and runs
  the kernels on mismatched shapes. Each run then either panics on a slice
  index or silently returns a truncated or partial result, and neither
  outcome is modelled. Examples: `dot` with a shorter `a` than `b` folds
  only `a.len()` products (src/ops.rs:107-108); `write_transpose` with an
  output longer than rows * cols leaves the extra cells as they were.
- EngineMatrix.Mul: `src/matrix.rs` has no shape check of its own. The
  `debug_assert!`s inside `mat_mul` are taken as its precondition. In a
  release build, mismatched operands either panic on an index or give a
  truncated product: `mat_mul([1], 1, 1, [2, 3], 2, 1)` returns `[2]`
  (src/ops.rs:17-18, 71-78, 107-108). So `&A * &B` in `src/matrix.rs`
  silently truncates, the same defect as the Finding below.
- Vectors.Get: the contract says only that v[i] is one of the elements. Which
  element it is, element i, follows from the contracts of Vectors.New,
  Vectors.Set and Vectors.Map, which state v[i] position by position.
- Scalar broadcast, matrix times vector, outer product, compound assignment
  and elementwise matrix addition do not appear in the code, so they are not
  modelled.

## Findings

| source | as written | input that shows it | evidently intended | confidence | as-written member | corrected member |
|---|---|---|---|---|---|---|
| src/matrix/operations.rs:21-58 | `&a * &b` has no shape check, and its `dot` zips the two rows and silently drops the excess elements of the longer one | a = [[1, 2]] (1 by 2) and b = [[3]] (1 by 1) give [[3]] | operands with a.cols != b.rows are refused with a dimension mismatch, as the vector operations refuse unequal lengths | medium, not executed | MatrixOps.MulAcceptsMismatchedShapes | MatrixOps.CheckedMul |


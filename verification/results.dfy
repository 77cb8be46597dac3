/**
 * Outcomes of the operations that the library guards with `assert!`.
 *
 * The library aborts with a message when a matrix is built from rows of
 * unequal length or from a buffer of the wrong size, and when two vectors of
 * different lengths are combined. The model returns these failures as values.
 */
module Results {

  datatype Error =
    | ShapeMismatch      // construction: ragged rows, or element count != rows * cols
    | DimensionMismatch  // binary operation on operands of disagreeing lengths

  datatype Result<+T> = Ok(value: T) | Err(error: Error)
}

/**
 * Dot product and elementwise arithmetic on vectors (src/vector/operations.rs).
 *
 * Every operation first asserts that its operands have equal lengths and
 * panics otherwise; here that failure is Err(DimensionMismatch). Addition
 * and subtraction come in four forms, by ownership of the operands; all four
 * compute the same vector.
 */
module VectorOps {
  import opened Sums
  import opened Results
  import opened Vectors

  /**
   * operations::dot: refuses slices of different lengths, then folds the
   * pairwise products from zero.
   */
  function Dot(lhs: seq<int>, rhs: seq<int>): (res: Result<int>)
    ensures res.Err? <==> |lhs| != |rhs|
    ensures res.Err? ==> res.error == DimensionMismatch
    ensures res.Ok? ==> res.value == InnerProduct(lhs, rhs)
  {
    if |lhs| != |rhs| then Err(DimensionMismatch)
    else
      ZipFoldIsInnerProduct(0, lhs, rhs);
      assert lhs[..|lhs|] == lhs && rhs[..|rhs|] == rhs;
      Ok(ZipFold(0, lhs, rhs))
  }

  /** Vector::dot. */
  function VectorDot(a: Vector, b: Vector): (res: Result<int>)
    ensures res.Err? <==> Len(a) != Len(b)
    ensures res.Ok? ==> res.value == InnerProduct(a.elements, b.elements)
  {
    Dot(a.elements, b.elements)
  }

  /** The dot product does not depend on the order of its operands. */
  lemma DotCommutes(a: Vector, b: Vector)
    ensures VectorDot(a, b) == VectorDot(b, a)
  {
    if Len(a) == Len(b) {
      InnerProductCommutes(a.elements, b.elements);
    }
  }

  /** The two elementwise operators the library implements. */
  datatype Op = Add | Sub

  function Apply(op: Op, x: int, y: int): int
  {
    match op
    case Add => x + y
    case Sub => x - y
  }

  /**
   * The vector all four operator forms produce: element i is
   * lhs[i] op rhs[i], provided the lengths agree.
   */
  function Elementwise(op: Op, lhs: Vector, rhs: Vector): (res: Result<Vector>)
    ensures res.Err? <==> Len(lhs) != Len(rhs)
    ensures res.Err? ==> res.error == DimensionMismatch
    ensures res.Ok? ==> Len(res.value) == Len(lhs)
    ensures res.Ok? ==> forall i :: 0 <= i < Len(lhs) ==> Get(res.value, i) == Apply(op, Get(lhs, i), Get(rhs, i))
  {
    if Len(lhs) != Len(rhs) then Err(DimensionMismatch)
    else Ok(Vector(seq(Len(lhs), i requires 0 <= i < Len(lhs) => Apply(op, Get(lhs, i), Get(rhs, i)))))
  }

  /** `self op &rhs` on an owned left operand: the results are written over the left operand's elements. */
  method OwnedRef(op: Op, lhs: Vector, rhs: Vector) returns (res: Result<Vector>)
    ensures res == Elementwise(op, lhs, rhs)
  {
    if Len(lhs) != Len(rhs) {
      return Err(DimensionMismatch);
    }
    var v := lhs;
    for i := 0 to Len(v)
      invariant Len(v) == Len(lhs)
      invariant forall j :: 0 <= j < i ==> Get(v, j) == Apply(op, Get(lhs, j), Get(rhs, j))
      invariant forall j :: i <= j < Len(v) ==> Get(v, j) == Get(lhs, j)
    {
      v := Set(v, i, Apply(op, Get(v, i), Get(rhs, i)));
    }
    ElementwiseEqual(v, Elementwise(op, lhs, rhs).value);
    res := Ok(v);
  }

  /**
   * `&self op rhs` on an owned right operand: the results are written over
   * the right operand's elements, still computing lhs[i] op rhs[i].
   */
  method RefOwned(op: Op, lhs: Vector, rhs: Vector) returns (res: Result<Vector>)
    ensures res == Elementwise(op, lhs, rhs)
  {
    if Len(lhs) != Len(rhs) {
      return Err(DimensionMismatch);
    }
    var v := rhs;
    for i := 0 to Len(lhs)
      invariant Len(v) == Len(rhs)
      invariant forall j :: 0 <= j < i ==> Get(v, j) == Apply(op, Get(lhs, j), Get(rhs, j))
      invariant forall j :: i <= j < Len(v) ==> Get(v, j) == Get(rhs, j)
    {
      v := Set(v, i, Apply(op, Get(lhs, i), Get(v, i)));
    }
    ElementwiseEqual(v, Elementwise(op, lhs, rhs).value);
    res := Ok(v);
  }

  /** `&self op &rhs`: a copy of the left operand, then the owned-by-reference form. */
  method RefRef(op: Op, lhs: Vector, rhs: Vector) returns (res: Result<Vector>)
    ensures res == Elementwise(op, lhs, rhs)
  {
    var copy := lhs;
    res := OwnedRef(op, copy, rhs);
  }

  /** `self op rhs` with both operands owned: the owned-by-reference form on a borrow of rhs. */
  method OwnedOwned(op: Op, lhs: Vector, rhs: Vector) returns (res: Result<Vector>)
    ensures res == Elementwise(op, lhs, rhs)
  {
    res := OwnedRef(op, lhs, rhs);
  }

  /** Subtracting what was added gives back the original vector. */
  lemma AddThenSub(a: Vector, b: Vector)
    requires Len(a) == Len(b)
    ensures Elementwise(Sub, Elementwise(Add, a, b).value, b) == Ok(a)
  {
    var s := Elementwise(Add, a, b).value;
    var d := Elementwise(Sub, s, b).value;
    ElementwiseEqual(d, a);
  }

  /** Elementwise addition does not depend on the order of its operands. */
  lemma AddCommutes(a: Vector, b: Vector)
    ensures Elementwise(Add, a, b) == Elementwise(Add, b, a)
  {
    if Len(a) == Len(b) {
      ElementwiseEqual(Elementwise(Add, a, b).value, Elementwise(Add, b, a).value);
    }
  }

  /** The unit tests dot_product_small, add_small and sub_small on [1, 2, 3] and [1, 2, 2]. */
  lemma OperationExamples()
    ensures VectorDot(Vector([1, 2, 3]), Vector([1, 2, 2])) == Ok(1 * 1 + 2 * 2 + 3 * 2)
    ensures Elementwise(Add, Vector([1, 2, 3]), Vector([1, 2, 2])) == Ok(Vector([1 + 1, 2 + 2, 3 + 2]))
    ensures Elementwise(Sub, Vector([1, 2, 3]), Vector([1, 2, 2])) == Ok(Vector([1 - 1, 2 - 2, 3 - 2]))
  {
    InnerProduct3([1, 2, 3], [1, 2, 2]);
    var a, b := Vector([1, 2, 3]), Vector([1, 2, 2]);
    assert Elementwise(Add, a, b).value.elements == [2, 4, 5];
    assert Elementwise(Sub, a, b).value.elements == [0, 0, 1];
  }

  /** Mismatched lengths are refused by every operation. */
  lemma MismatchExample()
    ensures VectorDot(Vector([1, 2, 3]), Vector([1, 2])) == Err(DimensionMismatch)
    ensures Elementwise(Add, Vector([1, 2, 3]), Vector([1, 2])) == Err(DimensionMismatch)
  {
  }
}

/**
 * The vector value (src/vector.rs): an owned sequence of scalars with
 * indexing, constant constructors, an in-place map and equality.
 */
module Vectors {

  datatype Vector = Vector(elements: seq<int>)

  /** Vector::new and From<Vec>: the sequence is adopted unchanged. */
  function New(elements: seq<int>): (v: Vector)
    ensures Len(v) == |elements|
    ensures forall i :: 0 <= i < |elements| ==> Get(v, i) == elements[i]
  {
    Vector(elements)
  }

  /** Vector::len: the number of elements; zero exactly for the empty vector. */
  function Len(v: Vector): (n: nat)
    ensures n == 0 <==> v == Vector([])
  {
    |v.elements|
  }

  /** v[i] through Index: one of the vector's elements, the one at position i. An index past the end panics. */
  function Get(v: Vector, i: nat): (x: int)
    requires i < Len(v)
    ensures x in v.elements
  {
    v.elements[i]
  }

  /** v[i] = x through IndexMut: element i becomes x and nothing else changes. */
  function Set(v: Vector, i: nat, x: int): (w: Vector)
    requires i < Len(v)
    ensures Len(w) == Len(v) && Get(w, i) == x
    ensures forall j :: 0 <= j < Len(v) && j != i ==> Get(w, j) == Get(v, j)
  {
    Vector(v.elements[i := x])
  }

  /** Vector::filled: `len` copies of `value`. */
  function Filled(value: int, len: nat): (v: Vector)
    ensures Len(v) == len
    ensures forall i :: 0 <= i < len ==> Get(v, i) == value
  {
    Vector(seq(len, _ => value))
  }

  /** Vector::zeros. */
  function Zeros(len: nat): (v: Vector)
    ensures Len(v) == len && forall i :: 0 <= i < len ==> Get(v, i) == 0
  {
    Filled(0, len)
  }

  /** Vector::ones. */
  function Ones(len: nat): (v: Vector)
    ensures Len(v) == len && forall i :: 0 <= i < len ==> Get(v, i) == 1
  {
    Filled(1, len)
  }

  /**
   * Vector::map: walks the elements front to back and replaces each by `f`
   * of itself. The length is unchanged.
   */
  method Map(v: Vector, f: int -> int) returns (w: Vector)
    ensures Len(w) == Len(v)
    ensures forall i :: 0 <= i < Len(v) ==> Get(w, i) == f(Get(v, i))
  {
    w := v;
    for i := 0 to Len(v)
      invariant Len(w) == Len(v)
      invariant forall j :: 0 <= j < i ==> Get(w, j) == f(Get(v, j))
      invariant forall j :: i <= j < Len(v) ==> Get(w, j) == Get(v, j)
    {
      w := Set(w, i, f(Get(w, i)));
    }
  }

  /** PartialEq: two vectors are equal when their element sequences are. */
  function Equal(a: Vector, b: Vector): (eq: bool)
    ensures eq <==> Len(a) == Len(b) && forall i :: 0 <= i < Len(a) ==> Get(a, i) == Get(b, i)
  {
    ElementwiseEqual(a, b);
    a.elements == b.elements
  }

  lemma ElementwiseEqual(a: Vector, b: Vector)
    ensures (Len(a) == Len(b) && forall i :: 0 <= i < Len(a) ==> Get(a, i) == Get(b, i)) ==> a.elements == b.elements
  {
    if Len(a) == Len(b) && forall i :: 0 <= i < Len(a) ==> Get(a, i) == Get(b, i) {
      assert forall i :: 0 <= i < |a.elements| ==> a.elements[i] == b.elements[i] by {
        forall i | 0 <= i < |a.elements| ensures a.elements[i] == b.elements[i] {
          assert Get(a, i) == Get(b, i);
        }
      }
    }
  }

  /** Equality of vectors is equality of the values: it is reflexive, and equal vectors are the same vector. */
  lemma EqualIsIdentity(a: Vector, b: Vector)
    ensures Equal(a, b) <==> a == b
  {
  }

  /** The unit tests create_filled_vector, create_zero_vector and create_one_vector. */
  lemma ConstructorExamples()
    ensures Filled(2, 3) == Vector([2, 2, 2])
    ensures Zeros(3) == Vector([0, 0, 0])
    ensures Ones(3) == Vector([1, 1, 1])
  {
    assert Filled(2, 3).elements == [2, 2, 2];
    assert Filled(0, 3).elements == [0, 0, 0];
    assert Filled(1, 3).elements == [1, 1, 1];
  }

  /** The unit test map_add_one: adding one to each of [1, 2, 3]. */
  method MapExample() returns (w: Vector)
    ensures w == Vector([2, 3, 4])
  {
    w := Map(Vector([1, 2, 3]), x => x + 1);
    assert w.elements == [2, 3, 4] by {
      assert Get(w, 0) == 2 && Get(w, 1) == 3 && Get(w, 2) == 4;
    }
  }
}

/**
 * Sums of pairwise products, the one reduction the library performs.
 *
 * The library computes every dot product as a left fold from the scalar's
 * zero: ((0 + a[0]*b[0]) + a[1]*b[1]) + ... . It does so in two spellings:
 * an index loop over equal-length slices (src/ops.rs) and an iterator
 * pipeline zip / map / fold (src/matrix/operations.rs and
 * src/vector/operations.rs), which silently stops at the shorter input.
 * InnerProduct is the reference fold; ZipFold is the iterator pipeline.
 */
module Sums {
  import opened Layout

  function Min(x: nat, y: nat): nat
  {
    if x <= y then x else y
  }

  /** The left fold from zero of a[i] * b[i]; the last product is added last. */
  function InnerProduct(a: seq<int>, b: seq<int>): int
    requires |a| == |b|
  {
    if |a| == 0 then 0
    else InnerProduct(a[..|a| - 1], b[..|b| - 1]) + a[|a| - 1] * b[|b| - 1]
  }

  /** Extending both prefixes by one position adds exactly that position's product. */
  lemma InnerProductStep(a: seq<int>, b: seq<int>, i: nat)
    requires |a| == |b| && i < |a|
    ensures InnerProduct(a[..i + 1], b[..i + 1]) == InnerProduct(a[..i], b[..i]) + a[i] * b[i]
  {
    assert a[..i + 1][..i] == a[..i];
    assert b[..i + 1][..i] == b[..i];
  }

  /** The same sum, peeled from the front instead of the back. */
  lemma {:induction false} InnerProductHead(a: seq<int>, b: seq<int>)
    requires |a| == |b| && |a| > 0
    ensures InnerProduct(a, b) == a[0] * b[0] + InnerProduct(a[1..], b[1..])
  {
    var n := |a|;
    if n == 1 {
      assert a[..0] == [] && a[1..] == [];
      assert b[..0] == [] && b[1..] == [];
    } else {
      InnerProductHead(a[..n - 1], b[..n - 1]);
      assert a[..n - 1][1..] == a[1..][..n - 2];
      assert b[..n - 1][1..] == b[1..][..n - 2];
    }
  }

  /** Swapping the operands of a dot product does not change it. */
  lemma {:induction false} InnerProductCommutes(a: seq<int>, b: seq<int>)
    requires |a| == |b|
    ensures InnerProduct(a, b) == InnerProduct(b, a)
  {
    if |a| > 0 {
      InnerProductCommutes(a[..|a| - 1], b[..|b| - 1]);
    }
  }

  /**
   * The iterator pipeline: pair the two inputs position by position, multiply
   * each pair, and add the products into the accumulator one per step. The
   * walk ends as soon as either side is exhausted.
   */
  function ZipFold(acc: int, a: seq<int>, b: seq<int>): int
    decreases |a|
  {
    if |a| == 0 || |b| == 0 then acc
    else ZipFold(acc + a[0] * b[0], a[1..], b[1..])
  }

  /** The iterator pipeline computes the reference fold over the common prefix of its inputs. */
  lemma {:induction false} ZipFoldIsInnerProduct(acc: int, a: seq<int>, b: seq<int>)
    ensures ZipFold(acc, a, b) == acc + InnerProduct(a[..Min(|a|, |b|)], b[..Min(|a|, |b|)])
    decreases |a|
  {
    var m := Min(|a|, |b|);
    if m > 0 {
      ZipFoldIsInnerProduct(acc + a[0] * b[0], a[1..], b[1..]);
      InnerProductHead(a[..m], b[..m]);
      assert a[..m][1..] == a[1..][..m - 1];
      assert b[..m][1..] == b[1..][..m - 1];
    }
  }

  /** A dot product against all zeros is zero, on either side. */
  lemma {:induction false} InnerProductZero(a: seq<int>, z: seq<int>)
    requires |a| == |z| && forall i :: 0 <= i < |z| ==> z[i] == 0
    ensures InnerProduct(a, z) == 0 && InnerProduct(z, a) == 0
  {
    if |a| > 0 {
      InnerProductZero(a[..|a| - 1], z[..|z| - 1]);
    }
  }

  /** Against the unit vector whose one is at position k, a dot product picks out element k. */
  lemma {:induction false} InnerProductUnit(a: seq<int>, e: seq<int>, k: nat)
    requires |a| == |e| && k < |e|
    requires forall i :: 0 <= i < |e| ==> e[i] == (if i == k then 1 else 0)
    ensures InnerProduct(a, e) == a[k] && InnerProduct(e, a) == a[k]
  {
    var n := |a|;
    if k == n - 1 {
      InnerProductZero(a[..n - 1], e[..n - 1]);
    } else {
      InnerProductUnit(a[..n - 1], e[..n - 1], k);
    }
  }

  /** x + s * y, position by position. */
  function AddScaled(x: seq<int>, s: int, y: seq<int>): (z: seq<int>)
    requires |x| == |y|
    ensures |z| == |x| && forall i :: 0 <= i < |x| ==> z[i] == x[i] + s * y[i]
  {
    seq(|x|, i requires 0 <= i < |x| => x[i] + s * y[i])
  }

  /** The dot product is linear in its left operand. */
  lemma {:induction false} InnerProductLinear(x: seq<int>, s: int, y: seq<int>, w: seq<int>)
    requires |x| == |y| == |w|
    ensures InnerProduct(AddScaled(x, s, y), w) == InnerProduct(x, w) + s * InnerProduct(y, w)
  {
    var n := |x|;
    if n > 0 {
      var z := AddScaled(x, s, y);
      assert z[..n - 1] == AddScaled(x[..n - 1], s, y[..n - 1]);
      InnerProductLinear(x[..n - 1], s, y[..n - 1], w[..n - 1]);
      var p, q := InnerProduct(x[..n - 1], w[..n - 1]), InnerProduct(y[..n - 1], w[..n - 1]);
      assert InnerProduct(z, w) == p + s * q + z[n - 1] * w[n - 1];
      Distribute(x[n - 1], s, y[n - 1], w[n - 1], q);
    }
  }

  /** The arithmetic step of InnerProductLinear. */
  lemma Distribute(xi: int, s: int, yi: int, wi: int, q: int)
    ensures s * q + (xi + s * yi) * wi == xi * wi + s * (q + yi * wi)
  {
    assert (xi + s * yi) * wi == xi * wi + s * (yi * wi);
    assert s * q + s * (yi * wi) == s * (q + yi * wi);
  }

  /** Column k of a list of rows that all hold `cols` entries. */
  function ColumnOfRows(rows: seq<seq<int>>, cols: nat, k: nat): (col: seq<int>)
    requires Uniform(rows, cols) && k < cols
    ensures |col| == |rows| && forall j :: 0 <= j < |rows| ==> col[j] == rows[j][k]
  {
    seq(|rows|, j requires 0 <= j < |rows| => rows[j][k])
  }

  /** The row vector u times the matrix whose rows are `rows`: entry k is u against column k. */
  function VecMat(u: seq<int>, rows: seq<seq<int>>, cols: nat): (v: seq<int>)
    requires |u| == |rows| && Uniform(rows, cols)
    ensures |v| == cols && forall k :: 0 <= k < cols ==> v[k] == InnerProduct(u, ColumnOfRows(rows, cols, k))
  {
    seq(cols, k requires 0 <= k < cols => InnerProduct(u, ColumnOfRows(rows, cols, k)))
  }

  /** The matrix whose rows are `rows` times the column vector w: entry j is row j against w. */
  function MatVec(rows: seq<seq<int>>, w: seq<int>): (v: seq<int>)
    requires Uniform(rows, |w|)
    ensures |v| == |rows| && forall j :: 0 <= j < |rows| ==> v[j] == InnerProduct(rows[j], w)
  {
    seq(|rows|, j requires 0 <= j < |rows| => InnerProduct(rows[j], w))
  }

  /** Adding a last row b with weight a to the matrix adds a * b to u M. */
  lemma VecMatLastRow(u: seq<int>, rows: seq<seq<int>>, cols: nat)
    requires |u| == |rows| > 0 && Uniform(rows, cols)
    ensures Uniform(rows[..|rows| - 1], cols)
    ensures VecMat(u, rows, cols)
         == AddScaled(VecMat(u[..|u| - 1], rows[..|rows| - 1], cols), u[|u| - 1], rows[|rows| - 1])
  {
    var n := |u|;
    var rows' := rows[..n - 1];
    assert Uniform(rows', cols);
    var x := VecMat(u[..n - 1], rows', cols);
    forall k | 0 <= k < cols
      ensures VecMat(u, rows, cols)[k] == x[k] + u[n - 1] * rows[n - 1][k]
    {
      var col := ColumnOfRows(rows, cols, k);
      assert col[..n - 1] == ColumnOfRows(rows', cols, k);
    }
  }

  /**
   * The double sum over j and k of u[j] * rows[j][k] * w[k] may be taken
   * column first or row first: (u M) . w == u . (M w).
   */
  lemma {:induction false} SumExchange(u: seq<int>, rows: seq<seq<int>>, w: seq<int>)
    requires |u| == |rows| && Uniform(rows, |w|)
    ensures InnerProduct(VecMat(u, rows, |w|), w) == InnerProduct(u, MatVec(rows, w))
  {
    var n, s := |u|, |w|;
    if n == 0 {
      InnerProductZero(w, VecMat(u, rows, s));
    } else {
      var u', rows' := u[..n - 1], rows[..n - 1];
      var a, b := u[n - 1], rows[n - 1];
      VecMatLastRow(u, rows, s);
      var x := VecMat(u', rows', s);
      SumExchange(u', rows', w);
      InnerProductLinear(x, a, b, w);
      MatVecLastRow(u, rows, w);
    }
  }

  /** Peeling the last row off M w, weighted by the last entry of u. */
  lemma MatVecLastRow(u: seq<int>, rows: seq<seq<int>>, w: seq<int>)
    requires |u| == |rows| > 0 && Uniform(rows, |w|)
    ensures Uniform(rows[..|rows| - 1], |w|)
    ensures InnerProduct(u, MatVec(rows, w))
         == InnerProduct(u[..|u| - 1], MatVec(rows[..|rows| - 1], w)) + u[|u| - 1] * InnerProduct(rows[|rows| - 1], w)
  {
    var n := |u|;
    var mv := MatVec(rows, w);
    assert Uniform(rows[..n - 1], |w|);
    assert mv[..n - 1] == MatVec(rows[..n - 1], w);
  }

  /** A two-element dot product written out, for concrete vectors. */
  lemma InnerProduct2(a: seq<int>, b: seq<int>)
    requires |a| == 2 && |b| == 2
    ensures InnerProduct(a, b) == a[0] * b[0] + a[1] * b[1]
  {
    assert a[..1][..0] == [] && b[..1][..0] == [];
    assert InnerProduct(a[..1], b[..1]) == a[0] * b[0];
  }

  /** A three-element dot product written out, for concrete vectors. */
  lemma InnerProduct3(a: seq<int>, b: seq<int>)
    requires |a| == 3 && |b| == 3
    ensures InnerProduct(a, b) == a[0] * b[0] + a[1] * b[1] + a[2] * b[2]
  {
    assert a[..2][..1] == a[..1] && b[..2][..1] == b[..1];
    assert a[..1][..0] == [] && b[..1][..0] == [];
    assert InnerProduct(a[..1], b[..1]) == a[0] * b[0];
    assert InnerProduct(a[..2], b[..2]) == a[0] * b[0] + a[1] * b[1];
  }
}

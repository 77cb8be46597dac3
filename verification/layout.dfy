/**
 * Row-major layout of a two-dimensional grid in a flat buffer.
 *
 * Every flat buffer in the library stores a grid row after row: cell (r, c)
 * of a grid whose rows hold `cols` cells lives at offset r * cols + c.
 * This module owns that index map, the concatenation of rows into one
 * buffer, and the facts about both that every other module relies on.
 */
module Layout {

  /** Offset of cell (r, c) in a row-major buffer whose rows hold `cols` cells. */
  function Flat(r: nat, c: nat, cols: nat): nat
  {
    r * cols + c
  }

  /** An in-range cell lies inside the buffer, and so does the whole of its row. */
  lemma FlatBound(r: nat, c: nat, rows: nat, cols: nat)
    requires r < rows && c < cols
    ensures Flat(r, c, cols) < rows * cols
    ensures Flat(r, 0, cols) + cols <= rows * cols
  {
    assert Flat(r, 0, cols) + cols == (r + 1) * cols;
    MulMonotone(r + 1, rows, cols);
  }

  lemma MulMonotone(x: nat, y: nat, k: nat)
    requires x <= y
    ensures x * k <= y * k
  {
    assert y * k == x * k + (y - x) * k;
  }

  /** Distinct in-range cells have distinct offsets. */
  lemma FlatInjective(r1: nat, c1: nat, r2: nat, c2: nat, cols: nat)
    requires c1 < cols && c2 < cols
    requires Flat(r1, c1, cols) == Flat(r2, c2, cols)
    ensures r1 == r2 && c1 == c2
  {
    if r1 < r2 {
      FlatBound(r1, c1, r2, cols);
      assert false;
    } else if r2 < r1 {
      FlatBound(r2, c2, r1, cols);
      assert false;
    }
  }

  /** Every offset inside a rows-by-cols buffer is the offset of exactly the cell (k / cols, k % cols). */
  lemma FlatSurjective(k: nat, rows: nat, cols: nat)
    requires k < rows * cols
    ensures cols > 0
    ensures k / cols < rows && k % cols < cols
    ensures Flat(k / cols, k % cols, cols) == k
  {
    if k / cols >= rows {
      MulMonotone(rows, k / cols, cols);
      assert false;
    }
  }

  /**
   * Cell (r, c) of a rows-by-cols row-major buffer. Contracts read cells
   * through this function so that the bound r * cols + c < rows * cols,
   * which the solver cannot find on its own, is proved once, here.
   */
  function At(a: seq<int>, rows: nat, cols: nat, r: nat, c: nat): int
    requires |a| == rows * cols && r < rows && c < cols
  {
    FlatBound(r, c, rows, cols);
    a[Flat(r, c, cols)]
  }

  /** Two buffers of one shape that agree on every cell are the same buffer. */
  lemma CellwiseEqual(x: seq<int>, y: seq<int>, rows: nat, cols: nat)
    requires |x| == rows * cols && |y| == rows * cols
    requires forall r: nat, c: nat :: r < rows && c < cols ==> At(x, rows, cols, r, c) == At(y, rows, cols, r, c)
    ensures x == y
  {
    forall k | 0 <= k < |x|
      ensures x[k] == y[k]
    {
      FlatSurjective(k, rows, cols);
      assert At(x, rows, cols, k / cols, k % cols) == At(y, rows, cols, k / cols, k % cols);
    }
  }

  /** A buffer holding one value everywhere holds it in every cell. */
  lemma ConstantCells(a: seq<int>, v: int, rows: nat, cols: nat)
    requires |a| == rows * cols && forall k :: 0 <= k < |a| ==> a[k] == v
    ensures forall r: nat, c: nat :: r < rows && c < cols ==> At(a, rows, cols, r, c) == v
  {
    forall r: nat, c: nat | r < rows && c < cols
      ensures At(a, rows, cols, r, c) == v
    {
      FlatBound(r, c, rows, cols);
    }
  }

  /** Every row of `rows` holds exactly `cols` cells. */
  predicate Uniform(rows: seq<seq<int>>, cols: nat)
  {
    forall i :: 0 <= i < |rows| ==> |rows[i]| == cols
  }

  /** The rows laid end to end, first row first. */
  function Flatten(rows: seq<seq<int>>): seq<int>
  {
    if |rows| == 0 then [] else rows[0] + Flatten(rows[1..])
  }

  lemma {:induction false} FlattenLength(rows: seq<seq<int>>, cols: nat)
    requires Uniform(rows, cols)
    ensures |Flatten(rows)| == |rows| * cols
  {
    if |rows| > 0 {
      var rest := rows[1..];
      assert Uniform(rest, cols) by {
        forall i | 0 <= i < |rest| ensures |rest[i]| == cols {
          assert rest[i] == rows[i + 1];
        }
      }
      FlattenLength(rest, cols);
      assert |rows| * cols == cols + |rest| * cols;
    }
  }

  /** Cell (r, c) of the concatenation is element c of row r. */
  lemma {:induction false} FlattenCell(rows: seq<seq<int>>, cols: nat, r: nat, c: nat)
    requires Uniform(rows, cols)
    requires r < |rows| && c < cols
    ensures |Flatten(rows)| == |rows| * cols
    ensures At(Flatten(rows), |rows|, cols, r, c) == rows[r][c]
  {
    FlattenLength(rows, cols);
    var rest := rows[1..];
    assert Flatten(rows) == rows[0] + Flatten(rest);
    if r == 0 {
      assert Flat(r, c, cols) == c;
    } else {
      assert Uniform(rest, cols) by {
        forall i | 0 <= i < |rest| ensures |rest[i]| == cols {
          assert rest[i] == rows[i + 1];
        }
      }
      FlattenCell(rest, cols, r - 1, c);
      FlattenLength(rest, cols);
      assert Flat(r, c, cols) == |rows[0]| + Flat(r - 1, c, cols);
      assert rest[r - 1] == rows[r];
    }
  }

  /** The quantified form of FlattenCell. */
  lemma FlattenCells(rows: seq<seq<int>>, cols: nat)
    requires Uniform(rows, cols)
    ensures |Flatten(rows)| == |rows| * cols
    ensures forall r: nat, c: nat :: r < |rows| && c < cols ==> At(Flatten(rows), |rows|, cols, r, c) == rows[r][c]
  {
    FlattenLength(rows, cols);
    forall r: nat, c: nat | r < |rows| && c < cols
      ensures At(Flatten(rows), |rows|, cols, r, c) == rows[r][c]
    {
      FlattenCell(rows, cols, r, c);
    }
  }

  /** Row r of a rows-by-cols row-major buffer: the `cols` cells from offset Flat(r, 0, cols). */
  function RowOf(a: seq<int>, rows: nat, cols: nat, r: nat): (row: seq<int>)
    requires |a| == rows * cols && r < rows
    ensures |row| == cols
    ensures forall c :: 0 <= c < cols ==> row[c] == At(a, rows, cols, r, c)
  {
    if cols == 0 then [] else
      FlatBound(r, 0, rows, cols);
      a[Flat(r, 0, cols)..Flat(r, 0, cols) + cols]
  }

  /** Cutting the concatenation back into rows gives the rows it was made from. */
  lemma FlattenRow(rows: seq<seq<int>>, cols: nat, r: nat)
    requires Uniform(rows, cols) && r < |rows|
    ensures |Flatten(rows)| == |rows| * cols
    ensures RowOf(Flatten(rows), |rows|, cols, r) == rows[r]
  {
    FlattenCells(rows, cols);
  }

  /** Flattening a split list of rows is concatenating the flattened halves. */
  lemma {:induction false} FlattenSplit(rows: seq<seq<int>>, k: nat)
    requires k <= |rows|
    ensures Flatten(rows) == Flatten(rows[..k]) + Flatten(rows[k..])
  {
    if k > 0 {
      var rest := rows[1..];
      FlattenSplit(rest, k - 1);
      assert rows[..k][0] == rows[0] && rows[..k][1..] == rest[..k - 1];
      assert rest[k - 1..] == rows[k..];
      ConcatAssoc(rows[0], Flatten(rest[..k - 1]), Flatten(rows[k..]));
    } else {
      assert rows[..0] == [] && rows[0..] == rows;
    }
  }

  lemma ConcatAssoc(x: seq<int>, y: seq<int>, z: seq<int>)
    ensures x + (y + z) == x + y + z
  {
  }

  /** Flatten of one row, for concrete matrices. */
  lemma Flatten1(rows: seq<seq<int>>)
    requires |rows| == 1
    ensures Flatten(rows) == rows[0]
  {
    assert rows[1..] == [];
  }

  /** Flatten of two rows, for concrete matrices. */
  lemma Flatten2(rows: seq<seq<int>>)
    requires |rows| == 2
    ensures Flatten(rows) == rows[0] + rows[1]
  {
    Flatten1(rows[1..]);
    assert rows[1..][0] == rows[1];
  }

  /** Flatten of three rows, for concrete matrices. */
  lemma Flatten3(rows: seq<seq<int>>)
    requires |rows| == 3
    ensures Flatten(rows) == rows[0] + rows[1] + rows[2]
  {
    Flatten2(rows[1..]);
    assert rows[1..][0] == rows[1] && rows[1..][1] == rows[2];
    ConcatAssoc(rows[0], rows[1], rows[2]);
  }

  /** Flatten of five rows, for concrete matrices. */
  lemma Flatten5(rows: seq<seq<int>>)
    requires |rows| == 5
    ensures Flatten(rows) == rows[0] + rows[1] + rows[2] + rows[3] + rows[4]
  {
    FlattenSplit(rows, 3);
    Flatten3(rows[..3]);
    Flatten2(rows[3..]);
    assert rows[..3][0] == rows[0] && rows[..3][1] == rows[1] && rows[..3][2] == rows[2];
    assert rows[3..][0] == rows[3] && rows[3..][1] == rows[4];
    ConcatAssoc(rows[0] + rows[1] + rows[2], rows[3], rows[4]);
  }

  /** A 2 by 2 buffer written out cell by cell. */
  lemma Cells2x2(p: seq<int>)
    requires |p| == 4
    ensures p == [At(p, 2, 2, 0, 0), At(p, 2, 2, 0, 1), At(p, 2, 2, 1, 0), At(p, 2, 2, 1, 1)]
  {
    assert p[0] == At(p, 2, 2, 0, 0) && p[1] == At(p, 2, 2, 0, 1);
    assert p[2] == At(p, 2, 2, 1, 0) && p[3] == At(p, 2, 2, 1, 1);
  }

  /** A 2 by 3 buffer written out cell by cell. */
  lemma Cells2x3(p: seq<int>)
    requires |p| == 6
    ensures p == [At(p, 2, 3, 0, 0), At(p, 2, 3, 0, 1), At(p, 2, 3, 0, 2), At(p, 2, 3, 1, 0), At(p, 2, 3, 1, 1), At(p, 2, 3, 1, 2)]
  {
    assert p[0] == At(p, 2, 3, 0, 0) && p[1] == At(p, 2, 3, 0, 1) && p[2] == At(p, 2, 3, 0, 2);
    assert p[3] == At(p, 2, 3, 1, 0) && p[4] == At(p, 2, 3, 1, 1) && p[5] == At(p, 2, 3, 1, 2);
  }
}

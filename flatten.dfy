/**
 * `Vec::concat` on a vector of rows: the rows joined end to end. With rows
 * of equal width this is the row-major layout, cell (x, y) at y * width + x.
 */
module Flatten {

  /** The rows joined in order. */
  function Concat<T>(rows: seq<seq<T>>): seq<T>
  {
    if |rows| == 0 then [] else Concat(rows[..|rows| - 1]) + rows[|rows| - 1]
  }

  /** Appending a row to the grid appends its cells to the flat sequence. */
  lemma ConcatPush<T>(rows: seq<seq<T>>, row: seq<T>)
    ensures Concat(rows + [row]) == Concat(rows) + row
  {
    assert (rows + [row])[..|rows|] == rows;
  }

  /** `width` times `row` cells plus `x` is below `width` times `height` when
      the row is above the last one and `x` is inside the row. */
  lemma RowMajorBound(width: nat, height: nat, row: nat, x: nat)
    requires row < height && x < width
    ensures row * width + x < height * width
  {
    assert row * width + x < row * width + width == (row + 1) * width;
    assert (row + 1) * width <= height * width;
  }

  /** The row after the first `n` starts `width` cells further on. */
  lemma NextRowStart(n: nat, width: nat)
    ensures (n + 1) * width == n * width + width
  {
  }

  /** `a <= b` scales to `a * w <= b * w` for a non-negative `w`. */
  lemma MulMonotone(a: nat, b: nat, w: nat)
    requires a <= b
    ensures a * w <= b * w
  {
  }

  /** A row-major position is determined by its index: two (row, column)
      pairs with columns inside the row and the same index are equal. */
  lemma RowMajorUnique(y1: nat, x1: nat, y2: nat, x2: nat, width: nat)
    requires x1 < width && x2 < width
    requires y1 * width + x1 == y2 * width + x2
    ensures y1 == y2 && x1 == x2
  {
    if y1 < y2 {
      MulMonotone(y1 + 1, y2, width);
      assert false;
    } else if y2 < y1 {
      MulMonotone(y2 + 1, y1, width);
      assert false;
    }
  }

  /** Rows of equal width flatten to `|rows| * width` cells. */
  lemma {:induction false} ConcatLength<T>(rows: seq<seq<T>>, width: nat)
    requires forall y :: 0 <= y < |rows| ==> |rows[y]| == width
    ensures |Concat(rows)| == |rows| * width
  {
    if |rows| > 0 {
      var init, last := rows[..|rows| - 1], rows[|rows| - 1];
      ConcatLength(init, width);
      NextRowStart(|init|, width);
    }
  }

  /** With rows of equal width, cell `x` of row `y` lands at `y * width + x`. */
  lemma {:induction false} ConcatAt<T>(rows: seq<seq<T>>, width: nat, y: nat, x: nat)
    requires forall j :: 0 <= j < |rows| ==> |rows[j]| == width
    requires y < |rows| && x < width
    ensures y * width + x < |Concat(rows)|
    ensures Concat(rows)[y * width + x] == rows[y][x]
  {
    var init, last := rows[..|rows| - 1], rows[|rows| - 1];
    ConcatLength(init, width);
    ConcatLength(rows, width);
    RowMajorBound(width, |rows|, y, x);
    if y < |init| {
      ConcatAt(init, width, y, x);
      RowMajorBound(width, |init|, y, x);
    }
  }

  /** Values that all lie in [lo, hi] row by row still do once flattened. */
  lemma {:induction false} ConcatWithin(rows: seq<seq<real>>, lo: real, hi: real)
    requires forall j, i :: 0 <= j < |rows| && 0 <= i < |rows[j]| ==> lo <= rows[j][i] <= hi
    ensures forall k :: 0 <= k < |Concat(rows)| ==> lo <= Concat(rows)[k] <= hi
  {
    if |rows| > 0 {
      var init, last := rows[..|rows| - 1], rows[|rows| - 1];
      ConcatWithin(init, lo, hi);
      assert rows == init + [last];
      ConcatPush(init, last);
      var flat := Concat(rows);
      forall k | 0 <= k < |flat|
        ensures lo <= flat[k] <= hi
      {
        if k >= |Concat(init)| {
          assert flat[k] == last[k - |Concat(init)|];
        }
      }
    }
  }
}

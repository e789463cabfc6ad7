/** Sums of a per-cell measure over a row-major 2D grid of cells. The queue-driven
    relaxations use them as termination measures: a relaxation lowers one cell's
    value and so lowers the sum. */
module Sums {

  function RowSum<T>(row: seq<T>, f: T -> nat): nat
  {
    if row == [] then 0 else RowSum(row[..|row| - 1], f) + f(row[|row| - 1])
  }

  function GridSum<T>(rows: seq<seq<T>>, f: T -> nat): nat
  {
    if rows == [] then 0 else GridSum(rows[..|rows| - 1], f) + RowSum(rows[|rows| - 1], f)
  }

  /** Replacing one element changes the row sum by exactly the difference of the two values. */
  lemma {:induction false} RowSumUpdate<T>(row: seq<T>, x: nat, v: T, f: T -> nat)
    requires x < |row|
    ensures RowSum(row[x := v], f) + f(row[x]) == RowSum(row, f) + f(v)
    decreases |row|
  {
    var n := |row| - 1;
    var row' := row[x := v];
    assert row'[..n] == if x < n then row[..n][x := v] else row[..n];
    if x < n {
      RowSumUpdate(row[..n], x, v, f);
    }
  }

  /** Replacing one cell changes the grid sum by exactly the difference of the two values. */
  lemma {:induction false} GridSumUpdate<T>(rows: seq<seq<T>>, y: nat, x: nat, v: T, f: T -> nat)
    requires y < |rows| && x < |rows[y]|
    ensures GridSum(rows[y := rows[y][x := v]], f) + f(rows[y][x]) == GridSum(rows, f) + f(v)
    decreases |rows|
  {
    var n := |rows| - 1;
    var rows' := rows[y := rows[y][x := v]];
    if y < n {
      assert rows'[..n] == rows[..n][y := rows[..n][y][x := v]];
      GridSumUpdate(rows[..n], y, x, v, f);
    } else {
      assert rows'[..n] == rows[..n];
      RowSumUpdate(rows[y], x, v, f);
    }
  }
}

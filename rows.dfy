/** Row-major flattening of the block of rows handed to `InsertRows`
    (common.py:83-86). */
module Rows {
  import opened Values

  /** The rows concatenated in order, each row left to right. Defined from
      the back, as the loop at common.py:84-86 builds it. */
  function Concat(rows: seq<seq<Value>>): seq<Value>
  {
    if rows == [] then [] else Concat(rows[..|rows| - 1]) + rows[|rows| - 1]
  }

  /** Total number of values in the block. */
  function SumLengths(rows: seq<seq<Value>>): nat
  {
    if rows == [] then 0 else SumLengths(rows[..|rows| - 1]) + |rows[|rows| - 1]|
  }

  /** Every row has exactly `width` values. */
  predicate Rectangular(rows: seq<seq<Value>>, width: nat)
  {
    forall i :: 0 <= i < |rows| ==> |rows[i]| == width
  }

  /** The flattened list has as many values as all rows together. */
  lemma {:induction false} ConcatLength(rows: seq<seq<Value>>)
    ensures |Concat(rows)| == SumLengths(rows)
  {
    if rows != [] {
      ConcatLength(rows[..|rows| - 1]);
    }
  }

  /** Value `j` of row `i` sits in the flattened list right after all values
      of the rows before row `i`. */
  lemma {:induction false} ConcatAt(rows: seq<seq<Value>>, i: nat, j: nat)
    requires i < |rows| && j < |rows[i]|
    ensures SumLengths(rows[..i]) + j < |Concat(rows)|
    ensures Concat(rows)[SumLengths(rows[..i]) + j] == rows[i][j]
  {
    var init := rows[..|rows| - 1];
    ConcatLength(init);
    ConcatLength(rows);
    if i == |rows| - 1 {
      assert rows[..i] == init;
    } else {
      assert rows[..i] == init[..i];
      ConcatAt(init, i, j);
    }
  }

  /** In a block whose rows all have `width` values, the rows before row `i`
      hold `i * width` values. */
  lemma {:induction false} RectangularPrefix(rows: seq<seq<Value>>, width: nat, i: nat)
    requires Rectangular(rows, width) && i <= |rows|
    ensures SumLengths(rows[..i]) == i * width
  {
    if i > 0 {
      assert rows[..i][..i - 1] == rows[..i - 1];
      RectangularPrefix(rows, width, i - 1);
      assert (i - 1) * width + width == i * width;
    }
  }

  /** For a rectangular block, value `j` of row `i` is at position
      `i * width + j` of the flattened list. */
  lemma RectangularConcatAt(rows: seq<seq<Value>>, width: nat, i: nat, j: nat)
    requires Rectangular(rows, width) && i < |rows| && j < width
    ensures i * width + j < |Concat(rows)| && Concat(rows)[i * width + j] == rows[i][j]
  {
    RectangularPrefix(rows, width, i);
    ConcatAt(rows, i, j);
  }

  /** A rectangular block flattens to `|rows| * width` values. */
  lemma RectangularConcatLength(rows: seq<seq<Value>>, width: nat)
    requires Rectangular(rows, width)
    ensures |Concat(rows)| == |rows| * width
  {
    ConcatLength(rows);
    RectangularPrefix(rows, width, |rows|);
    assert rows[..|rows|] == rows;
  }

  /** The nested `append` loops of common.py:83-86. */
  method Flatten(rows: seq<seq<Value>>) returns (flat: seq<Value>)
    ensures flat == Concat(rows)
  {
    flat := [];
    var i := 0;
    while i < |rows|
      invariant 0 <= i <= |rows|
      invariant flat == Concat(rows[..i])
    {
      var j := 0;
      while j < |rows[i]|
        invariant 0 <= j <= |rows[i]|
        invariant flat == Concat(rows[..i]) + rows[i][..j]
      {
        flat := flat + [rows[i][j]];
        j := j + 1;
      }
      assert rows[i][..j] == rows[i];
      assert rows[..i + 1][..i] == rows[..i];
      i := i + 1;
    }
    assert rows[..i] == rows;
  }
}

/** The worksheet that `InsertRows` writes to, as far as it uses it
    (common.py:73, 77, 92, 109): its row count, adding blank rows, fetching
    the cells of an A1 range and pushing a batch of cells back. The sheet's
    contents are a grid from (row, column) to value; a cell that was never
    written reads as the empty string. */
module Sheets {
  import opened Wrappers
  import opened Values
  import opened A1

  /** A cell handle: its position and the value it carries. */
  datatype Cell = Cell(row: int, col: int, value: Value)

  type Grid = map<(int, int), Value>

  function Key(c: Cell): (int, int) { (c.row, c.col) }

  function Lookup(grid: Grid, row: int, col: int): Value
  {
    if (row, col) in grid then grid[(row, col)] else Str("")
  }

  /** One row of cells, left to right. */
  function RowCells(grid: Grid, row: int, col: int, width: nat): seq<Cell>
  {
    seq(width, j => Cell(row, col + j, Lookup(grid, row, col + j)))
  }

  /** The cells of a `height` x `width` rectangle whose top-left cell is
      (`row`, `col`), row by row, each row left to right. */
  function Block(grid: Grid, row: int, col: int, height: nat, width: nat): seq<Cell>
  {
    if height == 0 then []
    else Block(grid, row, col, height - 1, width) + RowCells(grid, row + height - 1, col, width)
  }

  /** A range the client can resolve: letter labels, rows from 1 and the
      bottom-right cell not above or left of the top-left one. */
  predicate WellFormed(r: A1Range)
  {
    && IsColumn(r.first.col) && IsColumn(r.last.col)
    && 1 <= r.first.row <= r.last.row
    && ColumnNumber(r.first.col) <= ColumnNumber(r.last.col)
  }

  /** The cells a well-formed range covers, in the order the client returns
      them. */
  function RangeCells(grid: Grid, r: A1Range): seq<Cell>
    requires WellFormed(r)
  {
    Block(grid, r.first.row, ColumnNumber(r.first.col),
          r.last.row - r.first.row + 1,
          ColumnNumber(r.last.col) - ColumnNumber(r.first.col) + 1)
  }

  /** The grid after a batch of cells is written, in batch order. */
  function Write(grid: Grid, cs: seq<Cell>): Grid
  {
    if cs == [] then grid
    else Write(grid, cs[..|cs| - 1])[Key(cs[|cs| - 1]) := cs[|cs| - 1].value]
  }

  /** No two cells of the batch address the same position. */
  predicate DistinctKeys(cs: seq<Cell>)
  {
    forall a, b :: 0 <= a < b < |cs| ==> Key(cs[a]) != Key(cs[b])
  }

  /** A block has `height * width` cells; the one at position
      `i * width + j` is (`row + i`, `col + j`) with the grid's value there. */
  lemma {:induction false} BlockAt(grid: Grid, row: int, col: int, height: nat, width: nat, i: nat, j: nat)
    requires i < height && j < width
    ensures |Block(grid, row, col, height, width)| == height * width
    ensures i * width + j < height * width
    ensures Block(grid, row, col, height, width)[i * width + j]
              == Cell(row + i, col + j, Lookup(grid, row + i, col + j))
  {
    BlockLength(grid, row, col, height - 1, width);
    assert (height - 1) * width + width == height * width;
    if i < height - 1 {
      BlockAt(grid, row, col, height - 1, width, i, j);
    } else {
      assert i * width + j == (height - 1) * width + j;
    }
  }

  lemma {:induction false} BlockLength(grid: Grid, row: int, col: int, height: nat, width: nat)
    ensures |Block(grid, row, col, height, width)| == height * width
  {
    if height > 0 {
      BlockLength(grid, row, col, height - 1, width);
      assert (height - 1) * width + width == height * width;
    }
  }

  /** Every cell of a block lies inside it. */
  lemma {:induction false} BlockInside(grid: Grid, row: int, col: int, height: nat, width: nat)
    ensures forall c :: c in Block(grid, row, col, height, width) ==>
              row <= c.row < row + height && col <= c.col < col + width
  {
    if height > 0 {
      BlockInside(grid, row, col, height - 1, width);
    }
  }

  /** A block never names the same cell twice. */
  lemma {:induction false} BlockDistinct(grid: Grid, row: int, col: int, height: nat, width: nat)
    ensures DistinctKeys(Block(grid, row, col, height, width))
  {
    if height > 0 {
      var init := Block(grid, row, col, height - 1, width);
      var last := RowCells(grid, row + height - 1, col, width);
      BlockDistinct(grid, row, col, height - 1, width);
      BlockInside(grid, row, col, height - 1, width);
      var cs := init + last;
      forall a, b | 0 <= a < b < |cs| ensures Key(cs[a]) != Key(cs[b]) {
        if b < |init| {
          assert cs[a] == init[a] && cs[b] == init[b];
        } else if a < |init| {
          assert cs[a] == init[a] && cs[a] in init;
        }
      }
    }
  }

  /** After writing a batch with distinct positions, each position holds
      the value its cell carried. */
  lemma {:induction false} WriteAt(grid: Grid, cs: seq<Cell>, k: nat)
    requires DistinctKeys(cs) && k < |cs|
    ensures Key(cs[k]) in Write(grid, cs)
    ensures Write(grid, cs)[Key(cs[k])] == cs[k].value
  {
    if k < |cs| - 1 {
      var init := cs[..|cs| - 1];
      assert init[k] == cs[k];
      WriteAt(grid, init, k);
    }
  }

  /** Positions the batch does not name keep what they held. */
  lemma {:induction false} WriteElsewhere(grid: Grid, cs: seq<Cell>, key: (int, int))
    requires forall c :: c in cs ==> Key(c) != key
    ensures key in Write(grid, cs) <==> key in grid
    ensures key in grid ==> Write(grid, cs)[key] == grid[key]
  {
    if cs != [] {
      var init := cs[..|cs| - 1];
      assert forall c :: c in init ==> c in cs;
      assert cs[|cs| - 1] in cs;
      WriteElsewhere(grid, init, key);
    }
  }

  /** Range fetches succeed on well-formed ranges inside the sheet's rows. */
  predicate Fetchable(r: A1Range, rowCount: int)
  {
    WellFormed(r) && r.last.row <= rowCount
  }

  class Sheet {
    var rowCount: nat
    var grid: Grid
    /** Every batch pushed by `UpdateCells`, oldest first. */
    var pushed: seq<seq<Cell>>

    constructor (rowCount: nat, grid: Grid)
      ensures this.rowCount == rowCount && this.grid == grid && pushed == []
    {
      this.rowCount := rowCount;
      this.grid := grid;
      pushed := [];
    }

    /** Appends `n` blank rows at the bottom. */
    method AddRows(n: nat)
      modifies this
      ensures rowCount == old(rowCount) + n
      ensures grid == old(grid) && pushed == old(pushed)
    {
      rowCount := rowCount + n;
    }

    /** Fetches the cell handles of an A1 range; `None` when the string is
        not a range or the range falls outside the sheet. */
    method Range(a1: string) returns (cells: Option<array<Cell>>)
      ensures cells.Some? <==> Parse(a1).Some? && Fetchable(Parse(a1).value, rowCount)
      ensures cells.Some? ==> fresh(cells.value)
      ensures cells.Some? ==> cells.value[..] == RangeCells(grid, Parse(a1).value)
    {
      var r := Parse(a1);
      if r.None? || !Fetchable(r.value, rowCount) {
        return None;
      }
      var cs := RangeCells(grid, r.value);
      var a := new Cell[|cs|](k requires 0 <= k < |cs| => cs[k]);
      cells := Some(a);
    }

    /** Pushes a batch of cells: records it and writes each value at its
        position, in batch order. */
    method UpdateCells(batch: array<Cell>)
      modifies this
      ensures pushed == old(pushed) + [batch[..]]
      ensures grid == Write(old(grid), batch[..])
      ensures rowCount == old(rowCount)
    {
      pushed := pushed + [batch[..]];
      grid := Write(grid, batch[..]);
    }
  }
}

/** `InsertRows` (common.py:68-118): writes a block of rows into a
    worksheet. It makes sure the sheet has enough rows below the last used
    one, advances the shared row counter by the rows it adds, builds the A1
    range for the block, flattens and escapes the values, fills the fetched
    cell handles position by position and pushes them back. */
module Common {
  import opened Wrappers
  import opened Values
  import opened Rows
  import opened A1
  import opened Sheets

  /** The process-wide state `InsertRows` reads and updates: the running
      row counter and the table from column count to column letters. */
  class Globals {
    var numRows: int
    const letter: map<int, string>

    constructor (numRows: int, letter: map<int, string>)
      ensures this.numRows == numRows && this.letter == letter
    {
      this.numRows := numRows;
      this.letter := letter;
    }
  }

  /** The `lastrowused` argument: left at its default `''` (or `None`), or
      an integer row. */
  datatype RowArg = Blank | Row(n: int)

  /** Python truth: `''`, `None` and `0` are all false. */
  predicate IsFalsy(a: RowArg)
  {
    a.Blank? || a.n == 0
  }

  /** The offset `InsertRows` works from (common.py:70-71): a false
      argument, including an explicit 0, falls back to the counter. */
  function EffectiveOffset(a: RowArg, counter: int): (last: int)
    ensures a == Blank || a == Row(0) ==> last == counter
    ensures a.Row? && a.n != 0 ==> last == a.n
  {
    if IsFalsy(a) then counter else a.n
  }

  /** Rows to append so that `needed` rows fit below row `last` of a sheet
      of `rowCount` rows (common.py:72-76): the least count that makes them
      fit. */
  function RowsToAdd(rowCount: int, last: int, needed: int): (k: nat)
    ensures rowCount + k >= last + needed
    ensures k > 0 ==> rowCount + k == last + needed
  {
    var available := rowCount - last;
    if available < needed then needed - available else 0
  }

  /** The range of the block (common.py:79-82): from column A of the row
      below `last` to column `col` of the block's last row. */
  function RangeFor(last: int, numRows: int, col: string): A1Range
  {
    A1Range(CellRef("A", last + 1), CellRef(col, last + numRows))
  }

  /** The block's range is well formed when it starts at row 1 or below
      and its column label is letters; it spans columns A to `col`. */
  lemma RangeForWellFormed(last: int, numRows: int, col: string)
    requires last >= 0 && numRows >= 1 && IsColumn(col)
    ensures WellFormed(RangeFor(last, numRows, col))
    ensures ColumnNumber(RangeFor(last, numRows, col).first.col) == 1
  {
    assert "A"[..0] == [];
  }

  /** The range string reads back as the block's range, `numRows` rows
      starting one below `last`, exactly when `last >= 0`; below that the
      first row is not a row number and the fetch is refused. */
  lemma RangeForSpans(last: int, numRows: int, col: string)
    requires numRows >= 1 && IsColumn(col)
    ensures last >= 0 ==> Parse(Format(RangeFor(last, numRows, col))) == Some(RangeFor(last, numRows, col))
    ensures last >= 0 ==> WellFormed(RangeFor(last, numRows, col))
    ensures last < 0 ==> Parse(Format(RangeFor(last, numRows, col))) == None
    ensures RangeFor(last, numRows, col).last.row - RangeFor(last, numRows, col).first.row + 1 == numRows
  {
    if last >= 0 {
      RangeForWellFormed(last, numRows, col);
    }
    RangeRoundTrip(RangeFor(last, numRows, col));
  }

  /** A two-row, two-column block written below row 10 covers `A11:B12`. */
  lemma RangeForExample()
    ensures Format(RangeFor(10, 2, "B")) == "A11:B12"
  {
    assert NatToStr(11) == NatToStr(1) + [DigitChar(1)];
    assert NatToStr(12) == NatToStr(1) + [DigitChar(2)];
  }

  /** The cell handles after the assignment loop (common.py:101-105):
      handle `i` takes value `i`; handles past the end of the values keep
      theirs, because the `IndexError` is swallowed. */
  function Overlay(cells: seq<Cell>, values: seq<Value>): (r: seq<Cell>)
    ensures |r| == |cells|
  {
    if cells == [] then []
    else if values == [] then cells
    else [cells[0].(value := values[0])] + Overlay(cells[1..], values[1..])
  }

  /** Assignment keeps every handle's position and order; handle `k` holds
      value `k` when there is one and its old value otherwise. */
  lemma {:induction false} OverlayAt(cells: seq<Cell>, values: seq<Value>, k: nat)
    requires k < |cells|
    ensures Key(Overlay(cells, values)[k]) == Key(cells[k])
    ensures k < |values| ==> Overlay(cells, values)[k].value == values[k]
    ensures k >= |values| ==> Overlay(cells, values)[k] == cells[k]
  {
    if values != [] && k > 0 {
      OverlayAt(cells[1..], values[1..], k - 1);
    }
  }

  /** Assignment never makes two handles name the same cell. */
  lemma OverlayDistinct(cells: seq<Cell>, values: seq<Value>)
    requires DistinctKeys(cells)
    ensures DistinctKeys(Overlay(cells, values))
  {
    var r := Overlay(cells, values);
    forall a, b | 0 <= a < b < |r| ensures Key(r[a]) != Key(r[b]) {
      OverlayAt(cells, values, a);
      OverlayAt(cells, values, b);
    }
  }

  /** The loop of common.py:101-105, in place on the fetched handles. */
  method AssignCells(cells: array<Cell>, values: seq<Value>)
    modifies cells
    ensures cells[..] == Overlay(old(cells[..]), values)
  {
    var index := 0;
    while index < cells.Length
      invariant 0 <= index <= cells.Length
      invariant forall k :: 0 <= k < index && k < |values| ==>
                  cells[k] == old(cells[k]).(value := values[k])
      invariant forall k :: 0 <= k < cells.Length && (index <= k || |values| <= k) ==>
                  cells[k] == old(cells[k])
    {
      if index < |values| {
        cells[index] := cells[index].(value := values[index]);
      }
      index := index + 1;
    }
    ghost var was := old(cells[..]);
    forall k | 0 <= k < cells.Length ensures cells[..][k] == Overlay(was, values)[k] {
      OverlayAt(was, values, k);
    }
  }

  /** The batch `InsertRows` pushes for a block written below row `last` of
      a sheet whose grid is `grid`: the fetched handles of its range, filled
      with the flattened, escaped values. */
  function InsertedBatch(grid: Grid, last: int, rows: seq<seq<Value>>, col: string): seq<Cell>
    requires WellFormed(RangeFor(last, |rows|, col))
  {
    Overlay(RangeCells(grid, RangeFor(last, |rows|, col)), Escape(Concat(rows)))
  }

  /** For a rectangular block whose column label names its width, the
      pushed batch covers exactly the block's rectangle: it has one handle
      per value, and the handle at position `i * width + j` is the cell `i`
      rows below `last` and `j` columns right of column A, carrying value `j`
      of row `i`, escaped. */
  lemma InsertedBatchAt(grid: Grid, last: int, rows: seq<seq<Value>>, col: string, width: nat, i: nat, j: nat)
    requires last >= 0 && |rows| >= 1 && width >= 1 && Rectangular(rows, width)
    requires IsColumn(col) && ColumnNumber(col) == width
    requires i < |rows| && j < width
    ensures WellFormed(RangeFor(last, |rows|, col))
    ensures |InsertedBatch(grid, last, rows, col)| == |rows| * width
    ensures i * width + j < |rows| * width
    ensures InsertedBatch(grid, last, rows, col)[i * width + j]
              == Cell(last + 1 + i, 1 + j, EscapeValue(rows[i][j]))
  {
    RangeForWellFormed(last, |rows|, col);
    var block := Block(grid, last + 1, 1, |rows|, width);
    var flat := Concat(rows);
    assert RangeCells(grid, RangeFor(last, |rows|, col)) == block;
    BlockAt(grid, last + 1, 1, |rows|, width, i, j);
    RectangularConcatLength(rows, width);
    RectangularConcatAt(rows, width, i, j);
    var k := i * width + j;
    EscapeAt(flat, k);
    OverlayAt(block, Escape(flat), k);
  }

  /** Once the batch for a rectangular block is written, the cell `i` rows
      below `last` and `j` columns right of column A holds value `j` of row
      `i`, escaped. */
  lemma BlockLands(grid: Grid, last: int, rows: seq<seq<Value>>, col: string, width: nat, i: nat, j: nat)
    requires last >= 0 && |rows| >= 1 && width >= 1 && Rectangular(rows, width)
    requires IsColumn(col) && ColumnNumber(col) == width
    requires i < |rows| && j < width
    ensures WellFormed(RangeFor(last, |rows|, col))
    ensures Lookup(Write(grid, InsertedBatch(grid, last, rows, col)), last + 1 + i, 1 + j)
              == EscapeValue(rows[i][j])
  {
    InsertedBatchAt(grid, last, rows, col, width, i, j);
    var block := Block(grid, last + 1, 1, |rows|, width);
    assert RangeCells(grid, RangeFor(last, |rows|, col)) == block;
    BlockDistinct(grid, last + 1, 1, |rows|, width);
    OverlayDistinct(block, Escape(Concat(rows)));
    WriteAt(grid, InsertedBatch(grid, last, rows, col), i * width + j);
  }

  /** Fetches the cell handles of `rowRange`, assigns `values` to them by
      position and pushes them back (common.py:89-116). Returns false, and
      changes nothing, when the fetch fails. */
  method PushBlock(sheet: Sheet, rowRange: string, values: seq<Value>) returns (ok: bool)
    modifies sheet
    ensures ok <==> Parse(rowRange).Some? && Fetchable(Parse(rowRange).value, old(sheet.rowCount))
    ensures ok ==> sheet.pushed == old(sheet.pushed) + [
                     Overlay(RangeCells(old(sheet.grid), Parse(rowRange).value), values)]
    ensures ok ==> sheet.grid == Write(old(sheet.grid), sheet.pushed[|sheet.pushed| - 1])
    ensures !ok ==> sheet.pushed == old(sheet.pushed) && sheet.grid == old(sheet.grid)
    ensures sheet.rowCount == old(sheet.rowCount)
  {
    var fetched := sheet.Range(rowRange);
    if fetched.None? {
      return false;
    }
    var cells := fetched.value;
    AssignCells(cells, values);
    sheet.UpdateCells(cells);
    ok := true;
  }

  /** Writes `rows` into `sheet` below row `lastRowUsed` (or below the
      shared counter when that is false). Returns false when the range fetch
      fails; rows have been added and the counter advanced by then, and
      nothing is written. */
  method InsertRows(sheet: Sheet, globs: Globals, rows: seq<seq<Value>>, lastRowUsed: RowArg)
    returns (ok: bool)
    requires |rows| > 0 && |rows[0]| in globs.letter
    modifies sheet, globs
    ensures var last := EffectiveOffset(lastRowUsed, old(globs.numRows));
            var added := RowsToAdd(old(sheet.rowCount), last, |rows|);
            && sheet.rowCount == old(sheet.rowCount) + added
            && globs.numRows == old(globs.numRows) + added
            && sheet.rowCount >= last + |rows|
    ensures var last := EffectiveOffset(lastRowUsed, old(globs.numRows));
            var range := Parse(Format(RangeFor(last, |rows|, globs.letter[|rows[0]|])));
            && (ok <==> range.Some? && Fetchable(range.value, sheet.rowCount))
            && (ok ==> sheet.pushed == old(sheet.pushed) + [
                          Overlay(RangeCells(old(sheet.grid), range.value), Escape(Concat(rows)))])
            && (ok ==> sheet.grid == Write(old(sheet.grid), sheet.pushed[|sheet.pushed| - 1]))
    ensures var last := EffectiveOffset(lastRowUsed, old(globs.numRows));
            IsColumn(globs.letter[|rows[0]|]) ==>
              && (ok <==> last >= 0)
              && (ok ==> sheet.pushed[|sheet.pushed| - 1]
                           == InsertedBatch(old(sheet.grid), last, rows, globs.letter[|rows[0]|]))
    ensures !ok ==> sheet.pushed == old(sheet.pushed) && sheet.grid == old(sheet.grid)
  {
    var numNewRows := |rows|;
    var last: int;
    if IsFalsy(lastRowUsed) {
      last := globs.numRows;
    } else {
      last := lastRowUsed.n;
    }
    var numRowsNeeded := |rows|;
    var allRowsEvenEmpty := sheet.rowCount;
    var availableBlankRows := allRowsEvenEmpty - last;
    if availableBlankRows < numRowsNeeded {
      var rowsToAdd := numRowsNeeded - availableBlankRows;
      sheet.AddRows(rowsToAdd);
      globs.numRows := globs.numRows + rowsToAdd;
    }
    var upperLeft := last + 1;
    var lowerRight := last + numNewRows;
    var column := globs.letter[|rows[0]|];
    var rowRange := Format(A1Range(CellRef("A", upperLeft), CellRef(column, lowerRight)));
    var flat := Flatten(rows);
    flat := Escape(flat);
    if IsColumn(column) {
      RangeForSpans(last, numNewRows, column);
    }

    assert last == EffectiveOffset(lastRowUsed, old(globs.numRows));
    assert rowRange == Format(RangeFor(last, |rows|, column));
    assert sheet.grid == old(sheet.grid) && sheet.pushed == old(sheet.pushed);
    ok := PushBlock(sheet, rowRange, flat);
  }
}

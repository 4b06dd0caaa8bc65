# InsertRows: writing a block of rows into a spreadsheet

This project models `InsertRows` from `common.py` of Pipulate. It writes a
block of rows (a list of lists of values) into a remote worksheet, in five
steps:

1. It works out the row to write below. This is the `lastrowused` argument,
   or the shared counter `globs.numrows` when the argument is false (`''`,
   `None` or `0`).
2. If the sheet lacks blank rows, it adds exactly the missing ones. It
   advances the shared counter by the same amount, even when an explicit
   offset was given.
3. It builds the A1 range `"A<last+1>:<letter[width]><last+n>"`. The column
   letters come from the table `globs.letter`, keyed by the first row's width.
4. It flattens the block row by row and replaces every `'*'` with `'?'`.
5. It fetches the cell handles of the range and assigns the values to them
   by position, then pushes the whole batch back. Handles beyond the last
   value keep their old contents.

Modules:

- `Values` (`values.dfy`): the `Value` datatype (a string or an integer) and
  the placeholder escape.
- `Rows` (`rows.dfy`): row-major concatenation. `Flatten` is the nested
  `append` loop, proved equal to `Concat`.
- `A1` (`a1.dfy`): Python's `str` of an integer, the range string, and the
  client's reading of such a string. The reading is the formatter's inverse
  on valid ranges. Column labels are read in bijective base 26 (`A` = 1,
  `AA` = 27).
- `Sheets` (`sheets.dfy`): the worksheet as a `Sheet` class. It holds a row
  count, a grid from (row, column) to value, and the log of pushed batches.
  `AddRows`, `Range` and `UpdateCells` are its methods.
- `Common` (`common.dfy`): the `Globals` state object (its mutable `numRows`
  and its constant `letter` table), the offset and row-deficit arithmetic,
  the assignment loop `AssignCells` on the fetched array, and `InsertRows`.

The sheet client's behaviour is modelled only as far as `InsertRows` relies
on it:

- A range fetch succeeds on a well-formed range inside the sheet's rows. It
  then returns the rectangle's cells row by row, each row left to right.
  Unwritten cells read as `""`.
- Any other fetch fails, and `InsertRows` then returns `false`.
- A pushed batch is written into the grid in batch order.

## Model

| member | source | states |
|---|---|---|
| `Values.EscapeValue` | common.py:87 | the result is never `'*'`; `'*'` becomes `'?'` and every other value is returned unchanged |
| `Values.Escape` | common.py:87 | the escaped list has the same length as the input |
| `Values.EscapeAt` | common.py:87 | element `i` of the escaped list is `'?'` where the input held `'*'` and is the input's element `i` otherwise |
| `Values.EscapeLeavesNoStar` | common.py:87 | no `'*'` remains after the escape |
| `Values.EscapeFixesStarFree` | common.py:87 | a list without `'*'` is left unchanged |
| `Values.EscapeIdempotent` | common.py:87 | escaping twice gives the same list as escaping once |
| `Rows.Flatten` | common.py:83-86 | the nested append loops produce exactly the row-major concatenation of the rows |
| `Rows.ConcatLength` | common.py:83-86 | the flattened list has as many values as all rows together |
| `Rows.ConcatAt` | common.py:83-86 | value `j` of row `i` sits at position (number of values in rows before `i`) + `j`, so order is row by row, left to right |
| `Rows.RectangularConcatLength` | common.py:83-86 | a block of rows all of width `w` flattens to `rows * w` values |
| `Rows.RectangularConcatAt` | common.py:83-86 | in such a block, value `j` of row `i` is at position `i * w + j` |
| `A1.NatToStr` | common.py:82 | `str(n)` of a natural number is a non-empty run of digits, with no leading zero when `n > 0` |
| `A1.IntToStr` | common.py:82 | `str(n)` contains no `:` and no letter; it is a digit run for `n > 0` and starts with `-` or is `"0"` otherwise |
| `A1.NatToStrRoundTrip` | common.py:82 | reading back the digits of `str(n)` gives `n` |
| `A1.RowRoundTrip` | common.py:79-82 | `str(n)` reads back as row `n` exactly when `n >= 1`, and is rejected otherwise |
| `A1.CellRoundTrip` | common.py:82 | a cell reference `<letters><row>` reads back as itself exactly when the row is at least 1 |
| `A1.RangeRoundTrip` | common.py:82 | a range string `<cell>:<cell>` reads back as the same range exactly when both rows are at least 1 |
| `A1.Parse` | common.py:92 | a range the client accepts has letter column labels and rows from 1 |
| `Sheets.BlockAt` | common.py:92 | the cells of a range are returned row by row: a `h` x `w` range has `h * w` cells and cell `i * w + j` is (`top + i`, `left + j`) with the grid's value there |
| `Sheets.BlockDistinct` | common.py:92 | a fetched range never names the same cell twice |
| `Sheets.WriteAt` | common.py:109 | after a batch with distinct positions is pushed, each position holds the value its cell carried |
| `Sheets.WriteElsewhere` | common.py:109 | positions not in the pushed batch keep their contents |
| `Sheets.Sheet.AddRows` | common.py:77 | the row count grows by exactly `n`; contents and pushed batches are unchanged |
| `Sheets.Sheet.Range` | common.py:92 | the fetch succeeds exactly on a well-formed range inside the sheet's rows, and then returns a fresh array of the range's cells in row-major order |
| `Sheets.Sheet.UpdateCells` | common.py:109 | the whole batch is recorded in order and written into the grid; the row count is unchanged |
| `Common.EffectiveOffset` | common.py:70-71 | `''`/`None` and `0` fall back to the shared counter; any other integer is used as given |
| `Common.RowsToAdd` | common.py:72-76 | the number of rows added is the least count that makes `needed` rows fit below `last`: zero when they already fit, otherwise exactly `needed - (rowCount - last)` |
| `Common.RangeForSpans` | common.py:79-82 | the range string reads back as a range of exactly `numRows` rows starting one below `last` when `last >= 0`, and is rejected when `last < 0` |
| `Common.RangeForWellFormed` | common.py:79-82 | for a non-negative offset and a letter label, the range is well formed and starts at column A (column 1) |
| `Common.RangeForExample` | common.py:79-82 | a two-row block with column letter `B` written below row 10 covers `"A11:B12"` |
| `Common.Overlay` | common.py:101-105 | assignment keeps the number of handles |
| `Common.OverlayAt` | common.py:101-105 | each handle keeps its position; handle `k` takes value `k` when there is one, and keeps its whole old contents otherwise |
| `Common.OverlayDistinct` | common.py:101-105 | assignment never makes two handles name the same cell |
| `Common.AssignCells` | common.py:101-105 | the in-place loop leaves the array equal to `Overlay` of its old contents and the values |
| `Common.PushBlock` | common.py:89-116 | the fetch, assignment and push succeed exactly when the client accepts the range and it lies inside the sheet's rows; the pushed batch is then the fetched cells overlaid with the values, and it is written into the grid; on failure nothing is pushed or written; the row count never changes |
| `Common.InsertedBatchAt` | common.py:79-105 | for a rectangular block whose column letter names its width, the pushed batch has one handle per value; handle `i * w + j` is the cell `i` rows below the offset and `j` columns right of A, and it carries escaped value `j` of row `i` |
| `Common.BlockLands` | common.py:68-118 | after the push, that cell of the sheet holds escaped value `j` of row `i` |
| `Common.InsertRows` | common.py:68-118 | row count and shared counter both rise by exactly `RowsToAdd` (also when an explicit offset is given), and afterwards the sheet has at least `offset + n` rows; the call succeeds exactly when the client accepts the range string; on success the pushed batch is the fetched cells, in fetch order, overlaid with the escaped flattened values, and it is written into the grid; with a letter column label, success is exactly `offset >= 0` and the batch is the block's own rectangle; on failure nothing is pushed |

## Left out

- `out`, `Stop` and `gotcha` (common.py:3-66) are not modelled. They only format terminal output and raise control-flow exceptions, driven by `globs.DBUG`, `globs.nest` and `globs.mode`.
- The retry loops around the fetch and the update (common.py:89-99 and 107-116) are not modelled, and neither is `time.sleep`. `time` is not imported in `common.py`, so the first failed attempt raises `NameError` at line 97 instead of retrying. The model treats a failed fetch as the call ending with `false`. The update is assumed to succeed.
- The 5-attempt bound and the fatal abort are not modelled either. The `stop` flag is not reset before the update loop, so an exhausted update never calls `Stop()`. In non-web mode `Stop()` returns, after which `CellList` is unbound.
- Values are strings and integers only. Floats, `None` and other Python objects in a row are not modelled, and neither is iterating a string row character by character.
- `lastrowused` is either absent (`''` or `None`) or an integer. Other truthy values, which would fail in the arithmetic, are not modelled.
- The sheet's column count is not modelled, so a range wider than the sheet is not rejected.
- Single-cell and named ranges are not modelled. The client's reading of a range accepts exactly `<letters><row>:<letters><row>` with rows from 1, and the fetch requires the bottom-right cell not above or left of the top-left one.
- Network failures of the fetch or the update are not modelled. Neither is the client's own behaviour on ranges beyond what is stated above.
- Cell handles are values in an array, so one handle's assignment cannot alias another.
- Common.InsertRows: when `globs.letter` maps the width to something other than letters, success is stated only as "the client accepts the range string". The range it then resolves to is left as whatever the client reads; it is not tied to the block's shape.
- Common.InsertedBatchAt: the exact placement of values is proved only for rectangular blocks whose column letter names the block's width. The source does not check either condition. For other blocks the general `Overlay` properties apply.

## Notes on the source

- `if not lastrowused` (common.py:70) also treats an explicit `0` as "not supplied", so the counter is used in that case.
- The range is computed from the original offset (common.py:79-80), not from any updated one.
- The column width is the first row's length (common.py:81). `listoflists` must be non-empty, and that width must be a key of `globs.letter`. The model requires both of its callers.

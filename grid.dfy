/** A decoded worksheet: rows of cells, as the spreadsheet library hands
    them over. `Empty` is a missing cell (or the '' that `defval` fills in). */
module Grid {
  import opened Text
  import opened JsNumbers

  datatype Cell = Empty | Num(value: real) | Str(text: string) | DateV(ms: int)

  type Row = seq<Cell>
  type Sheet = seq<Row>

  /** `row[c]`: a position outside the row reads as a missing cell. */
  function RowCell(row: Row, c: int): (r: Cell)
    ensures 0 <= c < |row| ==> r == row[c]
    ensures !(0 <= c < |row|) ==> r == Empty
  {
    if 0 <= c < |row| then row[c] else Empty
  }

  /** The cell at row `r`, column `c`, or `Empty` outside the grid. */
  function CellAt(grid: Sheet, r: int, c: int): (cell: Cell)
    ensures 0 <= r < |grid| ==> cell == RowCell(grid[r], c)
    ensures !(0 <= r < |grid|) ==> cell == Empty
  {
    if 0 <= r < |grid| then RowCell(grid[r], c) else Empty
  }

  /** JavaScript truthiness of a cell value: 0, '' and a missing cell are falsy. */
  predicate Truthy(c: Cell) {
    match c
    case Empty => false
    case Num(v) => v != 0.0
    case Str(s) => s != ""
    case DateV(_) => true
  }

  /** `String(v)`. Dates are written as an opaque `Date(<ms>)` form, which
      starts with a letter as the real date string does. */
  function CellText(c: Cell): string {
    match c
    case Empty => ""
    case Num(v) => NumText(v)
    case Str(s) => s
    case DateV(ms) => "Date(" + IntText(ms) + ")"
  }

  /** A falsy cell has no text, and a truthy one has some. */
  lemma TruthyText(c: Cell)
    ensures Truthy(c) ==> CellText(c) != ""
    ensures c.Empty? || c.Str? ==> (Truthy(c) <==> CellText(c) != "")
  {
  }
}

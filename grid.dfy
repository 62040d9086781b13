/**
 * The tables the document libraries hand over: pdfplumber tables and pandas
 * frames as rows of optional cell strings (`None` for a missing cell or NaN),
 * and the Python idioms the extractors apply to one cell.
 */
module Grid {
  import opened Wrappers
  import opened Text

  type Cell = Option<string>
  type Row = seq<Cell>
  type Table = seq<Row>

  /** `str(cell)`: a missing cell prints as "None". */
  function Str(c: Cell): string {
    match c
    case Some(s) => s
    case None => "None"
  }

  /** `if cell`: present and non-empty. */
  predicate Truthy(c: Cell) {
    c.Some? && c.value != []
  }

  /** `cell or ''` */
  function OrEmpty(c: Cell): string {
    if c.Some? then c.value else []
  }

  /** `cell or ''` for every cell of a row. */
  function CellStrings(row: Row): (r: seq<string>)
    ensures |r| == |row|
    ensures forall i :: 0 <= i < |row| ==> r[i] == OrEmpty(row[i])
  {
    seq(|row|, i requires 0 <= i < |row| => OrEmpty(row[i]))
  }

  /** `' '.join(str(cell) if cell else '' for cell in row)` */
  function RowText(row: Row): string {
    Join(CellStrings(row), " ")
  }

  /** `cell and str(cell).strip()`: present and not only whitespace. */
  predicate HasText(c: Cell) {
    c.Some? && !Blank(c.value)
  }

  /** `str(cell).strip() if cell else ''` */
  function CellText(c: Cell): (r: string)
    ensures r != [] <==> HasText(c)
  {
    StripEmptyIffBlank(OrEmpty(c));
    if Truthy(c) then Strip(c.value) else []
  }

  /** `row[i] if i < len(row) else None` */
  function At(row: Row, i: int): Cell {
    if 0 <= i < |row| then row[i] else None
  }

  /** The cells of a row, `str(...)`-converted, that have text, stripped. */
  function NonEmptyTexts(row: Row): (r: seq<string>)
    ensures |r| <= |row|
    ensures forall i :: 0 <= i < |r| ==> r[i] != []
    decreases |row|
  {
    if row == [] then []
    else if HasText(row[0]) then [CellText(row[0])] + NonEmptyTexts(row[1..])
    else NonEmptyTexts(row[1..])
  }

  /** No cell has text (`all(not cell or not str(cell).strip() for cell in row)`). */
  predicate RowBlank(row: Row) {
    forall i :: 0 <= i < |row| ==> !HasText(row[i])
  }

  lemma {:induction false} NonEmptyTextsOfBlank(row: Row)
    ensures RowBlank(row) <==> NonEmptyTexts(row) == []
    decreases |row|
  {
    if row != [] {
      NonEmptyTextsOfBlank(row[1..]);
      if RowBlank(row[1..]) && !HasText(row[0]) {
        assert forall i :: 1 <= i < |row| ==> row[i] == row[1..][i - 1];
      }
    }
  }
}

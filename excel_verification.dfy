/**
 * `excel_verification_api.py`, `HierarchicalExcelExtractor`: a cost sheet
 * read into logical rows. A named row takes in the row below it when that row
 * carries a figure or a name of its own; a row holding nothing but one number
 * is a table number, after which reading resumes below the next header row.
 */
module ExcelVerification {
  import opened Wrappers
  import opened Text
  import opened Numbers
  import ExcelParser

  /** The frame cell by cell, as `pd.read_excel` gives it (see `ExcelParser.Sheet`). */
  type Sheet = ExcelParser.Sheet

  /** Where the six fields are read: the result of `_find_column_positions`. */
  datatype Positions = Positions(itemName: nat, unit: nat, quantity: nat, unitPrice: nat, amount: nat, notes: nat)

  /** `_get_cell_value(row, col, preserve_spaces)`: a column outside the frame reads "". */
  function Read(sh: Sheet, r: nat, c: nat, keepSpaces: bool): string {
    if c < sh.width then (if keepSpaces then sh.raw(r, c) else sh.text(r, c)) else []
  }

  /** The six fields of a row; the name keeps its spaces, the others are stripped. */
  datatype Fields = Fields(itemName: string, unit: string, quantity: string, unitPrice: string,
                           amount: string, notes: string)

  function RowFields(sh: Sheet, pos: Positions, r: nat): Fields {
    Fields(Read(sh, r, pos.itemName, true), Read(sh, r, pos.unit, false), Read(sh, r, pos.quantity, false),
           Read(sh, r, pos.unitPrice, false), Read(sh, r, pos.amount, false), Read(sh, r, pos.notes, false))
  }

  /** A quantity, unit, unit price or amount is present. */
  predicate HasFigures(f: Fields) {
    f.quantity != [] || f.unit != [] || f.unitPrice != [] || f.amount != []
  }

  /**
   * `should_merge`, its three conditions as written (`next_item_name.strip()`
   * is non-empty exactly when the name is not blank).
   */
  predicate ShouldMerge(cur: Fields, next: Fields) {
    (!HasFigures(cur) && HasFigures(next)) || (HasFigures(cur) && HasFigures(next)) || !Blank(next.itemName)
  }

  /** `next if next else cur` */
  function Prefer(next: string, cur: string): string {
    if next != [] then next else cur
  }

  /** A row merged with the row below: the names joined, every other field taken from below when present there. */
  function Merged(cur: Fields, next: Fields): Fields {
    Fields(if !Blank(next.itemName) then cur.itemName + " " + Strip(next.itemName) else cur.itemName,
           Prefer(next.unit, cur.unit), Prefer(next.quantity, cur.quantity), Prefer(next.unitPrice, cur.unitPrice),
           Prefer(next.amount, cur.amount), Prefer(next.notes, cur.notes))
  }

  /** A logical row and the sheet rows `startRow` to `endRow` it was read from. */
  datatype LogicalRow = LogicalRow(fields: Fields, startRow: nat, endRow: nat)

  /** `_is_empty_row`: every cell is NaN or blank. */
  predicate EmptyRow(sh: Sheet, r: nat) {
    forall c: nat :: c < sh.width ==> sh.na(r, c) || sh.text(r, c) == []
  }

  /** `_extract_single_logical_row`: `None` past the end and for an empty row. */
  function SingleLogicalRow(sh: Sheet, pos: Positions, start: nat): (lr: Option<LogicalRow>)
    ensures lr.None? <==> start >= sh.height || EmptyRow(sh, start)
    ensures lr.Some? ==> lr.value.startRow == start <= lr.value.endRow <= start + 1 && lr.value.endRow < sh.height
  {
    if start >= sh.height || EmptyRow(sh, start) then None
    else
      var cur := RowFields(sh, pos, start);
      if cur.itemName != [] && start + 1 < sh.height && ShouldMerge(cur, RowFields(sh, pos, start + 1)) then
        Some(LogicalRow(Merged(cur, RowFields(sh, pos, start + 1)), start, start + 1))
      else
        Some(LogicalRow(cur, start, start))
  }

  /**
   * A named row spans two sheet rows exactly when the row below carries a
   * figure or a non-blank name, whatever the named row itself holds; the
   * merged row takes every present field from below and keeps its own name
   * in front.
   */
  lemma {:induction false} MergeRule(sh: Sheet, pos: Positions, start: nat)
    requires start + 1 < sh.height && !EmptyRow(sh, start) && RowFields(sh, pos, start).itemName != []
    ensures var lr := SingleLogicalRow(sh, pos, start).value;
            var next := RowFields(sh, pos, start + 1);
            (lr.endRow == start + 1 <==> HasFigures(next) || !Blank(next.itemName)) &&
            (lr.endRow == start + 1 ==>
               StartsWith(lr.fields.itemName, RowFields(sh, pos, start).itemName) &&
               (next.amount != [] ==> lr.fields.amount == next.amount) &&
               (next.quantity != [] ==> lr.fields.quantity == next.quantity) &&
               (next.amount == [] ==> lr.fields.amount == RowFields(sh, pos, start).amount))
  {
    var cur := RowFields(sh, pos, start);
    var next := RowFields(sh, pos, start + 1);
    var name := Merged(cur, next).itemName;
    assert name[..|cur.itemName|] == cur.itemName;
  }

  // -------------------------------------------------------- table numbers

  /** The stripped texts of the present, non-blank cells of row `r` from column `c` on. */
  function FilledTexts(sh: Sheet, r: nat, c: nat): (vs: seq<string>)
    ensures c <= sh.width ==> |vs| <= sh.width - c
    decreases sh.width - c
  {
    if c >= sh.width then []
    else (if !sh.na(r, c) && sh.text(r, c) != [] then [sh.text(r, c)] else []) + FilledTexts(sh, r, c + 1)
  }

  /** `_is_table_number_row`: exactly one cell has text, and `float()` reads it. */
  predicate TableNumberRow(sh: Sheet, r: nat) {
    var vs := FilledTexts(sh, r, 0);
    |vs| == 1 && ParseFloat(vs[0]).Some?
  }

  /** The texts of the present cells of row `r` from column `c` on, as written. */
  function PresentTexts(sh: Sheet, r: nat, c: nat): seq<string>
    decreases sh.width - c
  {
    if c >= sh.width then []
    else (if !sh.na(r, c) then [sh.raw(r, c)] else []) + PresentTexts(sh, r, c + 1)
  }

  /** A header row: its present cells joined by spaces contain 費目, 工種 and 種別. */
  predicate HeaderRow(sh: Sheet, r: nat) {
    var line := Join(PresentTexts(sh, r, 0), " ");
    Contains(line, "費目") && Contains(line, "工種") && Contains(line, "種別")
  }

  /** `_find_next_header_row(df, from)`: the first header row at or after `from`. */
  function NextHeader(sh: Sheet, from: nat): (h: Option<nat>)
    ensures h.Some? ==> from <= h.value < sh.height
    decreases sh.height - from
  {
    if from >= sh.height then None
    else if HeaderRow(sh, from) then Some(from)
    else NextHeader(sh, from + 1)
  }

  /** The next header row is a header row with none between the start and it; without one, none follows the start. */
  lemma {:induction false} NextHeaderSpec(sh: Sheet, from: nat)
    ensures NextHeader(sh, from).Some? ==>
              HeaderRow(sh, NextHeader(sh, from).value) &&
              forall k :: from <= k < NextHeader(sh, from).value ==> !HeaderRow(sh, k)
    ensures NextHeader(sh, from).None? ==> forall k :: from <= k < sh.height ==> !HeaderRow(sh, k)
    decreases sh.height - from
  {
    if from < sh.height && !HeaderRow(sh, from) {
      NextHeaderSpec(sh, from + 1);
    }
  }

  method FindNextHeaderRow(sh: Sheet, start: nat) returns (h: Option<nat>)
    ensures h == NextHeader(sh, start)
  {
    NextHeaderSpec(sh, start);
    var idx := start;
    while idx < sh.height
      invariant start <= idx && forall k :: start <= k < idx ==> !HeaderRow(sh, k)
      decreases sh.height - idx
    {
      if HeaderRow(sh, idx) {
        return Some(idx);
      }
      idx := idx + 1;
    }
    return None;
  }

  // ------------------------------------------------------------- scanning

  /**
   * The three row tests the scan makes, as functions of the row: whether it is
   * a table number, where the next header row is from a row on, and the
   * logical row that starts at a row. `ScannerOf` binds them to the sheet.
   */
  datatype Scanner = Scanner(height: nat, tableNumber: nat -> bool, nextHeader: nat -> Option<nat>,
                             logicalRow: nat -> Option<LogicalRow>)

  function ScannerOf(sh: Sheet, pos: Positions): Scanner {
    Scanner(sh.height, (r: nat) => TableNumberRow(sh, r), (r: nat) => NextHeader(sh, r),
            (r: nat) => SingleLogicalRow(sh, pos, r))
  }

  /** A found header lies at or after where the search began; a logical row starts where asked and ends inside the sheet. */
  ghost predicate Sound(sc: Scanner) {
    (forall r: nat :: sc.nextHeader(r).Some? ==> r <= sc.nextHeader(r).value) &&
    (forall r: nat :: sc.logicalRow(r).Some? ==>
       sc.logicalRow(r).value.startRow == r <= sc.logicalRow(r).value.endRow < sc.height)
  }

  lemma {:induction false} ScannerOfSound(sh: Sheet, pos: Positions)
    ensures Sound(ScannerOf(sh, pos))
  {
    var sc := ScannerOf(sh, pos);
    forall r: nat | sc.nextHeader(r).Some? ensures r <= sc.nextHeader(r).value {
      assert sc.nextHeader(r) == NextHeader(sh, r);
    }
    forall r: nat | sc.logicalRow(r).Some?
      ensures sc.logicalRow(r).value.startRow == r <= sc.logicalRow(r).value.endRow < sc.height
    {
      assert sc.logicalRow(r) == SingleLogicalRow(sh, pos, r);
    }
  }

  /**
   * `_extract_logical_rows_with_spanning` from row `cur` on. A table-number
   * row moves the cursor below the next header row, or ends the scan when
   * there is none; a logical row moves it below its last row; an empty row is
   * stepped over.
   */
  function Scan(sc: Scanner, cur: nat): seq<LogicalRow>
    requires Sound(sc)
    decreases sc.height - cur
  {
    if cur >= sc.height then []
    else if sc.tableNumber(cur) then
      match sc.nextHeader(cur + 1)
      case None => []
      case Some(h) => Scan(sc, h + 1)
    else
      match sc.logicalRow(cur)
      case Some(lr) => [lr] + Scan(sc, lr.endRow + 1)
      case None => Scan(sc, cur + 1)
  }

  /** The logical rows of a sheet below its header row. */
  function Rows(sh: Sheet, pos: Positions, header: nat): seq<LogicalRow> {
    ScannerOfSound(sh, pos);
    Scan(ScannerOf(sh, pos), header + 1)
  }

  method ScanRows(sc: Scanner, start: nat) returns (rows: seq<LogicalRow>)
    requires Sound(sc)
    ensures rows == Scan(sc, start)
  {
    rows := [];
    var cur := start;
    while cur < sc.height
      invariant Scan(sc, start) == rows + Scan(sc, cur)
      decreases sc.height - cur
    {
      if sc.tableNumber(cur) {
        var next := sc.nextHeader(cur + 1);
        if next.Some? {
          cur := next.value + 1;
        } else {
          assert rows + [] == rows;
          return;
        }
      } else {
        var lr := sc.logicalRow(cur);
        if lr.Some? {
          assert rows + ([lr.value] + Scan(sc, lr.value.endRow + 1))
              == (rows + [lr.value]) + Scan(sc, lr.value.endRow + 1);
          rows := rows + [lr.value];
          cur := lr.value.endRow + 1;
        } else {
          cur := cur + 1;
        }
      }
    }
    assert rows + [] == rows;
  }

  method ExtractLogicalRows(sh: Sheet, pos: Positions, header: nat) returns (rows: seq<LogicalRow>)
    ensures rows == Rows(sh, pos, header)
  {
    ScannerOfSound(sh, pos);
    rows := ScanRows(ScannerOf(sh, pos), header + 1);
  }

  /**
   * The logical rows lie below the cursor, in sheet order, without sharing a
   * sheet row; each is the logical row read at its start row, and none starts
   * at a table-number row.
   */
  ghost predicate Ordered(sc: Scanner, rows: seq<LogicalRow>, cur: nat) {
    (forall i :: 0 <= i < |rows| ==>
       cur <= rows[i].startRow <= rows[i].endRow < sc.height &&
       sc.logicalRow(rows[i].startRow) == Some(rows[i]) && !sc.tableNumber(rows[i].startRow)) &&
    (forall i :: 0 <= i < |rows| - 1 ==> rows[i].endRow < rows[i + 1].startRow)
  }

  lemma {:induction false} ScanOrdered(sc: Scanner, cur: nat)
    requires Sound(sc)
    ensures Ordered(sc, Scan(sc, cur), cur)
    decreases sc.height - cur
  {
    if cur < sc.height {
      if sc.tableNumber(cur) {
        match sc.nextHeader(cur + 1)
        case None =>
          assert Scan(sc, cur) == [];
        case Some(h) =>
          ScanOrdered(sc, h + 1);
          JumpOrdered(sc, cur, h + 1);
      } else {
        match sc.logicalRow(cur)
        case Some(lr) =>
          ScanOrdered(sc, lr.endRow + 1);
          assert Scan(sc, cur) == [lr] + Scan(sc, lr.endRow + 1);
          OrderedCons(sc, lr, Scan(sc, lr.endRow + 1), cur);
        case None =>
          ScanOrdered(sc, cur + 1);
          JumpOrdered(sc, cur, cur + 1);
      }
    }
  }

  /** Where the scan only moves its cursor from `cur` to `next`, what follows is read from `next`. */
  lemma {:induction false} JumpOrdered(sc: Scanner, cur: nat, next: nat)
    requires Sound(sc) && cur < sc.height && cur < next
    requires (sc.tableNumber(cur) && sc.nextHeader(cur + 1) == Some(next - 1)) ||
             (!sc.tableNumber(cur) && sc.logicalRow(cur).None? && next == cur + 1)
    requires Ordered(sc, Scan(sc, next), next)
    ensures Ordered(sc, Scan(sc, cur), cur)
  {
    assert Scan(sc, cur) == Scan(sc, next);
  }

  /**
   * The logical rows of a sheet lie below its header row in sheet order
   * without overlapping; each is the row `_extract_single_logical_row` reads
   * at its start (so its start row is not empty) and none starts at a
   * table-number row.
   */
  lemma {:induction false} RowsOrdered(sh: Sheet, pos: Positions, header: nat)
    ensures var rows := Rows(sh, pos, header);
            forall i :: 0 <= i < |rows| ==>
              header < rows[i].startRow <= rows[i].endRow < sh.height &&
              SingleLogicalRow(sh, pos, rows[i].startRow) == Some(rows[i]) &&
              !TableNumberRow(sh, rows[i].startRow) &&
              (i + 1 < |rows| ==> rows[i].endRow < rows[i + 1].startRow)
  {
    ScannerOfSound(sh, pos);
    var sc := ScannerOf(sh, pos);
    ScanOrdered(sc, header + 1);
    var rows := Scan(sc, header + 1);
    forall i | 0 <= i < |rows|
      ensures SingleLogicalRow(sh, pos, rows[i].startRow) == Some(rows[i]) && !TableNumberRow(sh, rows[i].startRow)
    {
      assert sc.logicalRow(rows[i].startRow) == SingleLogicalRow(sh, pos, rows[i].startRow);
      assert sc.tableNumber(rows[i].startRow) == TableNumberRow(sh, rows[i].startRow);
    }
  }

  lemma {:induction false} OrderedCons(sc: Scanner, lr: LogicalRow, rest: seq<LogicalRow>, cur: nat)
    requires cur <= lr.startRow <= lr.endRow < sc.height
    requires sc.logicalRow(lr.startRow) == Some(lr) && !sc.tableNumber(lr.startRow)
    requires Ordered(sc, rest, lr.endRow + 1)
    ensures Ordered(sc, [lr] + rest, cur)
  {
    var rows := [lr] + rest;
    forall i | 0 <= i < |rows|
      ensures cur <= rows[i].startRow <= rows[i].endRow < sc.height &&
              sc.logicalRow(rows[i].startRow) == Some(rows[i]) && !sc.tableNumber(rows[i].startRow)
    {
      if i > 0 {
        assert rows[i] == rest[i - 1];
      }
    }
    forall i | 0 <= i < |rows| - 1
      ensures rows[i].endRow < rows[i + 1].startRow
    {
      assert rows[i + 1] == rest[i];
      if i > 0 {
        assert rows[i] == rest[i - 1];
      }
    }
  }
}

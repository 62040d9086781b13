/**
 * `excel_subtable_extractor.py`: the sub-tables of one estimate sheet. A
 * sub-table opens at a row whose columns 0-3 hold a reference such as
 * `内1号`; its data rows are read at fixed columns, from three rows below the
 * reference, until a row mentions 計 or the next reference appears. Cells
 * are pandas values after `fillna('')`, given as their text (`None` reads as
 * the empty string).
 */
module ExcelSubtables {
  import opened Wrappers
  import opened Text
  import opened Grid
  import opened Numbers
  import opened TitleText
  import opened RefSearch
  import opened RefNames

  // ------------------------------------------------------ reference cells

  /** `find_reference_number_pattern(text)`: the normalised text contains kanji, digits and 号 in a row. */
  predicate HasRefPattern(text: string) {
    text != [] && Search(NormalizeText(text), 0, Tight).Some?
  }

  lemma {:induction false} NarrowRefName(n: nat)
    ensures Narrow(RefName(n)) == RefName(n)
    ensures NoSpace(RefName(n))
  {
    var t := RefName(n);
    var d := DecimalString(n);
    DecimalStringAscii(n);
    assert t == "内" + d + "号";
    forall i | 0 <= i < |t| ensures NarrowChar(t[i]) == t[i] && !IsSpace(t[i]) {
      if 0 < i < |t| - 1 {
        assert t[i] == d[i - 1];
      }
    }
  }

  /** Normalising text around a piece that normalisation leaves alone keeps that piece in place. */
  lemma {:induction false} NormalizeAround(x: string, t: string, y: string)
    requires Narrow(t) == t && NoSpace(t)
    ensures NormalizeText(x + t + y) == RemoveSpaces(Narrow(x)) + t + RemoveSpaces(Narrow(y))
  {
    NormalizeTextPlain(x + t + y);
    NarrowConcat(x + t, y);
    NarrowConcat(x, t);
    RemoveSpacesConcat(Narrow(x) + t, Narrow(y));
    RemoveSpacesConcat(Narrow(x), t);
    RemoveSpacesUnspaced(t);
  }

  /** `内N号` inside any text reads as one match of the pattern. */
  lemma {:induction false} RefNameShaped(a: string, n: nat, b: string)
    ensures Shaped(a + RefName(n) + b, Match(|a|, |a| + 1, |a| + 1, |a| + |RefName(n)| - 1, |a| + |RefName(n)|), Tight)
  {
    var t := RefName(n);
    var d := DecimalString(n);
    var s := a + t + b;
    assert t == "内" + d + "号";
    assert s[|a|] == '内';
    assert s[|a| + |t| - 1] == '号';
    forall i | |a| + 1 <= i < |a| + |t| - 1 ensures IsDigit(s[i]) {
      assert s[i] == d[i - |a| - 1];
    }
  }

  /** Normalising a cell around `内N号` leaves the name in place between the normalised surroundings. */
  lemma {:induction false} RefNameNormalized(x: string, n: nat, y: string) returns (a: string, b: string)
    ensures NormalizeText(x + RefName(n) + y) == a + RefName(n) + b
  {
    NarrowRefName(n);
    NormalizeAround(x, RefName(n), y);
    a, b := RemoveSpaces(Narrow(x)), RemoveSpaces(Narrow(y));
  }

  /** A reference name `内N号` anywhere in a cell, whatever surrounds it, is recognised. */
  lemma {:induction false} RefNameDetected(x: string, n: nat, y: string)
    ensures HasRefPattern(x + RefName(n) + y)
  {
    var a, b := RefNameNormalized(x, n, y);
    var t := RefName(n);
    var m := Match(|a|, |a| + 1, |a| + 1, |a| + |t| - 1, |a| + |t|);
    RefNameShaped(a, n, b);
    SearchFindsShaped(a + t + b, 0, m, Tight);
    assert x + t + y != [] by { assert |x + t + y| >= |t|; }
  }

  /** The first of columns 0-3, from `c` on, whose text has a reference pattern. */
  function RefColFrom(row: Row, c: nat): (r: Option<nat>)
    ensures r.Some? ==> c <= r.value <= 3 && r.value < |row|
    decreases |row| - c
  {
    if c >= |row| || c > 3 then None
    else if HasRefPattern(OrEmpty(row[c])) then Some(c)
    else RefColFrom(row, c + 1)
  }

  /** The column found has a reference pattern. */
  lemma {:induction false} RefColFromFound(row: Row, c: nat)
    requires RefColFrom(row, c).Some?
    ensures HasRefPattern(OrEmpty(row[RefColFrom(row, c).value]))
    decreases |row| - c
  {
    if !HasRefPattern(OrEmpty(row[c])) {
      RefColFromFound(row, c + 1);
    }
  }

  /** No column from `c` on before the one found has a reference pattern. */
  lemma {:induction false} RefColFromFirst(row: Row, c: nat, k: nat)
    requires RefColFrom(row, c).Some? && c <= k < RefColFrom(row, c).value
    ensures !HasRefPattern(OrEmpty(row[k]))
    decreases |row| - c
  {
    RefColFromPast(row, c);
    if k > c {
      RefColFromFirst(row, c + 1, k);
    }
  }

  /** A column before the one found has no reference pattern, and the search from the next column finds the same one. */
  lemma {:induction false} RefColFromPast(row: Row, c: nat)
    requires RefColFrom(row, c).Some? && c < RefColFrom(row, c).value
    ensures !HasRefPattern(OrEmpty(row[c])) && RefColFrom(row, c + 1) == RefColFrom(row, c)
  {
  }

  /** With none found, no column of 0-3 from `c` on has a reference pattern. */
  lemma {:induction false} RefColFromNone(row: Row, c: nat, k: nat)
    requires RefColFrom(row, c).None? && c <= k < |row| && k <= 3
    ensures !HasRefPattern(OrEmpty(row[k]))
    decreases |row| - c
  {
    if k > c {
      RefColFromNone(row, c + 1, k);
    }
  }

  /** The column whose reference opens a sub-table: the first of columns 0-3 with a reference pattern. */
  function RefCol(row: Row): Option<nat> {
    RefColFrom(row, 0)
  }

  // ----------------------------------------------------------- row fields

  /** The columns `find_column_headers_and_positions` reports: 名称, 単位, 数量, 単価, 金額, 摘要. */
  datatype Columns = Columns(name: nat, unit: nat, quantity: nat, unitPrice: nat, amount: nat, notes: nat)

  /** Column 1 holds the general item category, outside the position map. */
  const GeneralCol: nat := 1

  /**
   * `find_column_headers_and_positions(df, start_row)`: no header is looked
   * for; the next row is taken as the header and the positions are fixed.
   */
  function HeaderAndColumns(startRow: nat): (r: (nat, Columns))
    ensures r.0 == startRow + 1
    ensures r.1.name == 2 && r.1.unit == 4 && r.1.quantity == 5
    ensures r.1.unitPrice == 6 && r.1.amount == 7 && r.1.notes == 8
  {
    (startRow + 1, Columns(2, 4, 5, 6, 7, 8))
  }

  /** `str(row.iloc[col]).strip()` when the column exists, else "", with the text "nan" read as "". */
  function Field(row: Row, col: nat): (v: string)
    ensures v != "nan"
    ensures v == [] || (!IsSpace(v[0]) && !IsSpace(v[|v| - 1]))
  {
    var t := if col < |row| then Strip(OrEmpty(row[col])) else [];
    StripShape(OrEmpty(At(row, col)));
    if t == "nan" then [] else t
  }

  /**
   * The sheet as `extract_subtable_data` reads it: its rows, and the field
   * value of each cell (`Field` of the cell, "" past the last row). The
   * scan is written over `field` so that each read is one application.
   * `zero(r, c)` holds of the cells `pd.read_excel` hands over as a number
   * or boolean equal to zero (0, 0.0, False): their `str()` is not blank,
   * but the cell itself is falsy.
   */
  datatype Sheet = Sheet(rows: Table, field: (nat, nat) -> string, zero: (nat, nat) -> bool)

  /** The sheet a table gives, with its zero-valued cells. */
  function SheetOf(df: Table, zero: (nat, nat) -> bool): Sheet {
    Sheet(df, (r: nat, c: nat) => if r < |df| then Field(df[r], c) else [], zero)
  }

  /** The field reading agrees with `Field` on every row. */
  ghost predicate FieldsRead(sh: Sheet) {
    forall r: nat, c: nat :: r < |sh.rows| ==> sh.field(r, c) == Field(sh.rows[r], c)
  }

  lemma {:induction false} SheetOfFieldsRead(df: Table, zero: (nat, nat) -> bool)
    ensures FieldsRead(SheetOf(df, zero))
  {
  }

  /** One extracted data row (`reference_number`, 名称, 単位, 数量, 単価, 金額, 摘要). */
  datatype DataRow = DataRow(reference: string, name: string, unit: string, quantity: string, unitPrice: string, amount: string, notes: string)

  /** Row `r` read on its own: the specific item name, or the general one when that is empty. */
  function PlainRow(sh: Sheet, r: nat, cols: Columns, reference: string): DataRow {
    var specific := sh.field(r, cols.name);
    DataRow(reference, if specific != [] then specific else sh.field(r, GeneralCol),
      sh.field(r, cols.unit), sh.field(r, cols.quantity), sh.field(r, cols.unitPrice), sh.field(r, cols.amount),
      sh.field(r, cols.notes))
  }

  /** Only the general item is filled: no specific item, quantity, unit or amount (a unit price may be there). */
  predicate GeneralOnly(sh: Sheet, r: nat, cols: Columns) {
    sh.field(r, GeneralCol) != [] && sh.field(r, cols.name) == [] && sh.field(r, cols.quantity) == []
    && sh.field(r, cols.unit) == [] && sh.field(r, cols.amount) == []
  }

  /** Row `r` has a specific item, unit, quantity, unit price or amount. */
  predicate HasData(sh: Sheet, r: nat, cols: Columns) {
    sh.field(r, cols.name) != [] || sh.field(r, cols.unit) != [] || sh.field(r, cols.quantity) != []
    || sh.field(r, cols.unitPrice) != [] || sh.field(r, cols.amount) != []
  }

  /** A general-only row `r` merged with row `r + 1`: names joined, figures from the next row, notes kept. */
  function MergedRow(sh: Sheet, r: nat, cols: Columns, reference: string): DataRow {
    var general := sh.field(r, GeneralCol);
    var specific := sh.field(r + 1, cols.name);
    DataRow(reference, if specific != [] then Strip(general + " " + specific) else general,
      sh.field(r + 1, cols.unit), sh.field(r + 1, cols.quantity), sh.field(r + 1, cols.unitPrice),
      sh.field(r + 1, cols.amount), sh.field(r, cols.notes))
  }

  /** Row `r` absorbs row `r + 1`. */
  predicate Spans(sh: Sheet, r: nat, cols: Columns) {
    GeneralOnly(sh, r, cols) && r + 1 < |sh.rows| && HasData(sh, r + 1, cols)
  }

  /** The row read at `r`, merged with the next one when it spans. */
  function ReadAt(sh: Sheet, r: nat, cols: Columns, reference: string): (d: DataRow)
    ensures d.reference == reference
  {
    if Spans(sh, r, cols) then MergedRow(sh, r, cols, reference) else PlainRow(sh, r, cols, reference)
  }

  /** A field value has no whitespace at either end. */
  lemma {:induction false} FieldTrimmed(sh: Sheet, r: nat, c: nat)
    requires FieldsRead(sh) && r < |sh.rows|
    ensures var v := sh.field(r, c); v == [] || (!IsSpace(v[0]) && !IsSpace(v[|v| - 1]))
  {
    var v := Field(sh.rows[r], c);
    assert v == [] || (!IsSpace(v[0]) && !IsSpace(v[|v| - 1]));
    assert sh.field(r, c) == v;
  }

  lemma {:induction false} JoinTrimmed(g: string, n: string)
    requires g != [] && !IsSpace(g[0])
    requires n != [] && !IsSpace(n[|n| - 1])
    ensures Strip(g + " " + n) == g + " " + n
  {
    var s := g + " " + n;
    assert s[0] == g[0];
    assert s[|s| - 1] == n[|n| - 1];
    StripUnspaced(s);
  }

  /** The joined name of a merge is the general item, one space, and the specific item. */
  lemma {:induction false} MergedNameJoins(sh: Sheet, r: nat, cols: Columns, reference: string)
    requires FieldsRead(sh) && r + 1 < |sh.rows|
    requires sh.field(r, GeneralCol) != [] && sh.field(r + 1, cols.name) != []
    ensures MergedRow(sh, r, cols, reference).name == sh.field(r, GeneralCol) + " " + sh.field(r + 1, cols.name)
  {
    FieldTrimmed(sh, r, GeneralCol);
    FieldTrimmed(sh, r + 1, cols.name);
    JoinTrimmed(sh.field(r, GeneralCol), sh.field(r + 1, cols.name));
  }

  // ------------------------------------------------------- header filter

  /** The header rows `extract_subtable_data` drops, whatever else they hold. */
  predicate IsHeaderRow(d: DataRow) {
    Listed(NormalizeText(d.name), ["名称", "名称／規格", "名称/規格", "規格"])
    || NormalizeText(d.unit) == "単位"
    || NormalizeText(d.quantity) == "数量"
    || NormalizeText(d.unitPrice) == "単価"
    || Listed(NormalizeText(d.amount), ["金額", "金\U{3000}額"])
    || Contains(d.name, "規\U{3000}格")
    || Contains(d.amount, "金\U{3000}額")
  }

  /** A row worth keeping: not a header, and a name, quantity, unit price or amount. */
  predicate Kept(d: DataRow) {
    !IsHeaderRow(d) && (d.name != [] || d.quantity != [] || d.unitPrice != [] || d.amount != [])
  }

  // -------------------------------------------------------- stop markers

  /** The cells whose text is not blank, as they are (`str(cell) for cell in row if str(cell).strip()`). */
  function FilledTexts(row: Row): (r: seq<string>)
    ensures |r| <= |row|
    ensures forall k :: 0 <= k < |r| ==> !Blank(r[k])
    decreases |row|
  {
    if row == [] then []
    else (if HasText(row[0]) then [row[0].value] else []) + FilledTexts(row[1..])
  }

  /** `'計' in ' '.join(...)` over the row's filled cells. */
  predicate TotalRow(row: Row) {
    '計' in Join(FilledTexts(row), " ")
  }

  lemma {:induction false} JoinHasChar(parts: seq<string>, c: char)
    requires c != ' '
    ensures c in Join(parts, " ") <==> exists k :: 0 <= k < |parts| && c in parts[k]
    decreases |parts|
  {
    if |parts| > 1 {
      JoinHasChar(parts[1..], c);
      assert Join(parts, " ") == parts[0] + " " + Join(parts[1..], " ");
      if exists k :: 0 <= k < |parts| && c in parts[k] {
        var k :| 0 <= k < |parts| && c in parts[k];
        if k > 0 { assert parts[1..][k - 1] == parts[k]; }
      }
    }
  }

  /** A cell holding a character other than whitespace is filled, so its text is among the filled texts. */
  lemma {:induction false} FilledTextsKeep(row: Row, i: nat, c: char)
    requires !IsSpace(c) && i < |row| && c in OrEmpty(row[i])
    ensures exists k :: 0 <= k < |FilledTexts(row)| && c in FilledTexts(row)[k]
    decreases i
  {
    var head := if HasText(row[0]) then [row[0].value] else [];
    var rest := FilledTexts(row[1..]);
    assert FilledTexts(row) == head + rest;
    if i == 0 {
      assert !Blank(row[0].value);
      assert (head + rest)[0] == row[0].value;
    } else {
      assert row[1..][i - 1] == row[i];
      FilledTextsKeep(row[1..], i - 1, c);
      var k :| 0 <= k < |rest| && c in rest[k];
      assert (head + rest)[|head| + k] == rest[k];
    }
  }

  /** Every filled text is the text of some cell of the row. */
  lemma {:induction false} FilledTextsFrom(row: Row, k: nat, c: char)
    requires k < |FilledTexts(row)| && c in FilledTexts(row)[k]
    ensures exists i :: 0 <= i < |row| && c in OrEmpty(row[i])
    decreases |row|
  {
    var head := if HasText(row[0]) then [row[0].value] else [];
    var rest := FilledTexts(row[1..]);
    assert FilledTexts(row) == head + rest;
    if k < |head| {
      assert c in OrEmpty(row[0]);
    } else {
      assert (head + rest)[k] == rest[k - |head|];
      FilledTextsFrom(row[1..], k - |head|, c);
      var i :| 0 <= i < |row[1..]| && c in OrEmpty(row[1..][i]);
      assert row[1..][i] == row[i + 1];
    }
  }

  lemma {:induction false} FilledTextsHaveChar(row: Row, c: char)
    requires !IsSpace(c)
    ensures (exists k :: 0 <= k < |FilledTexts(row)| && c in FilledTexts(row)[k])
        <==> exists i :: 0 <= i < |row| && c in OrEmpty(row[i])
  {
    if exists i :: 0 <= i < |row| && c in OrEmpty(row[i]) {
      var i :| 0 <= i < |row| && c in OrEmpty(row[i]);
      FilledTextsKeep(row, i, c);
    }
    if exists k :: 0 <= k < |FilledTexts(row)| && c in FilledTexts(row)[k] {
      var k :| 0 <= k < |FilledTexts(row)| && c in FilledTexts(row)[k];
      FilledTextsFrom(row, k, c);
    }
  }

  /** A row ends the sub-table at 計 exactly when one of its cells contains 計. */
  lemma {:induction false} TotalRowIff(row: Row)
    ensures TotalRow(row) <==> exists i :: 0 <= i < |row| && '計' in OrEmpty(row[i])
  {
    JoinHasChar(FilledTexts(row), '計');
    FilledTextsHaveChar(row, '計');
  }

  // ------------------------------------------------------------ data rows

  /** The row after the one read at `r`: two on when it spans. */
  function NextRow(sh: Sheet, r: nat, cols: Columns): (n: nat)
    ensures n > r
    ensures r < |sh.rows| ==> n <= |sh.rows|
  {
    if Spans(sh, r, cols) then r + 2 else r + 1
  }

  /** What `extract_subtable_data` collects from row `r` on. */
  function DataRows(sh: Sheet, r: nat, cols: Columns, reference: string): seq<DataRow>
    decreases |sh.rows| - r
  {
    if r >= |sh.rows| || TotalRow(sh.rows[r]) || RefCol(sh.rows[r]).Some? then []
    else
      var d := ReadAt(sh, r, cols, reference);
      (if Kept(d) then [d] else []) + DataRows(sh, NextRow(sh, r, cols), cols, reference)
  }

  /** Collection ends at the end of the sheet, at a 計 row and at the next reference. */
  lemma {:induction false} DataRowsStop(sh: Sheet, r: nat, cols: Columns, reference: string)
    requires r >= |sh.rows| || TotalRow(sh.rows[r]) || RefCol(sh.rows[r]).Some?
    ensures DataRows(sh, r, cols, reference) == []
  {
  }

  /** Any other row is read, kept when the header filter lets it through, and collection goes on after it. */
  lemma {:induction false} DataRowsGo(sh: Sheet, r: nat, cols: Columns, reference: string)
    requires r < |sh.rows| && !TotalRow(sh.rows[r]) && RefCol(sh.rows[r]).None?
    ensures var d := ReadAt(sh, r, cols, reference);
      DataRows(sh, r, cols, reference) == (if Kept(d) then [d] else []) + DataRows(sh, NextRow(sh, r, cols), cols, reference)
  {
  }

  /** No more rows are collected than there are rows left to read. */
  lemma {:induction false} DataRowsBound(sh: Sheet, r: nat, cols: Columns, reference: string)
    requires r <= |sh.rows|
    ensures |DataRows(sh, r, cols, reference)| <= |sh.rows| - r
    decreases |sh.rows| - r
  {
    if r < |sh.rows| && !TotalRow(sh.rows[r]) && RefCol(sh.rows[r]).None? {
      DataRowsGo(sh, r, cols, reference);
      DataRowsBound(sh, NextRow(sh, r, cols), cols, reference);
    } else {
      DataRowsStop(sh, r, cols, reference);
    }
  }

  /** A collected row that is not collected later is the row read at `r`, which the filter kept. */
  lemma {:induction false} DataRowsHead(sh: Sheet, r: nat, cols: Columns, reference: string, x: DataRow)
    requires r < |sh.rows| && !TotalRow(sh.rows[r]) && RefCol(sh.rows[r]).None?
    requires x in DataRows(sh, r, cols, reference) && x !in DataRows(sh, NextRow(sh, r, cols), cols, reference)
    ensures Kept(x) && x.reference == reference
  {
    DataRowsGo(sh, r, cols, reference);
    var d := ReadAt(sh, r, cols, reference);
    assert Kept(d) && x == d;
  }

  /** Every collected row is kept by the header filter and carries the sub-table's reference. */
  lemma {:induction false} DataRowsKept(sh: Sheet, r: nat, cols: Columns, reference: string, x: DataRow)
    requires x in DataRows(sh, r, cols, reference)
    ensures Kept(x) && x.reference == reference
    decreases |sh.rows| - r
  {
    if r < |sh.rows| && !TotalRow(sh.rows[r]) && RefCol(sh.rows[r]).None? {
      var next := NextRow(sh, r, cols);
      var d := ReadAt(sh, r, cols, reference);
      if x in DataRows(sh, next, cols, reference) {
        DataRowsKept(sh, next, cols, reference, x);
      } else {
        DataRowsHead(sh, r, cols, reference, x);
      }
    } else {
      DataRowsStop(sh, r, cols, reference);
    }
  }

  /** A row holding 計 in any cell ends the sub-table before it. */
  lemma {:induction false} TotalRowEnds(sh: Sheet, r: nat, i: nat, cols: Columns, reference: string)
    requires r < |sh.rows| && i < |sh.rows[r]| && '計' in OrEmpty(sh.rows[r][i])
    ensures DataRows(sh, r, cols, reference) == []
  {
    TotalRowIff(sh.rows[r]);
  }

  /** One row read: what `DataRows` adds for row `r` after what was collected before it. */
  lemma {:induction false} DataRowsStep(sh: Sheet, r: nat, cols: Columns, reference: string, before: seq<DataRow>, all: seq<DataRow>)
    requires r < |sh.rows| && !TotalRow(sh.rows[r]) && RefCol(sh.rows[r]).None?
    requires before + DataRows(sh, r, cols, reference) == all
    ensures var d := ReadAt(sh, r, cols, reference);
      (before + (if Kept(d) then [d] else [])) + DataRows(sh, NextRow(sh, r, cols), cols, reference) == all
  {
    var d := ReadAt(sh, r, cols, reference);
    var head := if Kept(d) then [d] else [];
    var rest := DataRows(sh, NextRow(sh, r, cols), cols, reference);
    assert DataRows(sh, r, cols, reference) == head + rest;
    ConcatAssoc(before, head, rest);
  }

  /**
   * `extract_subtable_data(df, header_row, column_positions, reference_number)`:
   * reads from the row after the header; a merge advances the cursor twice.
   */
  method ExtractSubtableData(sh: Sheet, headerRow: nat, cols: Columns, reference: string) returns (rows: seq<DataRow>)
    ensures rows == DataRows(sh, headerRow + 1, cols, reference)
  {
    rows := [];
    var current := headerRow + 1;
    ghost var all := DataRows(sh, headerRow + 1, cols, reference);
    while current < |sh.rows|
      invariant rows + DataRows(sh, current, cols, reference) == all
      decreases |sh.rows| - current
    {
      if TotalRow(sh.rows[current]) || RefCol(sh.rows[current]).Some? {
        assert rows + [] == rows;
        return;
      }
      var d := ReadAt(sh, current, cols, reference);
      DataRowsStep(sh, current, cols, reference, rows, all);
      if Kept(d) {
        rows := rows + [d];
      } else {
        assert rows + [] == rows;
      }
      var spans := Spans(sh, current, cols);
      ghost var next := NextRow(sh, current, cols);
      assert next == if spans then current + 2 else current + 1;
      if spans {
        current := current + 1;
      }
      current := current + 1;
      assert current == next;
    }
    assert rows + [] == rows;
  }

  // ----------------------------------------------------------- title items

  /**
   * The cells of row `r` from column `c` on that the title reader keeps
   * (`cell and str(cell).strip()`): text that is not blank, in a cell that
   * does not hold a zero number or boolean.
   */
  function TitleCells(row: Row, zero: (nat, nat) -> bool, r: nat, c: nat): seq<string>
    decreases |row| - c
  {
    if c >= |row| then []
    else (if HasText(row[c]) && !zero(r, c) then [row[c].value] else []) + TitleCells(row, zero, r, c + 1)
  }

  /** The cells the title reader keeps are never blank. */
  lemma {:induction false} TitleCellsFilled(row: Row, zero: (nat, nat) -> bool, r: nat, c: nat)
    ensures forall k :: 0 <= k < |TitleCells(row, zero, r, c)| ==> !Blank(TitleCells(row, zero, r, c)[k])
    decreases |row| - c
  {
    if c < |row| {
      TitleCellsFilled(row, zero, r, c + 1);
    }
  }

  /**
   * The title reader keeps a cell exactly when it has text and is not zero,
   * and keeps them in column order: with no zero cell it keeps what the
   * total-row test reads.
   */
  lemma {:induction false} TitleCellsNoZero(row: Row, zero: (nat, nat) -> bool, r: nat, c: nat)
    requires c <= |row|
    requires forall k :: c <= k < |row| ==> !zero(r, k)
    ensures TitleCells(row, zero, r, c) == FilledTexts(row[c..])
    decreases |row| - c
  {
    if c < |row| {
      TitleCellsNoZero(row, zero, r, c + 1);
      assert row[c..][1..] == row[c + 1..];
    }
  }

  /**
   * `extract_table_title_items_from_excel(df, reference_row, header_row)`: the
   * reference row itself carries the title when it has at least six kept
   * cells, the third containing 単位 and the fifth 単位数量.
   */
  function ExcelTitleItems(df: Table, zero: (nat, nat) -> bool, referenceRow: nat): (t: Option<TitleItems>)
    ensures t.Some? <==> (referenceRow < |df| && |TitleCells(df[referenceRow], zero, referenceRow, 0)| >= 6
      && Contains(TitleCells(df[referenceRow], zero, referenceRow, 0)[2], "単位")
      && Contains(TitleCells(df[referenceRow], zero, referenceRow, 0)[4], "単位数量"))
  {
    if referenceRow >= |df| then None
    else
      var cells := TitleCells(df[referenceRow], zero, referenceRow, 0);
      if |cells| >= 6 && Contains(cells[2], "単位") && Contains(cells[4], "単位数量") then
        Some(TitleItems(Strip(Strip(cells[0]) + " " + Strip(cells[1])), Strip(cells[3]), Strip(cells[5])))
      else None
  }

  lemma {:induction false} StripFilled(s: string)
    requires !Blank(s)
    ensures Strip(s) != [] && !IsSpace(Strip(s)[0]) && !IsSpace(Strip(s)[|Strip(s)| - 1])
  {
    StripEmptyIffBlank(s);
    StripShape(s);
  }

  /**
   * A title's item name is the reference cell and the next kept cell
   * joined by one space, and its unit and unit quantity are never empty.
   */
  lemma {:induction false} ExcelTitleItemsShape(df: Table, zero: (nat, nat) -> bool, referenceRow: nat)
    requires ExcelTitleItems(df, zero, referenceRow).Some?
    ensures var cells := TitleCells(df[referenceRow], zero, referenceRow, 0);
      var t := ExcelTitleItems(df, zero, referenceRow).value;
      t.itemName == Strip(cells[0]) + " " + Strip(cells[1]) && t.unit != [] && t.unitQuantity != []
  {
    var cells := TitleCells(df[referenceRow], zero, referenceRow, 0);
    TitleCellsFilled(df[referenceRow], zero, referenceRow, 0);
    StripFilled(cells[0]);
    StripFilled(cells[1]);
    StripFilled(cells[3]);
    StripFilled(cells[5]);
    var s := Strip(cells[0]) + " " + Strip(cells[1]);
    assert s[0] == Strip(cells[0])[0];
    assert s[|s| - 1] == Strip(cells[1])[|Strip(cells[1])| - 1];
    StripUnspaced(s);
  }

  /** The title reader keeps no more cells than the total-row test reads. */
  lemma {:induction false} TitleCellsFewer(row: Row, zero: (nat, nat) -> bool, r: nat, c: nat)
    requires c <= |row|
    ensures |TitleCells(row, zero, r, c)| <= |FilledTexts(row[c..])|
    decreases |row| - c
  {
    if c < |row| {
      TitleCellsFewer(row, zero, r, c + 1);
      assert row[c..][1..] == row[c + 1..];
    }
  }

  /** A text cell holding a zero number is one cell fewer for the title reader. */
  lemma {:induction false} TitleCellsDropZero(row: Row, zero: (nat, nat) -> bool, r: nat, c: nat, k: nat)
    requires c <= k < |row| && HasText(row[k]) && zero(r, k)
    ensures |TitleCells(row, zero, r, c)| < |FilledTexts(row[c..])|
    decreases |row| - c
  {
    assert row[c..][1..] == row[c + 1..];
    if c == k {
      TitleCellsFewer(row, zero, r, c + 1);
    } else {
      TitleCellsDropZero(row, zero, r, c + 1, k);
    }
  }

  /**
   * A reference row with at most six text cells, one of which holds a zero
   * number, gives no title: five cells or fewer are kept, not six.
   */
  lemma {:induction false} ZeroCellDropsTitle(df: Table, zero: (nat, nat) -> bool, r: nat, k: nat)
    requires r < |df| && |FilledTexts(df[r])| <= 6
    requires k < |df[r]| && HasText(df[r][k]) && zero(r, k)
    ensures ExcelTitleItems(df, zero, r) == None
  {
    TitleCellsDropZero(df[r], zero, r, 0, k);
    assert df[r][0..] == df[r];
  }

  /** `extract_unit_value(cell_text)`: the first word after the first 単位, or "". */
  function UnitValue(text: string): (r: string)
    ensures !Contains(text, "単位") ==> r == []
    ensures NoSpace(r)
  {
    WordAfter(text, "単位")
  }

  /** `extract_unit_quantity_value(cell_text)`: the first word after the first 単位数量, or "". */
  function UnitQuantityValue(text: string): (r: string)
    ensures !Contains(text, "単位数量") ==> r == []
    ensures NoSpace(r)
  {
    WordAfter(text, "単位数量")
  }

  // -------------------------------------------------------------- the sheet

  /** One extracted sub-table (`start_row` and `header_row` are 1-based; `total_rows` is `|rows|`). */
  datatype Subtable = Subtable(
    reference: string,
    sheet: string,
    startRow: nat,
    headerRow: nat,
    columns: Columns,
    rows: seq<DataRow>,
    title: Option<TitleItems>)

  /** The sub-table a reference at row `r`, column `c` opens: header two rows below it, data from the row after. */
  function OpenAt(sh: Sheet, sheet: string, r: nat, c: nat): (st: Subtable)
    requires r < |sh.rows| && c < |sh.rows[r]|
    ensures st.startRow == r + 1 && st.headerRow == r + 3 && st.sheet == sheet
    ensures st.reference == Strip(OrEmpty(sh.rows[r][c]))
  {
    var reference := Strip(OrEmpty(sh.rows[r][c]));
    var cols := HeaderAndColumns(r + 1).1;
    Subtable(reference, sheet, r + 1, r + 3, cols, DataRows(sh, r + 3, cols, reference), ExcelTitleItems(sh.rows, sh.zero, r))
  }

  /** `header_row + len(data_rows) + 3` with the 0-based header row: where the scan goes on after a sub-table. */
  function Resume(st: Subtable): nat {
    st.headerRow + |st.rows| + 2
  }

  /** What the cursor loop of `extract_subtables_from_excel_sheet` collects from row `r` on. */
  function SheetSubtables(sh: Sheet, sheet: string, r: nat): seq<Subtable>
    decreases |sh.rows| - r
  {
    if r >= |sh.rows| then []
    else
      match RefCol(sh.rows[r])
      case None => SheetSubtables(sh, sheet, r + 1)
      case Some(c) =>
        var st := OpenAt(sh, sheet, r, c);
        (if st.rows != [] then [st] else []) + SheetSubtables(sh, sheet, Resume(st))
  }

  /** A sub-table opened after row `r` (1-based) of `sheet`, with data rows that all carry its reference. */
  predicate FoundAfter(st: Subtable, sheet: string, r: nat) {
    st.startRow > r && st.rows != [] && st.headerRow == st.startRow + 2 && st.sheet == sheet
    && forall j :: 0 <= j < |st.rows| ==> st.rows[j].reference == st.reference
  }

  /** Every sub-table in `ts` was found after row `r` of `sheet`. */
  predicate AllFoundAfter(ts: seq<Subtable>, sheet: string, r: nat) {
    forall k :: 0 <= k < |ts| ==> FoundAfter(ts[k], sheet, r)
  }

  lemma {:induction false} OpenAtFound(sh: Sheet, sheet: string, r: nat, c: nat)
    requires r < |sh.rows| && c < |sh.rows[r]|
    requires OpenAt(sh, sheet, r, c).rows != []
    ensures FoundAfter(OpenAt(sh, sheet, r, c), sheet, r)
  {
    var st := OpenAt(sh, sheet, r, c);
    forall j | 0 <= j < |st.rows| ensures st.rows[j].reference == st.reference {
      DataRowsKept(sh, r + 3, st.columns, st.reference, st.rows[j]);
    }
  }

  /** One row scanned: what `SheetSubtables` adds at row `r` after what was collected before it. */
  lemma {:induction false} SheetStep(sh: Sheet, sheet: string, r: nat, c: nat, before: seq<Subtable>, all: seq<Subtable>)
    requires r < |sh.rows| && RefCol(sh.rows[r]) == Some(c)
    requires before + SheetSubtables(sh, sheet, r) == all
    ensures var st := OpenAt(sh, sheet, r, c);
      (before + (if st.rows != [] then [st] else [])) + SheetSubtables(sh, sheet, Resume(st)) == all
  {
    var st := OpenAt(sh, sheet, r, c);
    var head := if st.rows != [] then [st] else [];
    assert SheetSubtables(sh, sheet, r) == head + SheetSubtables(sh, sheet, Resume(st));
    ConcatAssoc(before, head, SheetSubtables(sh, sheet, Resume(st)));
  }

  /** Each sub-table found from row `r` on starts after `r`, has data rows, and its rows carry its reference. */
  lemma {:induction false} SheetSubtablesShape(sh: Sheet, sheet: string, r: nat)
    ensures AllFoundAfter(SheetSubtables(sh, sheet, r), sheet, r)
    decreases |sh.rows| - r
  {
    if r < |sh.rows| {
      match RefCol(sh.rows[r])
      case None =>
        SheetSubtablesShape(sh, sheet, r + 1);
        ShapeSkip(sh, sheet, r);
      case Some(c) =>
        SheetSubtablesShape(sh, sheet, Resume(OpenAt(sh, sheet, r, c)));
        ShapeOpen(sh, sheet, r, c);
    }
  }

  /** A row without a reference: what is found after it was found after `r`. */
  lemma {:induction false} ShapeSkip(sh: Sheet, sheet: string, r: nat)
    requires r < |sh.rows| && RefCol(sh.rows[r]).None?
    requires AllFoundAfter(SheetSubtables(sh, sheet, r + 1), sheet, r + 1)
    ensures AllFoundAfter(SheetSubtables(sh, sheet, r), sheet, r)
  {
    assert SheetSubtables(sh, sheet, r) == SheetSubtables(sh, sheet, r + 1);
    FoundAfterEarlier(SheetSubtables(sh, sheet, r + 1), sheet, r + 1, r);
  }

  /** Found after a later row means found after an earlier one. */
  lemma {:induction false} FoundAfterEarlier(ts: seq<Subtable>, sheet: string, later: nat, r: nat)
    requires r <= later && AllFoundAfter(ts, sheet, later)
    ensures AllFoundAfter(ts, sheet, r)
  {
  }

  /** A reference row: the sub-table opened there, when kept, and those found after it were found after `r`. */
  lemma {:induction false} ShapeOpen(sh: Sheet, sheet: string, r: nat, c: nat)
    requires r < |sh.rows| && RefCol(sh.rows[r]) == Some(c)
    requires AllFoundAfter(SheetSubtables(sh, sheet, Resume(OpenAt(sh, sheet, r, c))), sheet, Resume(OpenAt(sh, sheet, r, c)))
    ensures AllFoundAfter(SheetSubtables(sh, sheet, r), sheet, r)
  {
    var st := OpenAt(sh, sheet, r, c);
    SheetStep(sh, sheet, r, c, [], SheetSubtables(sh, sheet, r));
    if st.rows != [] {
      OpenAtFound(sh, sheet, r, c);
    }
    FoundAfterJoin(SheetSubtables(sh, sheet, r), st, SheetSubtables(sh, sheet, Resume(st)), sheet, r, Resume(st));
  }

  /** The sub-table opened at row `r`, when kept, and those found after a later row were all found after `r`. */
  lemma {:induction false} FoundAfterJoin(all: seq<Subtable>, st: Subtable, rest: seq<Subtable>, sheet: string, r: nat, later: nat)
    requires [] + (if st.rows != [] then [st] else []) + rest == all
    requires st.rows != [] ==> FoundAfter(st, sheet, r)
    requires r <= later && AllFoundAfter(rest, sheet, later)
    ensures AllFoundAfter(all, sheet, r)
  {
    var head := if st.rows != [] then [st] else [];
    assert [] + head == head;
    FoundAfterAll(rest, head, sheet, later, r);
  }

  /** Sub-tables found after a later row were found after `r` too, and so were the ones in `head`. */
  lemma {:induction false} FoundAfterAll(rest: seq<Subtable>, head: seq<Subtable>, sheet: string, later: nat, r: nat)
    requires r <= later
    requires AllFoundAfter(rest, sheet, later)
    requires AllFoundAfter(head, sheet, r)
    ensures AllFoundAfter(head + rest, sheet, r)
  {
    forall k | 0 <= k < |head + rest| ensures FoundAfter((head + rest)[k], sheet, r) {
      if k >= |head| { assert (head + rest)[k] == rest[k - |head|]; }
    }
  }

  /** The column loop of one sheet row: the first of columns 0-3 with a reference pattern. */
  method FindRefColumn(row: Row) returns (found: Option<nat>)
    ensures found == RefCol(row)
  {
    var c := 0;
    while c < |row| && c <= 3
      invariant c <= |row| && c <= 4
      invariant RefColFrom(row, c) == RefColFrom(row, 0)
      decreases |row| - c
    {
      if HasRefPattern(OrEmpty(row[c])) {
        return Some(c);
      }
      c := c + 1;
    }
    return None;
  }

  /** A row without a reference adds nothing; the scan moves to the next row. */
  lemma {:induction false} SheetSkip(sh: Sheet, sheet: string, r: nat, before: seq<Subtable>, all: seq<Subtable>)
    requires r < |sh.rows| && RefCol(sh.rows[r]).None?
    requires before + SheetSubtables(sh, sheet, r) == all
    ensures before + SheetSubtables(sh, sheet, r + 1) == all
  {
  }

  /** Past the last row nothing more is found. */
  lemma {:induction false} SheetDone(sh: Sheet, sheet: string, r: nat, before: seq<Subtable>, all: seq<Subtable>)
    requires r >= |sh.rows| && before + SheetSubtables(sh, sheet, r) == all
    ensures before == all
  {
    assert before + [] == before;
  }

  /** The body of the sheet loop at a reference row: opens the sub-table, keeps it when it has rows, and resumes after it. */
  method ReadSubtableAt(sh: Sheet, sheet: string, current: nat, c: nat, subtables: seq<Subtable>, ghost all: seq<Subtable>)
    returns (subtables': seq<Subtable>, next: nat)
    requires current < |sh.rows| && RefCol(sh.rows[current]) == Some(c)
    requires subtables + SheetSubtables(sh, sheet, current) == all
    ensures next > current
    ensures subtables' + SheetSubtables(sh, sheet, next) == all
  {
    var reference := Strip(OrEmpty(sh.rows[current][c]));
    var (header, cols) := HeaderAndColumns(current + 1);
    var title := ExcelTitleItems(sh.rows, sh.zero, current);
    var data := ExtractSubtableData(sh, header, cols, reference);
    var st := Subtable(reference, sheet, current + 1, header + 1, cols, data, title);
    assert st == OpenAt(sh, sheet, current, c);
    SheetStep(sh, sheet, current, c, subtables, all);
    if data != [] {
      subtables' := subtables + [st];
    } else {
      subtables' := subtables;
      assert subtables + [] == subtables;
    }
    next := header + |data| + 3;
    assert next == Resume(st);
  }

  /** `extract_subtables_from_excel_sheet` on an already loaded sheet. */
  method ExtractSheet(sh: Sheet, sheet: string) returns (subtables: seq<Subtable>)
    ensures subtables == SheetSubtables(sh, sheet, 0)
  {
    subtables := [];
    var current := 0;
    ghost var all := SheetSubtables(sh, sheet, 0);
    EmptyConcat(all);
    while current < |sh.rows|
      invariant subtables + SheetSubtables(sh, sheet, current) == all
      decreases |sh.rows| - current
    {
      var found := FindRefColumn(sh.rows[current]);
      match found
      case None =>
        SheetSkip(sh, sheet, current, subtables, all);
        current := current + 1;
      case Some(c) =>
        subtables, current := ReadSubtableAt(sh, sheet, current, c, subtables, all);
    }
    SheetDone(sh, sheet, current, subtables, all);
  }
}

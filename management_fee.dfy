/**
 * `server/services/management_fee_extractor.py`: the rows of a PDF table
 * whose 摘要 (notes) cell says `管理費区分:<category>` with a category other
 * than zero. The table's header row is found by classifying header cells
 * into columns, the table's reference number (`内4号`, `単3号`, …) is the
 * first one any row shows, and each qualifying row below the header becomes
 * one management-fee item.
 */
module ManagementFees {
  import opened Wrappers
  import opened Text
  import opened Grid
  import opened RefSearch

  // ------------------------------------------------------------ the header

  /** The columns `column_mapping` can name. */
  datatype FeeColumn = NameSpec | Unit | Quantity | UnitPrice | Amount | Notes

  type ColumnMap = map<FeeColumn, nat>

  /** `.replace('　', ' ').replace('：', ':')`: ideographic space and full-width colon to ASCII. */
  function Narrow(s: string): string {
    ReplaceAll(ReplaceAll(s, "\U{3000}", " "), "\U{FF1A}", ":")
  }

  /**
   * The column a header cell names, checked in the source's order: 名称 with
   * 規格 or ・, then 単位, 数量, 単価, 金額 and 摘要, each also found when the
   * stripped cell spells it with an ideographic space (`単　位`).
   */
  function HeaderColumn(text: string): Option<FeeColumn> {
    var n := Narrow(text);
    if (Contains(n, "名称") && (Contains(n, "規格") || Contains(n, "・"))) || Contains(n, "名称・規格") then Some(NameSpec)
    else if Contains(n, "単位") || Contains(text, "単\U{3000}位") then Some(Unit)
    else if Contains(n, "数量") || Contains(text, "数\U{3000}量") then Some(Quantity)
    else if Contains(n, "単価") || Contains(text, "単\U{3000}価") then Some(UnitPrice)
    else if Contains(n, "金額") || Contains(text, "金\U{3000}額") then Some(Amount)
    else if Contains(n, "摘要") || Contains(text, "摘\U{3000}要") then Some(Notes)
    else None
  }

  /** The column a cell names; an empty or missing cell names none (`if not cell: continue`). */
  function CellColumn(c: Cell): Option<FeeColumn> {
    if Truthy(c) then HeaderColumn(Strip(c.value)) else None
  }

  /**
   * A table read through three cell readers: `text(r, c)` is
   * `str(cell).strip()`, `column(r, c)` the column the cell names and
   * `category(r, c)` the `管理費区分` category its narrowed text carries. Functions over the rows
   * consult the readers instead of unfolding the text operations;
   * `SheetOf` defines them from the table.
   */
  datatype FeeSheet = FeeSheet(
    rows: Table,
    text: (nat, nat) -> string,
    column: (nat, nat) -> Option<FeeColumn>,
    category: (nat, nat) -> Option<string>)

  function SheetOf(table: Table): (sh: FeeSheet)
    ensures sh.rows == table
  {
    FeeSheet(table,
      (r: nat, c: nat) => if r < |table| && c < |table[r]| then Strip(Str(table[r][c])) else [],
      (r: nat, c: nat) => if r < |table| && c < |table[r]| then CellColumn(table[r][c]) else None,
      (r: nat, c: nat) => if r < |table| && c < |table[r]| then FeeSearch(Narrow(Strip(Str(table[r][c]))), 0) else None)
  }

  /**
   * The inner loop over the cells `c..` of row `r`: every header cell sets
   * its column's entry, later cells overriding earlier ones; `found` records
   * whether any cell did.
   */
  function AddColumns(sh: FeeSheet, r: nat, c: nat, m: ColumnMap, found: bool): (res: (ColumnMap, bool))
    requires r < |sh.rows|
    ensures m.Keys <= res.0.Keys
    ensures res.1 <==> found || exists k :: c <= k < |sh.rows[r]| && sh.column(r, k).Some?
    ensures forall col :: col in res.0 ==>
      (col in m && res.0[col] == m[col]) || (c <= res.0[col] < |sh.rows[r]| && sh.column(r, res.0[col]) == Some(col))
    decreases |sh.rows[r]| - c
  {
    if c >= |sh.rows[r]| then (m, found)
    else match sh.column(r, c)
      case Some(col) => AddColumns(sh, r, c + 1, m[col := c], true)
      case None => AddColumns(sh, r, c + 1, m, found)
  }

  /**
   * `_find_header_and_columns` from row `r` with the mapping built so far:
   * the first non-empty row that itself has a header cell and brings the
   * accumulated mapping to three columns or more, with that mapping; else
   * `(None, {})`.
   */
  function HeaderFrom(sh: FeeSheet, r: nat, m: ColumnMap): (h: (Option<nat>, ColumnMap))
    ensures h.0.Some? ==> r <= h.0.value < |sh.rows| && |h.1| >= 3
    ensures h.0.None? ==> h.1 == map[]
    decreases |sh.rows| - r
  {
    if r >= |sh.rows| then (None, map[])
    else if sh.rows[r] == [] then HeaderFrom(sh, r + 1, m)
    else
      var res := AddColumns(sh, r, 0, m, false);
      if res.1 && |res.0| >= 3 then (Some(r), res.0) else HeaderFrom(sh, r + 1, res.0)
  }

  function HeaderAndColumns(table: Table): (Option<nat>, ColumnMap) {
    HeaderFrom(SheetOf(table), 0, map[])
  }

  /** Some row `< r` has, at cell `c`, a header cell naming `col`. */
  ghost predicate Named(sh: FeeSheet, r: nat, col: FeeColumn, c: nat)
    decreases r
  {
    r > 0 && ((r - 1 < |sh.rows| && c < |sh.rows[r - 1]| && sh.column(r - 1, c) == Some(col)) || Named(sh, r - 1, col, c))
  }

  lemma {:induction false} NamedWitness(sh: FeeSheet, r: nat, col: FeeColumn, c: nat)
    requires Named(sh, r, col, c)
    ensures exists k :: 0 <= k < r && k < |sh.rows| && c < |sh.rows[k]| && sh.column(k, c) == Some(col)
    decreases r
  {
    if !(r - 1 < |sh.rows| && c < |sh.rows[r - 1]| && sh.column(r - 1, c) == Some(col)) {
      NamedWitness(sh, r - 1, col, c);
    }
  }

  /** Every entry of the mapping points at a cell, in some row `< r`, that names that column. */
  ghost predicate MapSound(sh: FeeSheet, r: nat, m: ColumnMap) {
    forall col :: col in m ==> Named(sh, r, col, m[col])
  }

  /** One row's cells keep the mapping sound one row further down. */
  lemma {:induction false} AddColumnsSound(sh: FeeSheet, r: nat, m: ColumnMap)
    requires r < |sh.rows| && MapSound(sh, r, m)
    ensures MapSound(sh, r + 1, AddColumns(sh, r, 0, m, false).0)
  {
    var m' := AddColumns(sh, r, 0, m, false).0;
    forall col | col in m'
      ensures Named(sh, r + 1, col, m'[col])
    {
      if col in m && m'[col] == m[col] {
        assert Named(sh, r, col, m[col]);
      }
    }
  }

  /** A header row found has a header cell, and the mapping points at cells at or above it. */
  ghost predicate HeaderSound(sh: FeeSheet, h: (Option<nat>, ColumnMap)) {
    h.0.Some? ==> (h.0.value < |sh.rows| && MapSound(sh, h.0.value + 1, h.1)
      && exists c :: 0 <= c < |sh.rows[h.0.value]| && sh.column(h.0.value, c).Some?)
  }

  /** The mapping found points every column at a header cell of that column, at or above the header row, and the header row has one. */
  lemma {:induction false} HeaderFromSound(sh: FeeSheet, r: nat, m: ColumnMap)
    requires MapSound(sh, r, m)
    ensures HeaderSound(sh, HeaderFrom(sh, r, m))
    decreases |sh.rows| - r
  {
    if r < |sh.rows| {
      if sh.rows[r] == [] {
        MapSoundWiden(sh, r, m);
        HeaderFromSound(sh, r + 1, m);
      } else {
        var res := AddColumns(sh, r, 0, m, false);
        AddColumnsSound(sh, r, m);
        if !(res.1 && |res.0| >= 3) {
          HeaderFromSound(sh, r + 1, res.0);
        }
      }
    }
  }

  lemma {:induction false} MapSoundWiden(sh: FeeSheet, r: nat, m: ColumnMap)
    requires MapSound(sh, r, m)
    ensures MapSound(sh, r + 1, m)
  {
    forall col | col in m
      ensures Named(sh, r + 1, col, m[col])
    {
    }
  }

  /**
   * `_find_header_and_columns(table)`: the header row has a header cell, the
   * mapping has at least three columns, and each column points at a cell
   * naming it in a row at or above the header row.
   */
  lemma {:induction false} HeaderAndColumnsSound(sh: FeeSheet)
    ensures var h := HeaderFrom(sh, 0, map[]);
      h.0.Some? ==> (h.0.value < |sh.rows| && |h.1| >= 3
        && (forall col :: col in h.1 ==> exists k :: 0 <= k <= h.0.value && h.1[col] < |sh.rows[k]| && sh.column(k, h.1[col]) == Some(col))
        && exists c :: 0 <= c < |sh.rows[h.0.value]| && sh.column(h.0.value, c).Some?)
  {
    HeaderFromSound(sh, 0, map[]);
    var h := HeaderFrom(sh, 0, map[]);
    if h.0.Some? {
      forall col | col in h.1
        ensures exists k :: 0 <= k <= h.0.value && h.1[col] < |sh.rows[k]| && sh.column(k, h.1[col]) == Some(col)
      {
        NamedWitness(sh, h.0.value + 1, col, h.1[col]);
      }
    }
  }

  /** The inner loop of `_find_header_and_columns` over the cells of row `r`. */
  method AddRowColumns(sh: FeeSheet, r: nat, m: ColumnMap) returns (m': ColumnMap, found: bool)
    requires r < |sh.rows|
    ensures (m', found) == AddColumns(sh, r, 0, m, false)
  {
    m', found := m, false;
    var c := 0;
    while c < |sh.rows[r]|
      invariant c <= |sh.rows[r]|
      invariant AddColumns(sh, r, c, m', found) == AddColumns(sh, r, 0, m, false)
      decreases |sh.rows[r]| - c
    {
      var col := sh.column(r, c);
      if col.Some? {
        m' := m'[col.value := c];
        found := true;
      }
      c := c + 1;
    }
  }

  /** `_find_header_and_columns`: the outer loop over the rows, carrying `column_mapping`. */
  method FindHeaderAndColumns(sh: FeeSheet) returns (header: Option<nat>, mapping: ColumnMap)
    ensures (header, mapping) == HeaderFrom(sh, 0, map[])
  {
    mapping := map[];
    var r := 0;
    while r < |sh.rows|
      invariant r <= |sh.rows|
      invariant HeaderFrom(sh, r, mapping) == HeaderFrom(sh, 0, map[])
      decreases |sh.rows| - r
    {
      if sh.rows[r] != [] {
        var found;
        mapping, found := AddRowColumns(sh, r, mapping);
        if found && |mapping| >= 3 {
          return Some(r), mapping;
        }
      }
      r := r + 1;
    }
    return None, map[];
  }

  // ------------------------------------------------------------ references

  /**
   * `_find_reference_in_row(row)`: the first `([一-龯々]+)\s*(\d+)\s*号`
   * match in the space-joined row, with the gaps removed.
   */
  function RowReference(row: Row): (r: Option<string>)
    ensures r.Some? ==> |r.value| >= 3 && r.value[|r.value| - 1] == RefMark && NoSpace(r.value)
  {
    if row == [] then None
    else
      var text := RowText(row);
      match Search(text, 0, Loose)
      case Some(m) =>
        CleanRefShape(text, m, Loose);
        Some(CleanRef(text, m))
      case None => None
  }

  /** The reference of the first row, from `r` on, that shows one. */
  function FirstReference(table: Table, r: nat): (ref: Option<string>)
    ensures ref.Some? ==> exists k :: r <= k < |table| && RowReference(table[k]) == ref
    ensures ref.None? ==> forall k :: r <= k < |table| ==> RowReference(table[k]).None?
    decreases |table| - r
  {
    if r >= |table| then None
    else if RowReference(table[r]).Some? then RowReference(table[r])
    else FirstReference(table, r + 1)
  }

  /** The loop of `_extract_management_fee_from_table` that stops at the first row with a reference. */
  method FindTableReference(table: Table) returns (ref: Option<string>)
    ensures ref == FirstReference(table, 0)
  {
    var r := 0;
    while r < |table|
      invariant r <= |table|
      invariant FirstReference(table, r) == FirstReference(table, 0)
      decreases |table| - r
    {
      if table[r] != [] {
        var found := RowReference(table[r]);
        if found.Some? {
          return found;
        }
      }
      r := r + 1;
    }
    return None;
  }

  // --------------------------------------------------------------- the rows

  const FeeLabel := "管理費区分"

  /** The end of the run of non-whitespace characters from `i` (`[^\s]+` taken greedily). */
  function NonSpaceEnd(s: string, i: nat): (j: nat)
    requires i <= |s|
    ensures i <= j <= |s|
    ensures forall k :: i <= k < j ==> !IsSpace(s[k])
    ensures j < |s| ==> IsSpace(s[j])
    decreases |s| - i
  {
    if i < |s| && !IsSpace(s[i]) then NonSpaceEnd(s, i + 1) else i
  }

  /** `管理費区分\s*:\s*([^\s]+)` matched at position `i`: the group. */
  function FeeAt(t: string, i: nat): (v: Option<string>)
    requires i <= |t|
    ensures v.Some? ==> v.value != [] && NoSpace(v.value)
  {
    if i + |FeeLabel| <= |t| && t[i..i + |FeeLabel|] == FeeLabel then
      var a := SpaceEnd(t, i + |FeeLabel|);
      if a < |t| && t[a] == ':' then
        var b := SpaceEnd(t, a + 1);
        var e := NonSpaceEnd(t, b);
        if b < e then Some(t[b..e]) else None
      else None
    else None
  }

  /** `re.search` of that pattern from `i`: the group of the leftmost match. */
  function FeeSearch(t: string, i: nat): (v: Option<string>)
    requires i <= |t|
    ensures v.Some? ==> v.value != [] && NoSpace(v.value)
    ensures v.Some? <==> exists k :: i <= k <= |t| && FeeAt(t, k).Some?
    decreases |t| - i
  {
    if FeeAt(t, i).Some? then FeeAt(t, i)
    else if i == |t| then None
    else
      var v := FeeSearch(t, i + 1);
      assert forall k :: i <= k <= |t| && FeeAt(t, k).Some? ==> k == i || i + 1 <= k;
      v
  }

  /** A notes text without the label has no category. */
  lemma {:induction false} FeeSearchNeedsLabel(t: string)
    requires FeeSearch(t, 0).Some?
    ensures Contains(t, FeeLabel)
  {
    var k :| 0 <= k <= |t| && FeeAt(t, k).Some?;
    ContainsAt(t, FeeLabel, k);
  }

  /** The categories that count as zero: exactly one of `0 ０ O Ｏ o ｏ`. */
  predicate IsZeroToken(v: string) {
    v == "0" || v == "\U{FF10}" || v == "O" || v == "\U{FF2F}" || v == "o" || v == "\U{FF4F}"
  }

  /** The management-fee item of one row (its `raw_fields` repeat the same six texts). */
  datatype FeeItem = FeeItem(
    itemName: string, unit: string, quantity: string, unitPrice: string, amount: string,
    category: string, reference: string, notes: string, page: int, rowNumber: nat)

  /** `str(row[col]).strip()` when the column is mapped and inside row `r`, else "". */
  function FieldAt(sh: FeeSheet, r: nat, m: ColumnMap, col: FeeColumn): string
    requires r < |sh.rows|
  {
    if col in m && m[col] < |sh.rows[r]| then sh.text(r, m[col]) else []
  }

  /** `reference_number or 'Unknown'` */
  function ReferenceOr(ref: Option<string>): string {
    if ref.Some? && ref.value != [] then ref.value else "Unknown"
  }

  /** The category the notes cell of row `r` carries, narrowed, if any. */
  function RowCategory(sh: FeeSheet, r: nat, m: ColumnMap): Option<string>
    requires r < |sh.rows|
  {
    if sh.rows[r] == [] || Notes !in m || m[Notes] >= |sh.rows[r]| then None
    else sh.category(r, m[Notes])
  }

  /**
   * `_extract_management_fee_row(row, column_mapping, page_num, row_idx,
   * reference_number)`: a row whose notes cell, stripped and narrowed, has a
   * `管理費区分:` category that is not a zero token. (Of the five patterns the
   * source tries, the two with a full-width colon can never match the
   * narrowed text and the other three are the same pattern.)
   */
  function FeeRow(sh: FeeSheet, r: nat, m: ColumnMap, page: int, ref: Option<string>): (it: Option<FeeItem>)
    requires r < |sh.rows|
    ensures it.Some? <==> (RowCategory(sh, r, m).Some? && !IsZeroToken(RowCategory(sh, r, m).value))
    ensures it.Some? ==> it.value.category == RowCategory(sh, r, m).value && it.value.notes == sh.text(r, m[Notes])
    ensures it.Some? ==> it.value.rowNumber == r + 1 && it.value.page == page && it.value.reference == ReferenceOr(ref)
  {
    match RowCategory(sh, r, m)
    case None => None
    case Some(v) =>
      if IsZeroToken(v) then None
      else Some(FeeItem(FieldAt(sh, r, m, NameSpec), FieldAt(sh, r, m, Unit), FieldAt(sh, r, m, Quantity),
                        FieldAt(sh, r, m, UnitPrice), FieldAt(sh, r, m, Amount), v, ReferenceOr(ref),
                        sh.text(r, m[Notes]), page, r + 1))
  }

  /** In a table, a qualifying row's category is a non-empty run without whitespace, read after the label in its notes. */
  lemma {:induction false} FeeRowCategory(table: Table, r: nat, m: ColumnMap, page: int, ref: Option<string>)
    requires r < |table| && FeeRow(SheetOf(table), r, m, page, ref).Some?
    ensures var it := FeeRow(SheetOf(table), r, m, page, ref).value;
      it.category != [] && NoSpace(it.category) && !IsZeroToken(it.category)
      && it.notes == Strip(Str(table[r][m[Notes]])) && Contains(Narrow(it.notes), FeeLabel)
  {
    FeeSearchNeedsLabel(Narrow(Strip(Str(table[r][m[Notes]]))));
  }

  /** The items of the rows `r..` of the table, in row order. */
  function FeeRows(sh: FeeSheet, m: ColumnMap, page: int, ref: Option<string>, r: nat): seq<FeeItem>
    decreases |sh.rows| - r
  {
    if r >= |sh.rows| then []
    else
      var rest := FeeRows(sh, m, page, ref, r + 1);
      match FeeRow(sh, r, m, page, ref)
      case Some(it) => [it] + rest
      case None => rest
  }

  /** `it` is the item of a qualifying row at or after row `r`, numbered from 1. */
  predicate RowGood(sh: FeeSheet, m: ColumnMap, page: int, ref: Option<string>, it: FeeItem, r: nat) {
    r < it.rowNumber <= |sh.rows| && FeeRow(sh, it.rowNumber - 1, m, page, ref) == Some(it)
  }

  predicate AllRowsGood(sh: FeeSheet, m: ColumnMap, page: int, ref: Option<string>, items: seq<FeeItem>, r: nat) {
    forall i :: 0 <= i < |items| ==> RowGood(sh, m, page, ref, items[i], r)
  }

  /** Row numbers strictly increase along the items. */
  predicate Increasing(items: seq<FeeItem>) {
    forall i, j :: 0 <= i < j < |items| ==> items[i].rowNumber < items[j].rowNumber
  }

  lemma {:induction false} RowsGoodCons(sh: FeeSheet, m: ColumnMap, page: int, ref: Option<string>, it: FeeItem, rest: seq<FeeItem>, r: nat)
    requires RowGood(sh, m, page, ref, it, r) && it.rowNumber == r + 1
    requires AllRowsGood(sh, m, page, ref, rest, r + 1) && Increasing(rest)
    ensures AllRowsGood(sh, m, page, ref, [it] + rest, r) && Increasing([it] + rest)
  {
    var all := [it] + rest;
    forall i | 0 <= i < |all| ensures RowGood(sh, m, page, ref, all[i], r) {
      if i > 0 { assert all[i] == rest[i - 1]; }
    }
    forall i, j | 0 <= i < j < |all| ensures all[i].rowNumber < all[j].rowNumber {
      assert all[j] == rest[j - 1];
      if i > 0 { assert all[i] == rest[i - 1]; }
    }
  }

  lemma {:induction false} RowsGoodWiden(sh: FeeSheet, m: ColumnMap, page: int, ref: Option<string>, items: seq<FeeItem>, r: nat)
    requires AllRowsGood(sh, m, page, ref, items, r + 1)
    ensures AllRowsGood(sh, m, page, ref, items, r)
  {
    forall i | 0 <= i < |items| ensures RowGood(sh, m, page, ref, items[i], r) {
      assert RowGood(sh, m, page, ref, items[i], r + 1);
    }
  }

  /** Each item comes from a qualifying row `>= r`, with that row's number, and row numbers increase. */
  lemma {:induction false} FeeRowsSound(sh: FeeSheet, m: ColumnMap, page: int, ref: Option<string>, r: nat)
    ensures AllRowsGood(sh, m, page, ref, FeeRows(sh, m, page, ref, r), r)
    ensures Increasing(FeeRows(sh, m, page, ref, r))
    decreases |sh.rows| - r
  {
    if r < |sh.rows| {
      var rest := FeeRows(sh, m, page, ref, r + 1);
      FeeRowsSound(sh, m, page, ref, r + 1);
      match FeeRow(sh, r, m, page, ref)
      case Some(it) =>
        assert FeeRows(sh, m, page, ref, r) == [it] + rest;
        RowsGoodCons(sh, m, page, ref, it, rest, r);
      case None =>
        assert FeeRows(sh, m, page, ref, r) == rest;
        RowsGoodWiden(sh, m, page, ref, rest, r);
    }
  }

  /** A row is skipped only when it does not qualify: every qualifying row from `r` on has its item. */
  lemma {:induction false} FeeRowsComplete(sh: FeeSheet, m: ColumnMap, page: int, ref: Option<string>, r: nat, k: nat)
    requires r <= k < |sh.rows| && FeeRow(sh, k, m, page, ref).Some?
    ensures FeeRow(sh, k, m, page, ref).value in FeeRows(sh, m, page, ref, r)
    decreases k - r
  {
    var rest := FeeRows(sh, m, page, ref, r + 1);
    if r < k {
      FeeRowsComplete(sh, m, page, ref, r + 1, k);
      assert FeeRows(sh, m, page, ref, r) == rest || FeeRows(sh, m, page, ref, r) == [FeeRow(sh, r, m, page, ref).value] + rest;
    } else {
      assert FeeRows(sh, m, page, ref, r) == [FeeRow(sh, r, m, page, ref).value] + rest;
    }
  }

  /**
   * `_extract_management_fee_from_table` given the table's reference: no
   * items without a header; otherwise the items of the rows below the
   * header.
   */
  function SheetFees(sh: FeeSheet, page: int, ref: Option<string>): seq<FeeItem> {
    var h := HeaderFrom(sh, 0, map[]);
    if h.0.None? || h.1 == map[] then [] else FeeRows(sh, h.1, page, ref, h.0.value + 1)
  }

  /** `_extract_management_fee_from_table(table, page_num, table_idx)`, with the table's first reference. */
  function ManagementFeeFromTable(table: Table, page: int): seq<FeeItem> {
    SheetFees(SheetOf(table), page, FirstReference(table, 0))
  }

  /**
   * The items of a table come from the rows below its header, in row order,
   * each from a qualifying row, and all with the same reference: the table's
   * (for `ManagementFeeFromTable`, the first one any row shows), or "Unknown".
   */
  lemma {:induction false} SheetFeesSound(sh: FeeSheet, page: int, ref: Option<string>)
    ensures var items := SheetFees(sh, page, ref);
      var h := HeaderFrom(sh, 0, map[]);
      && (h.0.None? ==> items == [])
      && (forall i :: 0 <= i < |items| ==>
            (h.0.Some? && h.0.value + 1 < items[i].rowNumber <= |sh.rows|
             && FeeRow(sh, items[i].rowNumber - 1, h.1, page, ref) == Some(items[i])
             && items[i].reference == ReferenceOr(ref) && items[i].page == page))
      && Increasing(items)
  {
    var h := HeaderFrom(sh, 0, map[]);
    if h.0.Some? {
      assert h.1 != map[] by { assert |h.1| >= 3; }
      var items := SheetFees(sh, page, ref);
      assert items == FeeRows(sh, h.1, page, ref, h.0.value + 1);
      FeeRowsSound(sh, h.1, page, ref, h.0.value + 1);
      FeeRowsTagged(sh, h.1, page, ref, h.0.value + 1);
      forall i | 0 <= i < |items|
        ensures h.0.value + 1 < items[i].rowNumber <= |sh.rows|
        ensures FeeRow(sh, items[i].rowNumber - 1, h.1, page, ref) == Some(items[i])
      {
        assert RowGood(sh, h.1, page, ref, items[i], h.0.value + 1);
      }
    } else {
      assert SheetFees(sh, page, ref) == [];
    }
  }

  /** Every item of the rows `r..` carries the page and the reference it was read with. */
  lemma {:induction false} FeeRowsTagged(sh: FeeSheet, m: ColumnMap, page: int, ref: Option<string>, r: nat)
    ensures var items := FeeRows(sh, m, page, ref, r);
      forall i :: 0 <= i < |items| ==> items[i].reference == ReferenceOr(ref) && items[i].page == page
  {
    FeeRowsSound(sh, m, page, ref, r);
    var items := FeeRows(sh, m, page, ref, r);
    forall i | 0 <= i < |items|
      ensures items[i].reference == ReferenceOr(ref) && items[i].page == page
    {
      assert RowGood(sh, m, page, ref, items[i], r);
    }
  }

  /** The body of the rows loop for row `k`: append the row's item, if it has one. */
  method FeeRowAt(sh: FeeSheet, m: ColumnMap, page: int, ref: Option<string>, k: nat, items: seq<FeeItem>) returns (items': seq<FeeItem>)
    requires k < |sh.rows|
    ensures items' + FeeRows(sh, m, page, ref, k + 1) == items + FeeRows(sh, m, page, ref, k)
  {
    items' := items;
    if sh.rows[k] != [] {
      var it := FeeRow(sh, k, m, page, ref);
      if it.Some? {
        items' := items + [it.value];
      }
    }
  }

  /** The rows loop of `_extract_management_fee_from_table` from row `r`. */
  method CollectFeeRows(sh: FeeSheet, m: ColumnMap, page: int, ref: Option<string>, r: nat) returns (items: seq<FeeItem>)
    ensures items == FeeRows(sh, m, page, ref, r)
  {
    items := [];
    var k := r;
    while k < |sh.rows|
      invariant r <= k && (r <= |sh.rows| ==> k <= |sh.rows|)
      invariant items + FeeRows(sh, m, page, ref, k) == FeeRows(sh, m, page, ref, r)
      decreases |sh.rows| - k
    {
      items := FeeRowAt(sh, m, page, ref, k, items);
      k := k + 1;
    }
  }

  /** `_extract_management_fee_from_table` on a table read as a sheet: the header, the reference, then the rows below the header. */
  method ExtractFromSheet(sh: FeeSheet, page: int) returns (items: seq<FeeItem>)
    ensures items == SheetFees(sh, page, FirstReference(sh.rows, 0))
  {
    var header, mapping := FindHeaderAndColumns(sh);
    if header.None? || mapping == map[] {
      return [];
    }
    var ref := FindTableReference(sh.rows);
    items := CollectFeeRows(sh, mapping, page, ref, header.value + 1);
  }

  /** `_extract_management_fee_from_table(table, page_num, table_idx)` */
  method ExtractManagementFeeFromTable(table: Table, page: int) returns (items: seq<FeeItem>)
    ensures items == ManagementFeeFromTable(table, page)
  {
    items := ExtractFromSheet(SheetOf(table), page);
  }

  // -------------------------------------------------------------- the pages

  /** The tables loop of one page: tables with fewer than two rows are skipped, the others' items appended in order. */
  function PageFees(tables: seq<Table>, page: int): (items: seq<FeeItem>)
    ensures forall i :: 0 <= i < |items| ==> items[i].page == page
  {
    if tables == [] then []
    else
      var first := if |tables[0]| < 2 then [] else ManagementFeeFromTable(tables[0], page);
      TableFeesPage(tables[0], page);
      first + PageFees(tables[1..], page)
  }

  /** Every item of a table carries the page number it was read with. */
  lemma {:induction false} TableFeesPage(table: Table, page: int)
    ensures forall i :: 0 <= i < |ManagementFeeFromTable(table, page)| ==> ManagementFeeFromTable(table, page)[i].page == page
  {
    SheetFeesSound(SheetOf(table), page, FirstReference(table, 0));
  }

  /** `pdf.pages[p]` with Python's negative indexing; `None` for the `IndexError` of an index below `-len(pages)`. */
  function PageIndex(count: nat, p: int): Option<nat> {
    if 0 <= p < count then Some(p) else if -(count as int) <= p < 0 then Some(count + p) else None
  }

  /**
   * The pages loop from 0-based index `p` to `end`: stop at the end of the
   * range or past the last page; every page's items come out in page
   * order, numbered `p + 1`. `None` is the exception an out-of-range
   * negative index raises (and the method re-raises).
   */
  function PagesFees(pages: seq<seq<Table>>, p: int, end: int): Option<seq<FeeItem>>
    decreases end - p
  {
    if p >= end || p >= |pages| then Some([])
    else match PageIndex(|pages|, p)
      case None => None
      case Some(k) =>
        match PagesFees(pages, p + 1, end)
        case None => None
        case Some(rest) => Some(PageFees(pages[k], p + 1) + rest)
  }

  /**
   * `extract_management_fee_subtables(start_page, end_page)` over the tables
   * each page yields: `start_page` defaults to 1 and `end_page` to the page
   * count.
   */
  function ManagementFeeSubtables(pages: seq<seq<Table>>, startPage: Option<int>, endPage: Option<int>): Option<seq<FeeItem>> {
    var start := if startPage.Some? then startPage.value else 1;
    var end := if endPage.Some? then endPage.value else |pages|;
    PagesFees(pages, start - 1, end)
  }

  /** Every item's page lies in `[lo, hi]`, and pages never decrease along the items. */
  predicate PagesWithin(items: seq<FeeItem>, lo: int, hi: int) {
    (forall i :: 0 <= i < |items| ==> lo <= items[i].page <= hi)
    && (forall i, j :: 0 <= i < j < |items| ==> items[i].page <= items[j].page)
  }

  lemma {:induction false} PagesWithinCons(head: seq<FeeItem>, rest: seq<FeeItem>, page: int, hi: int)
    requires forall i :: 0 <= i < |head| ==> head[i].page == page
    requires PagesWithin(rest, page + 1, hi) && page <= hi
    ensures PagesWithin(head + rest, page, hi)
  {
    var all := head + rest;
    forall i | 0 <= i < |all| ensures page <= all[i].page <= hi {
      if i >= |head| { assert all[i] == rest[i - |head|]; }
    }
    forall i, j | 0 <= i < j < |all| ensures all[i].page <= all[j].page {
      if j >= |head| { assert all[j] == rest[j - |head|]; }
      if i >= |head| { assert all[i] == rest[i - |head|]; }
    }
  }

  /** From a 0-based index `p >= 0`, the pages loop never fails and numbers its items within the pages it visits, in order. */
  lemma {:induction false} PagesFeesInRange(pages: seq<seq<Table>>, p: int, end: int)
    requires p >= 0
    ensures PagesFees(pages, p, end).Some?
    ensures PagesWithin(PagesFees(pages, p, end).value, p + 1, Min(end, |pages|))
    decreases end - p
  {
    if !(p >= end || p >= |pages|) {
      PagesFeesInRange(pages, p + 1, end);
      var head := PageFees(pages[p], p + 1);
      var rest := PagesFees(pages, p + 1, end).value;
      assert PagesFees(pages, p, end).value == head + rest;
      PagesWithinCons(head, rest, p + 1, Min(end, |pages|));
    }
  }

  /**
   * With a start page of 1 or more, extraction succeeds and every item's page
   * lies between the start page and both the end page and the page count,
   * in page order.
   */
  lemma {:induction false} ManagementFeeSubtablesPages(pages: seq<seq<Table>>, startPage: Option<int>, endPage: Option<int>)
    requires startPage.None? || startPage.value >= 1
    ensures var r := ManagementFeeSubtables(pages, startPage, endPage);
      var start := if startPage.Some? then startPage.value else 1;
      r.Some? && (forall i :: 0 <= i < |r.value| ==>
        (start <= r.value[i].page <= |pages| && (endPage.Some? ==> r.value[i].page <= endPage.value)))
  {
    var start := if startPage.Some? then startPage.value else 1;
    var end := if endPage.Some? then endPage.value else |pages|;
    PagesFeesInRange(pages, start - 1, end);
    assert PagesWithin(ManagementFeeSubtables(pages, startPage, endPage).value, start, Min(end, |pages|));
  }

  function Min(a: int, b: int): int {
    if a <= b then a else b
  }

  /** The items gathered so far, followed by what the rest of the loop yields (or its exception). */
  function Prepend(done: seq<FeeItem>, r: Option<seq<FeeItem>>): Option<seq<FeeItem>> {
    match r
    case None => None
    case Some(rest) => Some(done + rest)
  }

  lemma {:induction false} PrependStep(done: seq<FeeItem>, fees: seq<FeeItem>, r: Option<seq<FeeItem>>)
    ensures Prepend(done, Prepend(fees, r)) == Prepend(done + fees, r)
  {
    if r.Some? {
      assert done + (fees + r.value) == (done + fees) + r.value;
    }
  }

  /** One round of the pages loop. */
  lemma {:induction false} PagesFeesStep(pages: seq<seq<Table>>, p: int, end: int)
    requires p < end && p < |pages|
    ensures PagesFees(pages, p, end) ==
      (match PageIndex(|pages|, p)
       case None => None
       case Some(k) => Prepend(PageFees(pages[k], p + 1), PagesFees(pages, p + 1, end)))
  {
  }

  /** The tables loop of one page. */
  method ExtractPageFees(tables: seq<Table>, page: int) returns (items: seq<FeeItem>)
    ensures items == PageFees(tables, page)
  {
    items := [];
    var t := 0;
    while t < |tables|
      invariant t <= |tables|
      invariant items + PageFees(tables[t..], page) == PageFees(tables, page)
      decreases |tables| - t
    {
      items := ExtractTableFees(tables, t, page, items);
      t := t + 1;
    }
  }

  /** The body of the tables loop: the table at `t` is read when it has at least two rows. */
  method ExtractTableFees(tables: seq<Table>, t: int, page: int, items: seq<FeeItem>) returns (items': seq<FeeItem>)
    requires 0 <= t < |tables|
    ensures items' + PageFees(tables[t + 1..], page) == items + PageFees(tables[t..], page)
  {
    TablesStep(tables, t, page);
    var rest := PageFees(tables[t + 1..], page);
    if |tables[t]| >= 2 {
      var fees := ExtractManagementFeeFromTable(tables[t], page);
      items' := items + fees;
      assert items' + rest == items + (fees + rest);
    } else {
      items' := items;
      assert rest == [] + rest;
    }
  }

  /** One round of the tables loop: the table at `t` contributes its fees (none when it has fewer than two rows). */
  lemma {:induction false} TablesStep(tables: seq<Table>, t: int, page: int)
    requires 0 <= t < |tables|
    ensures PageFees(tables[t..], page) ==
      (if |tables[t]| < 2 then [] else ManagementFeeFromTable(tables[t], page)) + PageFees(tables[t + 1..], page)
  {
    assert tables[t..][0] == tables[t];
    assert tables[t..][1..] == tables[t + 1..];
  }

  /** `extract_management_fee_subtables`: the pages loop over the requested range. */
  method ExtractManagementFeeSubtables(pages: seq<seq<Table>>, startPage: Option<int>, endPage: Option<int>)
    returns (r: Option<seq<FeeItem>>)
    ensures r == ManagementFeeSubtables(pages, startPage, endPage)
  {
    var start := if startPage.Some? then startPage.value else 1;
    var end := if endPage.Some? then endPage.value else |pages|;
    var all: seq<FeeItem> := [];
    var p := start - 1;
    assert PagesFees(pages, p, end) == Prepend(all, PagesFees(pages, p, end)) by {
      if PagesFees(pages, p, end).Some? {
        assert all + PagesFees(pages, p, end).value == PagesFees(pages, p, end).value;
      }
    }
    while p < end
      invariant PagesFees(pages, start - 1, end) == Prepend(all, PagesFees(pages, p, end))
      decreases end - p
    {
      if p >= |pages| {
        break;
      }
      PagesFeesStep(pages, p, end);
      var k := PageIndex(|pages|, p);
      if k.None? {
        return None;
      }
      var fees := ExtractPageFees(pages[k.value], p + 1);
      PrependStep(all, fees, PagesFees(pages, p + 1, end));
      all := all + fees;
      p := p + 1;
    }
    assert all + [] == all;
    return Some(all);
  }
}

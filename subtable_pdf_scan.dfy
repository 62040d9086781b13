/**
 * The table level of `subtable_pdf_extractor.py`: the title items of a
 * reference row, and the row loop of `_extract_subtables_from_table` that
 * opens a sub-table at the first row showing a page reference with a header
 * row close below it, reads its items once, and ends at a 合計 row.
 */
module SubtablePdfScan {
  import opened Wrappers
  import opened Text
  import opened Grid
  import opened RefNames
  import opened SubtablePdf

  // ----------------------------------------------------------- title items

  /**
   * `_extract_table_title_items(table, reference_row_idx, header_row_idx)`:
   * a reference row with at least six filled cells whose last 単位 cell comes
   * before its last 単位数量 cell gives the item name (the second filled
   * cell), the unit (the cell after 単位) and the unit quantity (the cell
   * after 単位数量, or "" when there is none).
   */
  function PdfTitleItems(table: Table, r: nat): (t: Option<TitleItems>)
    ensures t.Some? <==> (r < |table| && |NonEmptyTexts(table[r])| >= 6
      && 0 <= LastMarked(NonEmptyTexts(table[r]), UnitMark) < LastMarked(NonEmptyTexts(table[r]), QuantityMark))
    ensures t.Some? ==> t.value.itemName != [] && t.value.unit != []
    ensures t.Some? ==> (t.value.unitQuantity == [] <==> LastMarked(NonEmptyTexts(table[r]), QuantityMark) == |NonEmptyTexts(table[r])| - 1)
  {
    if r >= |table| || table[r] == [] then None
    else
      var cells := NonEmptyTexts(table[r]);
      if |cells| < 6 then None
      else
        var u := LastMarked(cells, UnitMark);
        var q := LastMarked(cells, QuantityMark);
        if u != -1 && q != -1 && u < q then
          Some(TitleItems(cells[1], cells[u + 1], if q + 1 < |cells| then cells[q + 1] else []))
        else None
  }

  // ------------------------------------------------------------ header rows

  /** The first row in `[c, hi)` that `_find_column_headers` accepts, with its mapping. */
  function HeaderNear(table: Table, c: nat, hi: nat): (r: Option<(nat, map<Role, nat>)>)
    requires hi <= |table|
    ensures r.Some? ==> c <= r.value.0 < hi && ColumnHeaders(table[r.value.0]) == Some(r.value.1)
    ensures r.Some? ==> forall k :: c <= k < r.value.0 ==> ColumnHeaders(table[k]).None?
    ensures r.None? <==> forall k :: c <= k < hi ==> ColumnHeaders(table[k]).None?
    decreases hi - c
  {
    if c >= hi then None
    else match ColumnHeaders(table[c])
      case Some(m) => Some((c, m))
      case None => HeaderNear(table, c + 1, hi)
  }

  function Min(a: nat, b: nat): nat { if a <= b then a else b }

  /** The `for check_idx in range(row_idx + 1, min(row_idx + 4, len(table)))` loop. */
  method FindHeaderNear(table: Table, r: nat) returns (found: Option<(nat, map<Role, nat>)>)
    ensures found == HeaderNear(table, r + 1, Min(r + 4, |table|))
  {
    var hi := Min(r + 4, |table|);
    var c := r + 1;
    while c < hi
      invariant r + 1 <= c
      invariant HeaderNear(table, c, hi) == HeaderNear(table, r + 1, hi)
      decreases hi - c
    {
      var m := FindColumnHeaders(table[c]);
      if m.Some? {
        return Some((c, m.value));
      }
      c := c + 1;
    }
    return None;
  }

  // ---------------------------------------------------------- the row loop

  /** The state of the row loop: `current_reference`, the column mapping, the title, the rows read and `processed_rows`. */
  datatype ScanState = ScanState(
    reference: Option<string>,
    mapping: map<Role, nat>,
    title: Option<TitleItems>,
    rows: seq<PdfRow>,
    processed: set<nat>)

  const Start := ScanState(None, map[], None, [], {})

  /** A row of an open sub-table that mentions a header label is skipped. */
  predicate MentionsLabel(row: Row) {
    ContainsAny(RowText(row), Labels)
  }

  function Elems(xs: seq<nat>): set<nat> {
    set x | x in xs
  }

  /** What the loop does with row `r`: `(stop, state after)`. */
  function ScanRow(table: Table, refs: seq<string>, r: nat, st: ScanState): (bool, ScanState)
    requires r < |table|
  {
    if r in st.processed then (false, st)
    else match st.reference
      case Some(reference) =>
        if IsTotalRow(table[r]) then (true, st)
        else if MentionsLabel(table[r]) then (false, st)
        else if st.mapping != map[] && st.rows == [] then
          var items := Items(SheetOf(table), r, st.mapping, reference);
          (false, st.(rows := RowsOf(items), processed := st.processed + Elems(UsedOf(items))))
        else (false, st)
      case None =>
        match FindRefInRow(RowText(table[r]), refs)
        case None => (false, st)
        case Some(found) =>
          match HeaderNear(table, r + 1, Min(r + 4, |table|))
          case None => (false, st)
          case Some(h) => (false, st.(reference := Some(found), mapping := h.1, title := PdfTitleItems(table, r)))
  }

  /** The loop from row `r` on: the state it ends in. */
  function Scan(table: Table, refs: seq<string>, r: nat, st: ScanState): ScanState
    decreases |table| - r
  {
    if r >= |table| then st
    else
      var step := ScanRow(table, refs, r, st);
      if step.0 then st else Scan(table, refs, r + 1, step.1)
  }

  /** One extracted sub-table (`_create_subtable_dict`). */
  datatype PdfSubtable = PdfSubtable(
    reference: string,
    page: nat,
    tableIndex: nat,
    rowCount: nat,
    rows: seq<PdfRow>,
    title: Option<TitleItems>)

  /** `_extract_subtables_from_table(table, reference_numbers, page_num, table_idx)` */
  function SubtablesFromTable(table: Table, refs: seq<string>, page: nat, tableIndex: nat): (subs: seq<PdfSubtable>)
    ensures |table| < 5 ==> subs == []
    ensures |subs| <= 1
  {
    if |table| < 5 then []
    else
      var st := Scan(table, refs, 0, Start);
      if st.reference.Some? && st.rows != [] then
        [PdfSubtable(st.reference.value, page, tableIndex, |st.rows|, st.rows, st.title)]
      else []
  }

  // ---------------------------------------------------------------- lemmas

  /** Row `k` opened the sub-table `st` holds: it shows the reference, and the title was read from it. */
  predicate OpenedAt(table: Table, st: ScanState, k: nat) {
    st.reference.Some? && k < |table| && ShowsRef(RowText(table[k]), st.reference.value)
    && st.title == PdfTitleItems(table, k)
  }

  /**
   * What the loop's state always satisfies: no rows before a reference is
   * found; once one is, it is one of the page's references, shown by the row
   * that opened it, its mapping has at least two columns, and every row read
   * carries it and has an item name.
   */
  ghost predicate Sound(table: Table, refs: seq<string>, st: ScanState) {
    (st.reference.None? ==> st.rows == [])
    && (st.reference.Some? ==>
      st.reference.value in refs && |st.mapping| >= 2 && (exists k :: 0 <= k < |table| && OpenedAt(table, st, k))
      && forall k :: 0 <= k < |st.rows| ==> st.rows[k].reference == st.reference.value && Usable(st.rows[k].name))
  }

  lemma {:induction false} ItemRowsSound(table: Table, r: nat, m: map<Role, nat>, reference: string)
    ensures var rows := RowsOf(Items(SheetOf(table), r, m, reference));
      forall k :: 0 <= k < |rows| ==> rows[k].reference == reference && Usable(rows[k].name)
  {
    var items := Items(SheetOf(table), r, m, reference);
    ItemsSound(SheetOf(table), r, m, reference);
    forall k | 0 <= k < |items| ensures items[k].row.reference == reference && Usable(items[k].row.name) {
      assert ItemGood(SheetOf(table), m, reference, items[k], r);
    }
  }

  lemma {:induction false} OpenSound(table: Table, refs: seq<string>, r: nat, st: ScanState, found: string, m: map<Role, nat>)
    requires r < |table| && st.rows == [] && found in refs && ShowsRef(RowText(table[r]), found) && |m| >= 2
    ensures Sound(table, refs, st.(reference := Some(found), mapping := m, title := PdfTitleItems(table, r)))
  {
    var next := st.(reference := Some(found), mapping := m, title := PdfTitleItems(table, r));
    assert OpenedAt(table, next, r);
  }

  lemma {:induction false} ReadSound(table: Table, refs: seq<string>, r: nat, st: ScanState, reference: string, more: set<nat>)
    requires Sound(table, refs, st) && st.reference == Some(reference)
    ensures Sound(table, refs, st.(rows := RowsOf(Items(SheetOf(table), r, st.mapping, reference)), processed := more))
  {
    var next := st.(rows := RowsOf(Items(SheetOf(table), r, st.mapping, reference)), processed := more);
    var k :| 0 <= k < |table| && OpenedAt(table, st, k);
    assert OpenedAt(table, next, k);
    ItemRowsSound(table, r, st.mapping, reference);
  }

  lemma {:induction false} ScanRowSound(table: Table, refs: seq<string>, r: nat, st: ScanState)
    requires r < |table| && Sound(table, refs, st)
    ensures Sound(table, refs, ScanRow(table, refs, r, st).1)
  {
    if r !in st.processed {
      match st.reference
      case Some(reference) =>
        if !IsTotalRow(table[r]) && !MentionsLabel(table[r]) && st.mapping != map[] && st.rows == [] {
          var items := Items(SheetOf(table), r, st.mapping, reference);
          ReadSound(table, refs, r, st, reference, st.processed + Elems(UsedOf(items)));
        }
      case None =>
        match FindRefInRow(RowText(table[r]), refs)
        case None =>
        case Some(found) =>
          match HeaderNear(table, r + 1, Min(r + 4, |table|))
          case None =>
          case Some(h) =>
            OpenSound(table, refs, r, st, found, h.1);
    }
  }

  lemma {:induction false} ScanSound(table: Table, refs: seq<string>, r: nat, st: ScanState)
    requires Sound(table, refs, st)
    ensures Sound(table, refs, Scan(table, refs, r, st))
    decreases |table| - r
  {
    if r < |table| && !ScanRow(table, refs, r, st).0 {
      ScanRowSound(table, refs, r, st);
      ScanSound(table, refs, r + 1, ScanRow(table, refs, r, st).1);
    }
  }

  /**
   * Once a sub-table is open its reference and title never change, and once
   * its items are read they are never read again: a second reference row
   * cannot open another sub-table in the same table.
   */
  lemma {:induction false} ScanKeepsOpen(table: Table, refs: seq<string>, r: nat, st: ScanState)
    requires st.reference.Some?
    ensures Scan(table, refs, r, st).reference == st.reference
    ensures Scan(table, refs, r, st).title == st.title
    ensures st.rows != [] ==> Scan(table, refs, r, st).rows == st.rows
    decreases |table| - r
  {
    if r < |table| && !ScanRow(table, refs, r, st).0 {
      ScanKeepsOpen(table, refs, r + 1, ScanRow(table, refs, r, st).1);
    }
  }

  /**
   * A sub-table the extractor returns has rows, counts them, names one of
   * the page's references, is opened by a row showing that reference (whose
   * title it carries), and every row it holds carries that reference and an
   * item name.
   */
  lemma {:induction false} SubtablesSound(table: Table, refs: seq<string>, page: nat, tableIndex: nat)
    ensures forall s :: s in SubtablesFromTable(table, refs, page, tableIndex) ==>
      s.rows != [] && s.rowCount == |s.rows| && s.reference in refs && s.page == page && s.tableIndex == tableIndex
      && (exists k :: 0 <= k < |table| && ShowsRef(RowText(table[k]), s.reference) && s.title == PdfTitleItems(table, k))
      && forall j :: 0 <= j < |s.rows| ==> s.rows[j].reference == s.reference && Usable(s.rows[j].name)
  {
    if |table| >= 5 {
      ScanSound(table, refs, 0, Start);
      var st := Scan(table, refs, 0, Start);
      if st.reference.Some? && st.rows != [] {
        var k :| OpenedAt(table, st, k);
        assert OpenedAt(table, st, k);
      }
    }
  }

  // ---------------------------------------------------------------- method

  /** One pass of the loop body for row `r`. */
  method ScanRowAt(table: Table, refs: seq<string>, r: nat, st: ScanState) returns (stop: bool, next: ScanState)
    requires r < |table|
    ensures (stop, next) == ScanRow(table, refs, r, st)
    ensures stop ==> Scan(table, refs, r, st) == st
    ensures !stop ==> Scan(table, refs, r, st) == Scan(table, refs, r + 1, next)
  {
    if !ScanRow(table, refs, r, st).0 {
      ScanStep(table, refs, r, st);
    }
    if r in st.processed {
      return false, st;
    }
    var row := table[r];
    var rowText := RowText(row);
    if st.reference.Some? {
      if IsTotalRow(row) {
        return true, st;
      }
      if ContainsAny(rowText, Labels) {
        return false, st;
      }
      if st.mapping != map[] && st.rows == [] {
        var rows, processed := ExtractMultirowData(SheetOf(table), r, st.mapping, st.reference.value);
        return false, st.(rows := rows, processed := st.processed + Elems(processed));
      }
      return false, st;
    }
    var found := FindRefInRow(rowText, refs);
    if found.None? {
      return false, st;
    }
    var header := FindHeaderNear(table, r);
    if header.None? {
      return false, st;
    }
    var title := PdfTitleItems(table, r);
    return false, st.(reference := found, mapping := header.value.1, title := title);
  }

  lemma {:induction false} ScanStep(table: Table, refs: seq<string>, r: nat, st: ScanState)
    requires r < |table| && !ScanRow(table, refs, r, st).0
    ensures Scan(table, refs, r, st) == Scan(table, refs, r + 1, ScanRow(table, refs, r, st).1)
  {
  }

  /** The row loop of `_extract_subtables_from_table`, from the first row to a 合計 row or the end. */
  method ScanTable(table: Table, refs: seq<string>) returns (st: ScanState)
    ensures st == Scan(table, refs, 0, Start)
  {
    st := Start;
    var r := 0;
    ghost var last := Scan(table, refs, 0, Start);
    while r < |table|
      invariant Scan(table, refs, r, st) == last
      decreases |table| - r
    {
      var stop, next := ScanRowAt(table, refs, r, st);
      if stop {
        return;
      }
      st := next;
      r := r + 1;
    }
  }

  method ExtractSubtablesFromTable(table: Table, refs: seq<string>, page: nat, tableIndex: nat) returns (subs: seq<PdfSubtable>)
    ensures subs == SubtablesFromTable(table, refs, page, tableIndex)
  {
    if |table| < 5 {
      return [];
    }
    var st := ScanTable(table, refs);
    if st.reference.Some? && st.rows != [] {
      subs := [PdfSubtable(st.reference.value, page, tableIndex, |st.rows|, st.rows, st.title)];
    } else {
      subs := [];
    }
  }
}

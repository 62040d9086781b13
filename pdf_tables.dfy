/**
 * The table driver of `PDFParser` in `server/services/pdf_parser.py`: the
 * column mapping, one row, one table (header, area, columns, then rows), and
 * the loop over the tables of a page range. The parser object keeps two
 * fields across tables: the first complete 農政 column map, and the last 農政
 * column map used.
 */
module PdfTables {
  import opened Wrappers
  import opened Text
  import opened Grid
  import opened TenderSchema
  import opened PdfParser
  import opened PdfNousei

  // ---------------------------------------------------------- column mapping

  /** The first present, non-empty header cell matching the patterns: the innermost loop of `_get_column_mapping`. */
  method FirstMatchingCell(header: Row, ps: seq<string>, area: Area) returns (found: Option<nat>)
    ensures found == FindColumn(header, ps, area, 0)
  {
    found := None;
    var i := 0;
    while i < |header| && found.None?
      invariant i <= |header|
      invariant found.None? ==> FindColumn(header, ps, area, 0) == FindColumn(header, ps, area, i)
      invariant found.Some? ==> found == FindColumn(header, ps, area, 0)
      decreases |header| - i, found.None?
    {
      if Truthy(header[i]) && CellMatches(header[i].value, ps, area) {
        found := Some(i);
      } else {
        i := i + 1;
      }
    }
  }

  /** The `tentative` map of one pattern set, column by column. */
  method TentativeMap(header: Row, pats: Patterns, area: Area) returns (tentative: ColumnMap)
    ensures tentative == Tentative(header, pats, area)
  {
    tentative := [];
    var j := 0;
    while j < |pats|
      invariant j <= |pats|
      invariant tentative == Tentative(header, pats[..j], area)
    {
      var found := FirstMatchingCell(header, pats[j].1, area);
      if found.Some? {
        tentative := Put(tentative, pats[j].0, found.value);
      }
      assert pats[..j + 1][..j] == pats[..j];
      j := j + 1;
    }
    assert pats[..j] == pats;
  }

  /** The loop of `_get_column_mapping` over pattern sets: the first tentative map with both 数量 and 単位. */
  method MappingOf(header: Row, sets: seq<Patterns>, area: Area) returns (cols: ColumnMap)
    ensures cols == MappingFrom(header, sets, area)
  {
    cols := [];
    var s := 0;
    while s < |sets| && cols == []
      invariant s <= |sets|
      invariant cols == [] ==> MappingFrom(header, sets, area) == MappingFrom(header, sets[s..], area)
      invariant cols != [] ==> cols == MappingFrom(header, sets, area)
      decreases |sets| - s
    {
      var tentative := TentativeMap(header, sets[s], area);
      assert sets[s..][1..] == sets[s + 1..];
      if HasKey(tentative, QtyCol) && HasKey(tentative, UnitCol) {
        cols := tentative;
        if area == Nousei && !HasKey(cols, NouseiNameCol) {
          cols := Put(cols, NouseiNameCol, 0);
        }
      }
      s := s + 1;
    }
  }

  /** `_get_column_mapping` with the pattern sets of the area. */
  method GetColumnMapping(header: Row, area: Area) returns (cols: ColumnMap)
    ensures cols == ColumnMapping(header, area)
  {
    cols := MappingOf(header, PatternSets(area), area);
  }

  // ----------------------------------------------------------------- one row

  /**
   * `_complete_previous_item_with_quantity_data` on the items of the current
   * table: unless there is no item or the last one has a positive quantity,
   * the last item takes the row's quantity, its 単位 when there is one, and
   * every field it lacks.
   */
  method CompletePrevious(items: seq<TenderItem>, raw: Fields, quantity: real)
    returns (merged: bool, result: seq<TenderItem>)
    ensures merged <==> items != [] && items[|items| - 1].quantity <= 0.0
    ensures !merged ==> result == items
    ensures merged ==> result == items[..|items| - 1] + [MergeInto(items[|items| - 1], raw, quantity)]
  {
    if items == [] || items[|items| - 1].quantity > 0.0 {
      return false, items;
    }
    var last := items[|items| - 1];
    var fields := last.rawFields;
    var j := 0;
    while j < |raw|
      invariant j <= |raw|
      invariant fields == AddMissing(last.rawFields, raw[..j])
    {
      var (k, v) := raw[j];
      if !HasKey(fields, k) {
        fields := Put(fields, k, v);
      }
      assert raw[..j + 1][..j] == raw[..j];
      j := j + 1;
    }
    assert raw[..j] == raw;
    var unit := if HasKey(raw, UnitCol) then Some(GetOrEmpty(raw, UnitCol)) else last.unit;
    result := items[..|items| - 1] + [last.(quantity := quantity, unit := unit, rawFields := fields)];
    merged := true;
  }

  /**
   * `_process_single_row_with_spanning`: what becomes of one row, and the
   * items of the table after a merge into the last one.
   */
  method ProcessRow(row: Row, cols: ColumnMap, area: Area, page: nat, items: seq<TenderItem>)
    returns (outcome: RowOutcome, after: seq<TenderItem>)
    ensures outcome == ClassifyRow(row, cols, area, page, items)
    ensures !outcome.Merged? ==> after == items
    ensures (if outcome.Created? then after + [outcome.item] else after) == Step(items, row, cols, area, page)
  {
    after := items;
    if RowBlank(row) {
      return Skipped, after;
    }
    var (raw, quantity, unit) := ExtractFields(row, cols, area);
    var identifying := HasIdentifyingFields(raw, area);
    var data := HasQuantityData(raw, quantity);
    if identifying {
      var key := ItemKey(raw);
      if key == [] {
        outcome := Skipped;
      } else {
        outcome := Created(TenderItem(key, raw, if data then quantity else 0.0, PDF, unit, Some(page + 1)));
      }
    } else if data {
      var merged;
      merged, after := CompletePrevious(items, raw, quantity);
      outcome := if merged then Merged else Skipped;
      if merged {
        StepMerged(items, row, cols, area, page);
      }
    } else {
      outcome := Skipped;
    }
  }

  lemma {:induction false} StepMerged(items: seq<TenderItem>, row: Row, cols: ColumnMap, area: Area, page: nat)
    requires ClassifyRow(row, cols, area, page, items) == Merged
    ensures items != []
    ensures var (raw, quantity, _) := ExtractFields(row, cols, area);
            Step(items, row, cols, area, page) == items[..|items| - 1] + [MergeInto(items[|items| - 1], raw, quantity)]
  {
  }

  // ---------------------------------------------------------- table planning

  /** `_nousei_global_cols` and `_nousei_last_cols`; `None` also stands for an attribute not yet set. */
  datatype Caches = Caches(globalCols: Option<ColumnMap>, lastCols: Option<ColumnMap>)

  /** The global map is set to something truthy. */
  predicate Cached(g: Option<ColumnMap>) {
    g.Some? && g.value != []
  }

  /** A cached global map always holds 数量, 単位 and 工種・種目. */
  predicate CachesOk(st: Caches) {
    st.globalCols.Some? ==> Complete(st.globalCols.value) && HasKey(st.globalCols.value, NouseiNameCol)
  }

  /** A row of a split 農政 header: its squashed texts contain 単位 and 数量. */
  predicate SplitHeaderRow(row: Row) {
    row != []
    && (exists t :: t in TruthyTexts(row) && Contains(Squash(t), UnitCol))
    && (exists t :: t in TruthyTexts(row) && Contains(Squash(t), QtyCol))
  }

  /** The first split header row among rows `from` to `limit - 1`. */
  function SplitHeaderFrom(table: Table, from: nat, limit: nat): (r: Option<nat>)
    requires limit <= |table|
    ensures r.Some? ==> from <= r.value < limit && SplitHeaderRow(table[r.value])
    ensures forall j :: from <= j < limit && (r.None? || j < r.value) ==> !SplitHeaderRow(table[j])
    decreases limit - from
  {
    if from >= limit then None
    else if SplitHeaderRow(table[from]) then Some(from)
    else SplitHeaderFrom(table, from + 1, limit)
  }

  /** How many rows the 農政 rescan looks at: `min(6, len(table))`. */
  function ScanLimit(table: Table): nat {
    if |table| < 6 then |table| else 6
  }

  /** The area whose patterns are tried when the effective area's patterns map nothing. */
  function FallbackArea(area: Area): (r: Area)
    ensures r != Nousei && r != area
  {
    if area == Kitakami then Iwate else if area == Iwate then Kitakami else Iwate
  }

  /** How a table is read: the effective area, its column map and the index of its header row. */
  datatype Plan = Plan(area: Area, cols: ColumnMap, headerIdx: nat)

  /** The header row and its index: `_find_header_row`, or no row at index 0 when there is none. */
  function HeaderOf(table: Table): (Row, nat) {
    FindHeaderRow(table).GetOr(([], 0))
  }

  /** The map from the global cache when it applies, from the header otherwise. */
  function FirstMapping(header: Row, eff: Area, global: Option<ColumnMap>): ColumnMap {
    if eff == Nousei && Cached(global) then global.value else ColumnMapping(header, eff)
  }

  /** The header, its index and the map after the 農政 rescan of the first rows. */
  function Rescan(table: Table, header: Row, hidx: nat, cols: ColumnMap, eff: Area): (Row, nat, ColumnMap) {
    if eff == Nousei && cols == [] then
      match SplitHeaderFrom(table, 0, ScanLimit(table))
      case Some(b) => (table[b], b, ColumnMapping(table[b], Nousei))
      case None => (header, hidx, cols)
    else (header, hidx, cols)
  }

  /** The last step of the plan: the minimal 農政 map, or the fallback area, when nothing was mapped. */
  function PlanFrom(header: Row, hidx: nat, cols: ColumnMap, eff: Area): Option<Plan> {
    if cols != [] then Some(Plan(eff, cols, hidx))
    else if eff == Nousei then Some(Plan(Nousei, [(NouseiNameCol, 0)], hidx))
    else
      var fb := FallbackArea(eff);
      var c := ColumnMapping(header, fb);
      if c == [] then None else Some(Plan(fb, c, hidx))
  }

  /** How `_process_single_table` reads a table of two or more rows, or nothing when no columns are found. */
  function TablePlan(table: Table, area: Area, global: Option<ColumnMap>): Option<Plan> {
    if FindHeaderRow(table).None? && area != Nousei then None
    else
      var (header, hidx) := HeaderOf(table);
      var eff := DetectArea(header).GetOr(area);
      var (header', hidx', cols) := Rescan(table, header, hidx, FirstMapping(header, eff, global), eff);
      PlanFrom(header', hidx', cols, eff)
  }

  /** The fields after a table: a complete 農政 map is cached unless one is, and the 農政 map is remembered. */
  function NextCaches(plan: Option<Plan>, st: Caches): Caches {
    match plan
    case None => st
    case Some(p) =>
      if p.area != Nousei then st
      else
        var cache := p.cols != [] && !Cached(st.globalCols) && Complete(p.cols);
        Caches(if cache then Some(p.cols) else st.globalCols, Some(p.cols))
  }

  /** `table[n:]` */
  function Drop(table: Table, n: nat): Table {
    if n >= |table| then [] else table[n..]
  }

  /** The items of a planned table: the dotted main rows for 農政, the rows after the header otherwise. */
  function PlanItems(table: Table, page: nat, plan: Option<Plan>): seq<TenderItem> {
    match plan
    case None => []
    case Some(p) =>
      if p.area == Nousei then NouseiItems(table, p.cols, page)
      else RowItems(Drop(table, p.headerIdx + 1), p.cols, p.area, page)
  }

  /** `_process_single_table`: the table's items and the parser's fields after it. */
  function TableOutcome(table: Table, page: nat, area: Area, st: Caches): (r: (seq<TenderItem>, Caches))
    ensures |table| < 2 ==> r == ([], st)
  {
    if |table| < 2 then ([], st)
    else
      var plan := TablePlan(table, area, st.globalCols);
      (PlanItems(table, page, plan), NextCaches(plan, st))
  }

  /** A table together with the page, counted from 0, it was found on. */
  datatype Placed = Placed(page: nat, table: Table)

  /** The tables of one page, each placed on that page. */
  function OnPage(tables: seq<Table>, page: nat): (r: seq<Placed>)
    ensures |r| == |tables|
    ensures forall i :: 0 <= i < |r| ==> r[i] == Placed(page, tables[i])
    decreases |tables|
  {
    if tables == [] then [] else OnPage(tables[..|tables| - 1], page) + [Placed(page, tables[|tables| - 1])]
  }

  /** The tables of pages `s` to `p - 1`, in reading order. */
  function Placements(pages: seq<seq<Table>>, s: nat, p: nat): seq<Placed>
    requires s <= p <= |pages|
    decreases p - s
  {
    if p == s then [] else Placements(pages, s, p - 1) + OnPage(pages[p - 1], p - 1)
  }

  /** What reading one placed table does: its items, and the fields after it, from the fields before it. */
  type Reader = (Placed, Caches) -> (seq<TenderItem>, Caches)

  /** Placed tables read one after the other by `step`, the fields carried from each to the next. */
  function Fold(ts: seq<Placed>, step: Reader, st: Caches): (seq<TenderItem>, Caches)
    decreases |ts|
  {
    if ts == [] then ([], st)
    else
      var (items, st') := Fold(ts[..|ts| - 1], step, st);
      var (more, st'') := step(ts[|ts| - 1], st');
      (items + more, st'')
  }

  /** `_process_single_table` as a step. */
  function TableStep(area: Area): Reader {
    (x: Placed, c: Caches) => TableOutcome(x.table, x.page, area, c)
  }

  /** Placed tables read by `_process_single_table`. */
  function Outcome(ts: seq<Placed>, area: Area, st: Caches): (seq<TenderItem>, Caches) {
    Fold(ts, TableStep(area), st)
  }

  /** `_extract_tables_from_page`: the tables of one page in order. */
  function PageOutcome(tables: seq<Table>, page: nat, area: Area, st: Caches): (seq<TenderItem>, Caches) {
    Outcome(OnPage(tables, page), area, st)
  }

  /** The pages `s` to `p - 1`, in order. */
  function PagesOutcome(pages: seq<seq<Table>>, s: nat, p: nat, area: Area, st: Caches): (seq<TenderItem>, Caches)
    requires s <= p <= |pages|
  {
    Outcome(Placements(pages, s, p), area, st)
  }

  /**
   * `extract_tables_with_range`: nothing, with the fields untouched, for an
   * empty page range; otherwise the global map is cleared and the pages read.
   */
  function RangeOutcome(pages: seq<seq<Table>>, start: Option<int>, end: Option<int>, area: Area, st: Caches): (seq<TenderItem>, Caches) {
    var s, e := FirstPage(start), LastPage(|pages|, end);
    if s > e then ([], st) else PagesOutcome(pages, s, e + 1, area, Caches(None, st.lastCols))
  }

  // ------------------------------------------------------------------- rows

  /** The row loop of `_process_single_table` for 農政: every dotted main row becomes an item. */
  method NouseiRowItems(table: Table, cols: ColumnMap, page: nat) returns (items: seq<TenderItem>)
    ensures items == NouseiItems(table, cols, page)
  {
    items := [];
    var r := 0;
    while r < |table|
      invariant r <= |table|
      invariant items == NouseiItems(table[..r], cols, page)
    {
      if IsItemRow(table[r], cols) {
        items := items + [MainRowItem(table[r], cols, page)];
      }
      NouseiItemsSnoc(table, r, cols, page);
      r := r + 1;
    }
    assert table[..r] == table;
  }

  /** The row loop of `_process_single_table` for the other areas: new items are appended, merges change the last one. */
  method ProcessRows(rows: seq<Row>, cols: ColumnMap, area: Area, page: nat) returns (items: seq<TenderItem>)
    ensures items == RowItems(rows, cols, area, page)
  {
    items := [];
    var r := 0;
    while r < |rows|
      invariant r <= |rows|
      invariant items == RowItems(rows[..r], cols, area, page)
    {
      var outcome;
      outcome, items := ProcessRow(rows[r], cols, area, page, items);
      if outcome.Created? {
        items := items + [outcome.item];
      }
      RowItemsSnoc(rows, r, cols, area, page);
      r := r + 1;
    }
    assert rows[..r] == rows;
  }

  lemma {:induction false} NouseiItemsSnoc(rows: seq<Row>, r: nat, cols: ColumnMap, page: nat)
    requires r < |rows|
    ensures NouseiItems(rows[..r + 1], cols, page)
            == NouseiItems(rows[..r], cols, page) + (if IsItemRow(rows[r], cols) then [MainRowItem(rows[r], cols, page)] else [])
  {
    assert rows[..r + 1][..r] == rows[..r];
  }

  lemma {:induction false} RowItemsSnoc(rows: seq<Row>, r: nat, cols: ColumnMap, area: Area, page: nat)
    requires r < |rows|
    ensures RowItems(rows[..r + 1], cols, area, page) == Step(RowItems(rows[..r], cols, area, page), rows[r], cols, area, page)
  {
    assert rows[..r + 1][..r] == rows[..r];
  }

  lemma {:induction false} OutcomeByPlan(table: Table, page: nat, area: Area, st: Caches, plan: Option<Plan>)
    requires |table| >= 2 && plan == TablePlan(table, area, st.globalCols)
    ensures TableOutcome(table, page, area, st) == (PlanItems(table, page, plan), NextCaches(plan, st))
  {
  }

  // ------------------------------------------------------------ properties

  /** A non-empty column map always has 数量 and 単位, and for 農政 also 工種・種目. */
  lemma {:induction false} MappingComplete(header: Row, area: Area)
    ensures var r := ColumnMapping(header, area);
            r != [] ==> Complete(r) && (area == Nousei ==> HasKey(r, NouseiNameCol))
  {
    ColumnMappingSpec(header, area);
  }

  /** The rescan keeps the header a row of the table and either keeps the map or maps that row as 農政. */
  lemma {:induction false} RescanSpec(table: Table, header: Row, hidx: nat, cols: ColumnMap, eff: Area)
    requires hidx < |table| && header == table[hidx]
    ensures var (h, i, c) := Rescan(table, header, hidx, cols, eff);
            i < |table| && h == table[i] && (c == cols || (eff == Nousei && c == ColumnMapping(h, Nousei)))
  {
  }

  /** The properties of a plan, given those of the map it starts from. */
  lemma {:induction false} PlanFromSpec(header: Row, hidx: nat, cols: ColumnMap, eff: Area)
    requires cols != [] && eff != Nousei ==> Complete(cols) && cols == ColumnMapping(header, eff)
    requires cols != [] && eff == Nousei ==> HasKey(cols, NouseiNameCol)
    ensures var r := PlanFrom(header, hidx, cols, eff);
            r.Some? ==>
              && r.value.cols != [] && r.value.headerIdx == hidx
              && (r.value.area != Nousei ==> Complete(r.value.cols) && r.value.cols == ColumnMapping(header, r.value.area))
              && (r.value.area == Nousei ==> HasKey(r.value.cols, NouseiNameCol))
  {
    if cols == [] && eff == Nousei {
      var minimal: ColumnMap := [(NouseiNameCol, 0)];
      assert minimal[0].0 == NouseiNameCol;
    } else {
      MappingComplete(header, FallbackArea(eff));
    }
  }

  /**
   * Every plan reads a table through a non-empty column map. Outside 農政 the
   * map has 数量 and 単位 and is what the patterns of the plan's area give for
   * the header row, a row of the table; a 農政 map always has a 工種・種目 column.
   */
  lemma {:induction false} TablePlanSpec(table: Table, area: Area, global: Option<ColumnMap>)
    requires |table| >= 2 && CachesOk(Caches(global, None))
    ensures var r := TablePlan(table, area, global);
            r.Some? ==>
              && r.value.cols != []
              && r.value.headerIdx < |table|
              && (r.value.area != Nousei ==> Complete(r.value.cols) && r.value.cols == ColumnMapping(table[r.value.headerIdx], r.value.area))
              && (r.value.area == Nousei ==> HasKey(r.value.cols, NouseiNameCol))
  {
    var (header, hidx) := HeaderOf(table);
    var eff := DetectArea(header).GetOr(area);
    var first := FirstMapping(header, eff, global);
    MappingComplete(header, eff);
    RescanSpec(table, header, hidx, first, eff);
    var (header', hidx', cols) := Rescan(table, header, hidx, first, eff);
    if cols != first {
      MappingComplete(header', Nousei);
    }
    PlanFromSpec(header', hidx', cols, eff);
  }

  /** The items of any plan come from the PDF and carry the page's number. */
  lemma {:induction false} PlanItemsSpec(table: Table, page: nat, plan: Option<Plan>)
    ensures var items := PlanItems(table, page, plan);
            forall i :: 0 <= i < |items| ==> items[i].source == PDF && items[i].pageNumber == Some(page + 1)
  {
    if plan.Some? {
      var p := plan.value;
      var items := PlanItems(table, page, plan);
      if p.area == Nousei {
        NouseiItemsRows(table, p.cols, page);
        MainRowsSpec(table, p.cols);
        var main := MainRows(table, p.cols);
        forall i | 0 <= i < |items| ensures items[i].source == PDF && items[i].pageNumber == Some(page + 1) {
          assert main[i] in main;
          MainRowItemSpec(main[i], p.cols, page);
        }
      } else {
        RowItemsShape(Drop(table, p.headerIdx + 1), p.cols, p.area, page);
      }
    }
  }

  /** Only a complete 農政 map is ever cached, and a cached map is never replaced. */
  lemma {:induction false} NextCachesSpec(plan: Option<Plan>, st: Caches)
    requires CachesOk(st)
    requires plan.Some? && plan.value.area == Nousei ==> HasKey(plan.value.cols, NouseiNameCol)
    ensures var st' := NextCaches(plan, st);
            CachesOk(st') && (st.globalCols.Some? ==> st'.globalCols == st.globalCols)
  {
  }

  /**
   * One table keeps the fields well formed, never replaces a cached global map,
   * and gives items of its own page from the PDF.
   */
  lemma {:induction false} TableOutcomeSpec(table: Table, page: nat, area: Area, st: Caches)
    requires CachesOk(st)
    ensures var (items, st') := TableOutcome(table, page, area, st);
            && CachesOk(st')
            && (st.globalCols.Some? ==> st'.globalCols == st.globalCols)
            && (forall i :: 0 <= i < |items| ==> items[i].source == PDF && items[i].pageNumber == Some(page + 1))
  {
    if |table| >= 2 {
      var plan := TablePlan(table, area, st.globalCols);
      TablePlanSpec(table, area, st.globalCols);
      PlanItemsSpec(table, page, plan);
      NextCachesSpec(plan, st);
    }
  }

  /**
   * Placed tables, one after the other: as for one table, each item carrying
   * the number of a page its table was placed on.
   */
  lemma {:induction false} OutcomeSpec(ts: seq<Placed>, area: Area, st: Caches, lo: int, hi: int)
    requires CachesOk(st)
    requires forall j :: 0 <= j < |ts| ==> lo <= ts[j].page + 1 <= hi
    ensures var (items, st') := Outcome(ts, area, st);
            && CachesOk(st')
            && (st.globalCols.Some? ==> st'.globalCols == st.globalCols)
            && (forall i :: 0 <= i < |items| ==>
                  items[i].source == PDF && items[i].pageNumber.Some? && lo <= items[i].pageNumber.value <= hi)
    decreases |ts|
  {
    if ts != [] {
      var init := ts[..|ts| - 1];
      var last := ts[|ts| - 1];
      var (items, st1) := Outcome(init, area, st);
      var (more, st2) := TableOutcome(last.table, last.page, area, st1);
      assert TableStep(area)(last, st1) == (more, st2);
      assert Outcome(ts, area, st) == (items + more, st2);
      assert forall j :: 0 <= j < |init| ==> init[j] == ts[j];
      OutcomeSpec(init, area, st, lo, hi);
      TableOutcomeSpec(last.table, last.page, area, st1);
      assert forall i :: |items| <= i < |items + more| ==> (items + more)[i] == more[i - |items|];
    }
  }

  /** The tables of a page, one after the other: as for one table. */
  lemma {:induction false} PageOutcomeSpec(tables: seq<Table>, page: nat, area: Area, st: Caches)
    requires CachesOk(st)
    ensures var (items, st') := PageOutcome(tables, page, area, st);
            && CachesOk(st')
            && (st.globalCols.Some? ==> st'.globalCols == st.globalCols)
            && (forall i :: 0 <= i < |items| ==> items[i].source == PDF && items[i].pageNumber == Some(page + 1))
  {
    OutcomeSpec(OnPage(tables, page), area, st, page + 1, page + 1);
  }

  /** Every table of pages `s` to `p - 1` is placed on one of them. */
  lemma {:induction false} PlacementsPages(pages: seq<seq<Table>>, s: nat, p: nat)
    requires s <= p <= |pages|
    ensures forall j :: 0 <= j < |Placements(pages, s, p)| ==> s <= Placements(pages, s, p)[j].page < p
    decreases p - s
  {
    if p > s {
      var init := Placements(pages, s, p - 1);
      var more := OnPage(pages[p - 1], p - 1);
      assert Placements(pages, s, p) == init + more;
      PlacementsPages(pages, s, p - 1);
      assert forall j :: 0 <= j < |init| ==> (init + more)[j] == init[j];
      assert forall j :: |init| <= j < |init + more| ==> (init + more)[j] == more[j - |init|];
    }
  }

  /** Pages `s` to `p - 1`: every item carries one of their page numbers. */
  lemma {:induction false} PagesOutcomeSpec(pages: seq<seq<Table>>, s: nat, p: nat, area: Area, st: Caches)
    requires s <= p <= |pages| && CachesOk(st)
    ensures var (items, st') := PagesOutcome(pages, s, p, area, st);
            && CachesOk(st')
            && (st.globalCols.Some? ==> st'.globalCols == st.globalCols)
            && (forall i :: 0 <= i < |items| ==>
                  items[i].source == PDF && items[i].pageNumber.Some? && s + 1 <= items[i].pageNumber.value <= p)
  {
    PlacementsPages(pages, s, p);
    OutcomeSpec(Placements(pages, s, p), area, st, s + 1, p);
  }

  /**
   * `extract_tables_with_range`: every item comes from the PDF and carries a
   * page number within both the requested range and the document; an empty
   * range leaves the fields as they were.
   */
  lemma {:induction false} RangeOutcomeSpec(pages: seq<seq<Table>>, start: Option<int>, end: Option<int>, area: Area, st: Caches)
    ensures var (items, st') := RangeOutcome(pages, start, end, area, st);
            var s, e := FirstPage(start), LastPage(|pages|, end);
            && (s > e ==> items == [] && st' == st)
            && (s <= e ==> CachesOk(st'))
            && (forall i :: 0 <= i < |items| ==>
                  items[i].source == PDF && items[i].pageNumber.Some?
                  && s + 1 <= items[i].pageNumber.value <= e + 1 && 1 <= items[i].pageNumber.value <= |pages|)
  {
    var s, e := FirstPage(start), LastPage(|pages|, end);
    if s <= e {
      PagesOutcomeSpec(pages, s, e + 1, area, Caches(None, st.lastCols));
    }
  }

  /** One more placed table adds its own items after the earlier ones. */
  lemma {:induction false} FoldSnoc(ts: seq<Placed>, x: Placed, step: Reader, st: Caches)
    ensures Fold(ts + [x], step, st).0 == Fold(ts, step, st).0 + step(x, Fold(ts, step, st).1).0
    ensures Fold(ts + [x], step, st).1 == step(x, Fold(ts, step, st).1).1
  {
    assert (ts + [x])[..|ts|] == ts;
  }

  /**
   * Reading `a` and then `b` is reading `a + b`: the items of `b` follow those
   * of `a`, which stay as they were.
   */
  lemma {:induction false} FoldAppend(a: seq<Placed>, b: seq<Placed>, step: Reader, st: Caches)
    ensures Fold(a + b, step, st).0 == Fold(a, step, st).0 + Fold(b, step, Fold(a, step, st).1).0
    ensures Fold(a + b, step, st).1 == Fold(b, step, Fold(a, step, st).1).1
    decreases |b|
  {
    var (items, st') := Fold(a, step, st);
    if b == [] {
      assert a + b == a;
      assert items + [] == items;
    } else {
      var init := b[..|b| - 1];
      var x := b[|b| - 1];
      assert b == init + [x];
      assert a + b == (a + init) + [x];
      FoldAppend(a, init, step, st);
      var (m1, s1) := Fold(init, step, st');
      var (m2, s2) := step(x, s1);
      FoldSnoc(a + init, x, step, st);
      FoldSnoc(init, x, step, st');
      assert (items + m1) + m2 == items + (m1 + m2);
    }
  }

  /** The first `p` pages' tables begin the first `q` pages' tables. */
  lemma {:induction false} PlacementsSplit(pages: seq<seq<Table>>, s: nat, p: nat, q: nat)
    requires s <= p <= q <= |pages|
    ensures exists rest :: Placements(pages, s, q) == Placements(pages, s, p) + rest
    decreases q - p
  {
    if q == p {
      assert Placements(pages, s, q) == Placements(pages, s, p) + [];
    } else {
      PlacementsSplit(pages, s, p, q - 1);
      var rest :| Placements(pages, s, q - 1) == Placements(pages, s, p) + rest;
      var more := OnPage(pages[q - 1], q - 1);
      assert Placements(pages, s, q) == Placements(pages, s, p) + (rest + more);
    }
  }

  /**
   * Items, once produced, are never changed by later pages: the items of
   * pages `s` to `p - 1` begin those of pages `s` to `q - 1`. In particular a
   * continuation row never merges into an item of an earlier page.
   */
  lemma {:induction false} PagesOutcomePrefix(pages: seq<seq<Table>>, s: nat, p: nat, q: nat, area: Area, st: Caches)
    requires s <= p <= q <= |pages|
    ensures IsPrefix(PagesOutcome(pages, s, p, area, st).0, PagesOutcome(pages, s, q, area, st).0)
  {
    PlacementsSplit(pages, s, p, q);
    var rest :| Placements(pages, s, q) == Placements(pages, s, p) + rest;
    FoldAppend(Placements(pages, s, p), rest, TableStep(area), st);
  }

  /**
   * Within a page, the items of the first `k` tables begin the page's items: a
   * continuation row never merges into an item of an earlier table.
   */
  lemma {:induction false} PageOutcomePrefix(tables: seq<Table>, k: nat, page: nat, area: Area, st: Caches)
    requires k <= |tables|
    ensures IsPrefix(PageOutcome(tables[..k], page, area, st).0, PageOutcome(tables, page, area, st).0)
  {
    var all := OnPage(tables, page);
    assert OnPage(tables[..k], page) == all[..k];
    assert all == all[..k] + all[k..];
    FoldAppend(all[..k], all[k..], TableStep(area), st);
  }

  /** `a` begins `b`. */
  predicate IsPrefix<T(==)>(a: seq<T>, b: seq<T>) {
    |a| <= |b| && b[..|a|] == a
  }

  // ------------------------------------------------------------------ parser

  /** For 農政 with nothing mapped, the first of the first six rows that looks like a split header replaces the header. */
  method RescanHeader(table: Table, header: Row, hidx: nat, cols: ColumnMap, eff: Area)
    returns (header': Row, hidx': nat, cols': ColumnMap)
    ensures (header', hidx', cols') == Rescan(table, header, hidx, cols, eff)
  {
    header', hidx', cols' := header, hidx, cols;
    if eff == Nousei && cols == [] {
      var best := FindSplitHeader(table);
      if best.Some? {
        header', hidx' := table[best.value], best.value;
        cols' := GetColumnMapping(header', Nousei);
      }
    }
  }

  /** The first of the first six rows that looks like a split header, if any. */
  method FindSplitHeader(table: Table) returns (best: Option<nat>)
    ensures best == SplitHeaderFrom(table, 0, ScanLimit(table))
  {
    var limit := ScanLimit(table);
    best := None;
    var i := 0;
    while i < limit && best.None?
      invariant i <= limit
      invariant best.None? ==> SplitHeaderFrom(table, 0, limit) == SplitHeaderFrom(table, i, limit)
      invariant best.Some? ==> best == SplitHeaderFrom(table, 0, limit)
      decreases limit - i, best.None?
    {
      if SplitHeaderRow(table[i]) {
        best := Some(i);
      } else {
        i := i + 1;
      }
    }
  }

  /** With nothing mapped still: the minimal 農政 map, or the fallback area's patterns, or no plan. */
  method FinishPlan(header: Row, hidx: nat, cols: ColumnMap, eff: Area) returns (plan: Option<Plan>)
    ensures plan == PlanFrom(header, hidx, cols, eff)
  {
    var area, mapped := eff, cols;
    if mapped == [] {
      if area == Nousei {
        mapped := [(NouseiNameCol, 0)];
      } else {
        var fb := FallbackArea(area);
        mapped := GetColumnMapping(header, fb);
        if mapped == [] {
          return None;
        }
        area := fb;
      }
    }
    plan := Some(Plan(area, mapped, hidx));
  }

  class TableParser {
    var nouseiGlobalCols: Option<ColumnMap>
    var nouseiLastCols: Option<ColumnMap>

    function State(): Caches
      reads this
    {
      Caches(nouseiGlobalCols, nouseiLastCols)
    }

    /** A new parser: neither field is set yet. */
    constructor()
      ensures State() == Caches(None, None)
    {
      nouseiGlobalCols := None;
      nouseiLastCols := None;
    }

    /**
     * The first half of `_process_single_table` for a table of two or more
     * rows: header row, effective area, column map (from the global cache,
     * the header, a rescan of the first rows for 農政, the minimal 農政 map or
     * the fallback area), or nothing.
     */
    method PlanTable(table: Table, area: Area) returns (plan: Option<Plan>)
      ensures plan == TablePlan(table, area, nouseiGlobalCols)
    {
      if FindHeaderRow(table).None? && area != Nousei {
        return None;
      }
      var (header, hidx) := HeaderOf(table);
      var eff := DetectArea(header).GetOr(area);
      var cols: ColumnMap;
      if eff == Nousei && Cached(nouseiGlobalCols) {
        cols := nouseiGlobalCols.value;
      } else {
        cols := GetColumnMapping(header, eff);
      }
      assert cols == FirstMapping(header, eff, nouseiGlobalCols);
      header, hidx, cols := RescanHeader(table, header, hidx, cols, eff);
      plan := FinishPlan(header, hidx, cols, eff);
    }

    /** `_process_single_table` */
    method ProcessSingleTable(table: Table, page: nat, area: Area) returns (items: seq<TenderItem>)
      modifies this
      ensures (items, State()) == TableOutcome(table, page, area, old(State()))
    {
      items := [];
      if |table| < 2 {
        return;
      }
      ghost var st := State();
      var plan := PlanTable(table, area);
      OutcomeByPlan(table, page, area, st, plan);
      if plan.None? {
        return;
      }
      var Plan(eff, cols, hidx) := plan.value;
      RememberColumns(plan.value);
      if eff == Nousei {
        items := NouseiRowItems(table, cols, page);
      } else {
        items := ProcessRows(Drop(table, hidx + 1), cols, eff, page);
      }
    }

    /**
     * The fields after the columns of a table are known: a complete 農政 map is
     * cached when none is, and every 農政 map is remembered as the last one.
     */
    method RememberColumns(plan: Plan)
      modifies this
      ensures State() == NextCaches(Some(plan), old(State()))
    {
      var Plan(eff, cols, _) := plan;
      if eff == Nousei && cols != [] && !Cached(nouseiGlobalCols) && HasKey(cols, QtyCol) && HasKey(cols, UnitCol) {
        nouseiGlobalCols := Some(cols);
      }
      if eff == Nousei {
        // `_nousei_last_cols` would be reused for an empty map, which never reaches this point
        nouseiLastCols := Some(cols);
      }
    }

    /** `_extract_tables_from_page` */
    method ExtractTablesFromPage(tables: seq<Table>, page: nat, area: Area) returns (items: seq<TenderItem>)
      modifies this
      ensures (items, State()) == PageOutcome(tables, page, area, old(State()))
    {
      items := [];
      ghost var st := State();
      var t := 0;
      while t < |tables|
        invariant t <= |tables|
        invariant (items, State()) == Outcome(OnPage(tables, page)[..t], area, st)
      {
        assert OnPage(tables, page)[..t + 1] == OnPage(tables, page)[..t] + [Placed(page, tables[t])];
        items := ReadNext(OnPage(tables, page)[..t], Placed(page, tables[t]), area, st, items);
        t := t + 1;
      }
      assert OnPage(tables, page)[..t] == OnPage(tables, page);
    }

    /** One pass of the loop of `_extract_tables_from_page`: the next table's items follow the earlier ones. */
    method ReadNext(done: seq<Placed>, x: Placed, area: Area, ghost st: Caches, items: seq<TenderItem>)
      returns (items': seq<TenderItem>)
      modifies this
      requires (items, State()) == Outcome(done, area, st)
      ensures (items', State()) == Outcome(done + [x], area, st)
    {
      ghost var before := State();
      FoldSnoc(done, x, TableStep(area), st);
      assert TableStep(area)(x, before) == TableOutcome(x.table, x.page, area, before);
      var more := ProcessSingleTable(x.table, x.page, area);
      items' := items + more;
    }

    /** `extract_tables_with_range` over the tables of every page of the document. */
    method ExtractTablesWithRange(pages: seq<seq<Table>>, start: Option<int>, end: Option<int>, area: Area)
      returns (items: seq<TenderItem>)
      modifies this
      ensures (items, State()) == RangeOutcome(pages, start, end, area, old(State()))
    {
      items := [];
      var s, e := FirstPage(start), LastPage(|pages|, end);
      if s > e {
        return;
      }
      nouseiGlobalCols := None;
      ghost var st := State();
      var p := s;
      while p <= e
        invariant s <= p <= e + 1
        invariant (items, State()) == PagesOutcome(pages, s, p, area, st)
      {
        items := ReadPage(pages, s, p, area, st, items);
        p := p + 1;
      }
    }

    /** One pass of the loop of `extract_tables_with_range`: the next page's items follow the earlier ones. */
    method ReadPage(pages: seq<seq<Table>>, s: nat, p: nat, area: Area, ghost st: Caches, items: seq<TenderItem>)
      returns (items': seq<TenderItem>)
      modifies this
      requires s <= p < |pages|
      requires (items, State()) == PagesOutcome(pages, s, p, area, st)
      ensures (items', State()) == PagesOutcome(pages, s, p + 1, area, st)
    {
      FoldAppend(Placements(pages, s, p), OnPage(pages[p], p), TableStep(area), st);
      var more := ExtractTablesFromPage(pages[p], p, area);
      items' := items + more;
    }
  }
}

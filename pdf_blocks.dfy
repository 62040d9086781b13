/**
 * The 農政 sub-table reader of `PDFParser._extract_nousei_subtables`: a block
 * state carried across rows, tables and pages. A row starting with three dots
 * (・・・ or ･･･) opens a block; the block's first captured row gives it the
 * next reference name `内N号`; any dotted row or blank row closes it.
 */
module PdfBlocks {
  import opened Wrappers
  import opened Text
  import opened Grid
  import opened Numbers
  import opened TenderSchema
  import opened RefNames
  import opened PdfParser
  import opened PdfNousei

  const RefCol := "参照番号"

  /**
   * `in_block`, `block_index`, `current_reference` (kept as its number) and
   * `pending_reference_index`.
   */
  datatype BlockState = BlockState(inBlock: bool, blockIndex: nat, current: Option<nat>, pending: Option<nat>)

  const Initial := BlockState(false, 0, None, None)

  /** The state after a block closes: the counter is kept, everything else cleared. */
  function Closed(st: BlockState): BlockState {
    BlockState(false, st.blockIndex, None, None)
  }

  /** The state and the items collected so far. */
  datatype Scan = Scan(st: BlockState, items: seq<SubtableItem>)

  // ------------------------------------------------------------- one row

  /** `lead_text`: the first present, non-empty cell, left-stripped of spaces, tabs and ideographic spaces. */
  function LeadText(row: Row): string
    decreases |row|
  {
    if row == [] then []
    else if Truthy(row[0]) then LStripBlank(row[0].value)
    else LeadText(row[1..])
  }

  /** A text opening with ＊ or *: an equipment or note row. */
  predicate StartsNote(s: string) {
    s != [] && (s[0] == '＊' || s[0] == '*')
  }

  /** The index of the first cell with text from `from` on: where `name` comes from. */
  function FirstTextIndex(row: Row, from: nat): (r: Option<nat>)
    ensures r.Some? ==> from <= r.value < |row| && HasText(row[r.value])
    ensures r.Some? ==> forall j :: from <= j < r.value ==> !HasText(row[j])
    ensures r.None? ==> forall j :: from <= j < |row| ==> !HasText(row[j])
    decreases |row| - from
  {
    if from >= |row| then None
    else if HasText(row[from]) then Some(from)
    else FirstTextIndex(row, from + 1)
  }

  /** The quantity of a block row: the first quantity-like cell without commas, 0.0 without one. */
  function BlockQuantity(row: Row): real {
    match CellTextOf(row, 0, BlockQtyCell)
    case Some(q) => ParseFloat(RemoveCommas(q)).GetOr(0.0)
    case None => 0.0
  }

  /**
   * The item of a block row whose name is cell `i`, in block `n` on page
   * `page` (counted from 0): the 規格 is the first candidate right of the
   * name, 単位 and 数量 the first unit word and quantity anywhere in the row.
   */
  function BlockItem(row: Row, i: nat, n: nat, page: nat): SubtableItem
    requires i < |row|
  {
    var name := CellText(row[i]);
    var spec := CellTextOf(row, i + 1, SpecCell).GetOr([]);
    var unit := CellTextOf(row, 0, UnitCell);
    var qty := BlockQuantity(row);
    var qtyText := if qty != 0.0 then NoCommaText(CellTextOf(row, 0, BlockQtyCell).GetOr([])) else [];
    var raw := [(NouseiNameCol, name), (SpecCol, spec), (UnitCol, unit.GetOr([])), (QtyCol, qtyText),
                (RemarksCol, []), (RefCol, RefName(n))];
    SubtableItem(if spec != [] then Strip(name + " " + spec) else name, raw, qty, unit, PDF,
                 Some(page + 1), Some(RefName(n)), None, None)
  }

  /** One row of a table scanned on page `page`. */
  function StepRow(sc: Scan, row: Row, page: nat): Scan {
    var st := sc.st;
    var lead := LeadText(row);
    if StartsDotted(lead) then
      var open := if st.inBlock then Closed(st) else st;
      if LeadingDots(lead) == 3 then Scan(BlockState(true, open.blockIndex, None, Some(open.blockIndex + 1)), sc.items)
      else Scan(open, sc.items)
    else if !st.inBlock then sc
    else if RowBlank(row) then Scan(Closed(st), sc.items)
    else if StartsNote(lead) then sc
    else
      match FirstTextIndex(row, 0)
      case None => sc
      case Some(i) =>
        if StartsNote(LStripBlank(CellText(row[i]))) then sc else Capture(sc, row, i, page)
  }

  /**
   * A captured row: the pending reference becomes current on the block's
   * first captured row, and the row's item joins the current block.
   */
  function Capture(sc: Scan, row: Row, i: nat, page: nat): Scan
    requires i < |row|
  {
    var st := sc.st;
    var active := if st.current.None? && st.pending.Some?
                  then BlockState(st.inBlock, st.pending.value, Some(st.pending.value), None)
                  else st;
    match active.current
    case None => Scan(active, sc.items)
    case Some(n) => Scan(active, sc.items + [BlockItem(row, i, n, page)])
  }

  // ------------------------------------------------------- tables, pages

  function RowsScan(sc: Scan, rows: seq<Row>, page: nat): Scan
    decreases |rows|
  {
    if rows == [] then sc else StepRow(RowsScan(sc, rows[..|rows| - 1], page), rows[|rows| - 1], page)
  }

  /** A table with fewer than two rows is passed over. */
  function TableScan(sc: Scan, table: Table, page: nat): Scan {
    if |table| < 2 then sc else RowsScan(sc, table, page)
  }

  function TablesScan(sc: Scan, tables: seq<Table>, page: nat): Scan
    decreases |tables|
  {
    if tables == [] then sc else TableScan(TablesScan(sc, tables[..|tables| - 1], page), tables[|tables| - 1], page)
  }

  /** Pages `s` up to but not including `p`, each given as the tables found on it. */
  function PagesScan(sc: Scan, pages: seq<seq<Table>>, s: nat, p: nat): Scan
    requires s <= p <= |pages|
    decreases p - s
  {
    if p == s then sc else TablesScan(PagesScan(sc, pages, s, p - 1), pages[p - 1], p - 1)
  }

  /** `_extract_nousei_subtables` over the tables of each page of the document. */
  function NouseiSubtables(pages: seq<seq<Table>>, start: Option<int>, end: Option<int>): seq<SubtableItem> {
    var s, e := FirstPage(start), LastPage(|pages|, end);
    if s > e then [] else PagesScan(Scan(Initial, []), pages, s, e + 1).items
  }

  /** The reader with its loops over pages and tables; the rows of a table are read by `ReadTable`. */
  method ExtractNouseiSubtables(pages: seq<seq<Table>>, start: Option<int>, end: Option<int>)
    returns (items: seq<SubtableItem>)
    ensures items == NouseiSubtables(pages, start, end)
  {
    var s, e := FirstPage(start), LastPage(|pages|, end);
    items := [];
    if s > e {
      return;
    }
    var st := Initial;
    var p := s;
    while p <= e
      invariant s <= p <= e + 1
      invariant Scan(st, items) == PagesScan(Scan(Initial, []), pages, s, p)
    {
      var tables := pages[p];
      ghost var before := PagesScan(Scan(Initial, []), pages, s, p);
      var t := 0;
      while t < |tables|
        invariant 0 <= t <= |tables|
        invariant Scan(st, items) == TablesScan(before, tables[..t], p)
      {
        assert tables[..t + 1][..t] == tables[..t];
        st, items := ReadTable(st, items, tables[t], p);
        t := t + 1;
      }
      assert tables[..t] == tables;
      p := p + 1;
    }
  }

  /** One table: a table of fewer than two rows is passed over, otherwise each row is read in turn. */
  method ReadTable(st: BlockState, items: seq<SubtableItem>, table: Table, page: nat)
    returns (st': BlockState, items': seq<SubtableItem>)
    ensures Scan(st', items') == TableScan(Scan(st, items), table, page)
  {
    st', items' := st, items;
    if |table| >= 2 {
      var r := 0;
      while r < |table|
        invariant 0 <= r <= |table|
        invariant Scan(st', items') == RowsScan(Scan(st, items), table[..r], page)
      {
        assert table[..r + 1][..r] == table[..r];
        st', items' := ReadRow(st', items', table[r], page);
        r := r + 1;
      }
      assert table[..r] == table;
    }
  }

  /** One row, with the block state held in the reader's local variables. */
  method ReadRow(st: BlockState, items: seq<SubtableItem>, row: Row, page: nat)
    returns (st': BlockState, items': seq<SubtableItem>)
    ensures Scan(st', items') == StepRow(Scan(st, items), row, page)
  {
    var inBlock, blockIndex, current, pending := st.inBlock, st.blockIndex, st.current, st.pending;
    items' := items;
    var lead := LeadText(row);
    if StartsDotted(lead) {
      if inBlock {
        inBlock, current, pending := false, None, None;
      }
      if LeadingDots(lead) == 3 {
        inBlock, pending, current := true, Some(blockIndex + 1), None;
      }
    } else if inBlock {
      if RowBlank(row) {
        inBlock, current, pending := false, None, None;
      } else if !StartsNote(lead) {
        var idx := FirstTextIndex(row, 0);
        if idx.Some? && !StartsNote(LStripBlank(CellText(row[idx.value]))) {
          if current.None? && pending.Some? {
            blockIndex := pending.value;
            current := Some(blockIndex);
            pending := None;
          }
          if current.Some? {
            items' := items' + [BlockItem(row, idx.value, current.value, page)];
          }
        }
      }
    }
    st' := BlockState(inBlock, blockIndex, current, pending);
  }

  // ------------------------------------------------------------ properties

  /**
   * The block state's own invariant: inside a block exactly one of the
   * current and the pending reference is set; the current one is the counter,
   * the pending one the counter plus one; outside a block both are cleared.
   */
  predicate Inv(st: BlockState) {
    && (st.current.Some? ==> st.inBlock && st.pending.None? && st.current.value == st.blockIndex)
    && (st.pending.Some? ==> st.inBlock && st.pending.value == st.blockIndex + 1)
    && (st.inBlock ==> st.current.Some? || st.pending.Some?)
  }

  /** The block number an item's reference name carries (0 when it has none). */
  function BlockOf(item: SubtableItem): nat {
    RefNum(item.referenceNumber.GetOr([])).GetOr(0)
  }

  /** A block item: from the PDF, with six raw fields, the last its reference name. */
  predicate ItemShaped(item: SubtableItem) {
    && item.source == PDF
    && item.referenceNumber == Some(RefName(BlockOf(item)))
    && |item.rawFields| == 6 && item.rawFields[5] == (RefCol, RefName(BlockOf(item)))
  }

  /**
   * The numbering the scan keeps: items are shaped, the first is in block 1,
   * each next one in the same block or the next, the last in the counter's
   * block; nothing was collected while the counter is 0.
   */
  predicate Numbered(sc: Scan) {
    var items := sc.items;
    && Inv(sc.st)
    && (forall i :: 0 <= i < |items| ==> ItemShaped(items[i]))
    && (items == [] ==> sc.st.blockIndex == 0 && sc.st.current.None?)
    && (items != [] ==> BlockOf(items[0]) == 1 && BlockOf(items[|items| - 1]) == sc.st.blockIndex)
    && (forall i :: 0 < i < |items| ==> BlockOf(items[i]) == BlockOf(items[i - 1]) || BlockOf(items[i]) == BlockOf(items[i - 1]) + 1)
  }

  lemma {:induction false} BlockItemShaped(row: Row, i: nat, n: nat, page: nat)
    requires i < |row|
    ensures var item := BlockItem(row, i, n, page);
            ItemShaped(item) && BlockOf(item) == n && item.pageNumber == Some(page + 1)
  {
    RefNumName(n);
  }

  /** Appending an item of the counter's block, or of the next block when it becomes the counter, keeps the numbering. */
  lemma {:induction false} AppendNumbered(items: seq<SubtableItem>, x: SubtableItem, last: nat, n: nat)
    requires forall i :: 0 <= i < |items| ==> ItemShaped(items[i])
    requires items != [] ==> BlockOf(items[0]) == 1 && BlockOf(items[|items| - 1]) == last
    requires items == [] ==> last == 0
    requires forall i :: 0 < i < |items| ==> BlockOf(items[i]) == BlockOf(items[i - 1]) || BlockOf(items[i]) == BlockOf(items[i - 1]) + 1
    requires ItemShaped(x) && BlockOf(x) == n && (n == last + 1 || (items != [] && n == last))
    ensures var r := items + [x];
            && (forall i :: 0 <= i < |r| ==> ItemShaped(r[i]))
            && BlockOf(r[0]) == 1 && BlockOf(r[|r| - 1]) == n
            && (forall i :: 0 < i < |r| ==> BlockOf(r[i]) == BlockOf(r[i - 1]) || BlockOf(r[i]) == BlockOf(r[i - 1]) + 1)
  {
    var r := items + [x];
    assert forall i :: 0 <= i < |items| ==> r[i] == items[i];
  }

  lemma {:induction false} StepRowNumbered(sc: Scan, row: Row, page: nat)
    requires Numbered(sc)
    ensures Numbered(StepRow(sc, row, page))
  {
    var st := sc.st;
    var lead := LeadText(row);
    if StartsDotted(lead) {
      var open := if st.inBlock then Closed(st) else st;
      if LeadingDots(lead) == 3 {
        StateNumbered(sc, BlockState(true, open.blockIndex, None, Some(open.blockIndex + 1)));
      } else {
        StateNumbered(sc, open);
      }
    } else if st.inBlock && RowBlank(row) {
      StateNumbered(sc, Closed(st));
    } else if st.inBlock && !StartsNote(lead) {
      match FirstTextIndex(row, 0)
      case None =>
      case Some(i) =>
        if !StartsNote(LStripBlank(CellText(row[i]))) {
          CaptureNumbered(sc, row, i, page);
        }
    }
  }

  /** A new state with the same counter that obeys the invariant keeps the numbering of unchanged items. */
  lemma {:induction false} StateNumbered(sc: Scan, st: BlockState)
    requires Numbered(sc) && Inv(st) && st.blockIndex == sc.st.blockIndex
    requires sc.items == [] ==> st.current.None?
    ensures Numbered(Scan(st, sc.items))
  {
  }

  lemma {:induction false} CaptureNumbered(sc: Scan, row: Row, i: nat, page: nat)
    requires Numbered(sc) && i < |row|
    ensures Numbered(Capture(sc, row, i, page))
  {
    var st := sc.st;
    var active := if st.current.None? && st.pending.Some?
                  then BlockState(st.inBlock, st.pending.value, Some(st.pending.value), None)
                  else st;
    if active.current.Some? {
      var n := active.current.value;
      var x := BlockItem(row, i, n, page);
      BlockItemShaped(row, i, n, page);
      ActiveNumbered(sc, active, x);
    }
  }

  /** The item appended in the current block, once the pending number is taken, keeps the numbering. */
  lemma {:induction false} ActiveNumbered(sc: Scan, active: BlockState, x: SubtableItem)
    requires Numbered(sc)
    requires active == if sc.st.current.None? && sc.st.pending.Some?
                       then BlockState(sc.st.inBlock, sc.st.pending.value, Some(sc.st.pending.value), None)
                       else sc.st
    requires active.current.Some? && ItemShaped(x) && BlockOf(x) == active.current.value
    ensures Numbered(Scan(active, sc.items + [x]))
  {
    AppendNumbered(sc.items, x, sc.st.blockIndex, active.current.value);
  }

  lemma {:induction false} RowsScanNumbered(sc: Scan, rows: seq<Row>, page: nat)
    requires Numbered(sc)
    ensures Numbered(RowsScan(sc, rows, page))
    decreases |rows|
  {
    if rows != [] {
      RowsScanNumbered(sc, rows[..|rows| - 1], page);
      StepRowNumbered(RowsScan(sc, rows[..|rows| - 1], page), rows[|rows| - 1], page);
    }
  }

  lemma {:induction false} TablesScanNumbered(sc: Scan, tables: seq<Table>, page: nat)
    requires Numbered(sc)
    ensures Numbered(TablesScan(sc, tables, page))
    decreases |tables|
  {
    if tables != [] {
      var init := tables[..|tables| - 1];
      TablesScanNumbered(sc, init, page);
      RowsScanNumbered(TablesScan(sc, init, page), tables[|tables| - 1], page);
    }
  }

  lemma {:induction false} PagesScanNumbered(sc: Scan, pages: seq<seq<Table>>, s: nat, p: nat)
    requires s <= p <= |pages| && Numbered(sc)
    ensures Numbered(PagesScan(sc, pages, s, p))
    decreases p - s
  {
    if p > s {
      var mid := PagesScan(sc, pages, s, p - 1);
      PagesScanNumbered(sc, pages, s, p - 1);
      TablesScanNumbered(mid, pages[p - 1], p - 1);
      assert PagesScan(sc, pages, s, p) == TablesScan(mid, pages[p - 1], p - 1);
    }
  }

  /**
   * The items carry reference names `内N号` numbered from 1 with no gaps:
   * each item is in the block of the one before it or in the next block,
   * and its 参照番号 field repeats its reference name.
   */
  lemma {:induction false} NouseiSubtablesNumbered(pages: seq<seq<Table>>, start: Option<int>, end: Option<int>)
    ensures var items := NouseiSubtables(pages, start, end);
            && (items != [] ==> BlockOf(items[0]) == 1)
            && (forall i :: 0 <= i < |items| ==> ItemShaped(items[i]))
            && (forall i :: 0 < i < |items| ==> BlockOf(items[i]) == BlockOf(items[i - 1]) || BlockOf(items[i]) == BlockOf(items[i - 1]) + 1)
  {
    var s, e := FirstPage(start), LastPage(|pages|, end);
    if s <= e {
      PagesScanNumbered(Scan(Initial, []), pages, s, e + 1);
    }
  }

  /** `b` keeps the items of `a` and adds only items whose page number lies in `lo..hi`. */
  predicate Extends(a: seq<SubtableItem>, b: seq<SubtableItem>, lo: int, hi: int) {
    && |a| <= |b| && b[..|a|] == a
    && forall i :: |a| <= i < |b| ==> b[i].pageNumber.Some? && lo <= b[i].pageNumber.value <= hi
  }

  /** One row adds at most one item, on its page, and keeps the earlier ones. */
  lemma {:induction false} StepRowExtends(sc: Scan, row: Row, page: nat)
    ensures var r := StepRow(sc, row, page);
            |r.items| <= |sc.items| + 1 && Extends(sc.items, r.items, page + 1, page + 1)
  {
    var lead := LeadText(row);
    if !StartsDotted(lead) && sc.st.inBlock && !RowBlank(row) && !StartsNote(lead) {
      match FirstTextIndex(row, 0)
      case None =>
      case Some(i) =>
        if !StartsNote(LStripBlank(CellText(row[i]))) {
          CaptureExtends(sc, row, i, page);
        }
    }
  }

  lemma {:induction false} CaptureExtends(sc: Scan, row: Row, i: nat, page: nat)
    requires i < |row|
    ensures var r := Capture(sc, row, i, page);
            |r.items| <= |sc.items| + 1 && Extends(sc.items, r.items, page + 1, page + 1)
  {
    var r := Capture(sc, row, i, page);
    assert r.items[..|sc.items|] == sc.items;
  }

  lemma {:induction false} RowsScanExtends(sc: Scan, rows: seq<Row>, page: nat)
    ensures Extends(sc.items, RowsScan(sc, rows, page).items, page + 1, page + 1)
    decreases |rows|
  {
    if rows == [] {
      assert sc.items[..|sc.items|] == sc.items;
    } else {
      var mid := RowsScan(sc, rows[..|rows| - 1], page);
      var r := RowsScan(sc, rows, page);
      assert r == StepRow(mid, rows[|rows| - 1], page);
      RowsScanExtends(sc, rows[..|rows| - 1], page);
      StepRowExtends(mid, rows[|rows| - 1], page);
      ExtendsTrans(sc.items, mid.items, r.items, page + 1, page + 1);
    }
  }

  /** Two extensions in a row extend. */
  lemma {:induction false} ExtendsTrans(a: seq<SubtableItem>, b: seq<SubtableItem>, c: seq<SubtableItem>, lo: int, hi: int)
    requires Extends(a, b, lo, hi) && Extends(b, c, lo, hi)
    ensures Extends(a, c, lo, hi)
  {
    assert forall i :: |a| <= i < |b| ==> c[i] == b[i];
  }

  /** An extension within a narrower range of pages is one within a wider range. */
  lemma {:induction false} ExtendsWiden(a: seq<SubtableItem>, b: seq<SubtableItem>, lo: int, hi: int, lo': int, hi': int)
    requires Extends(a, b, lo, hi) && lo' <= lo && hi <= hi'
    ensures Extends(a, b, lo', hi')
  {
  }

  lemma {:induction false} TablesScanExtends(sc: Scan, tables: seq<Table>, page: nat)
    ensures Extends(sc.items, TablesScan(sc, tables, page).items, page + 1, page + 1)
    decreases |tables|
  {
    if tables == [] {
      assert sc.items[..|sc.items|] == sc.items;
    } else {
      var last := tables[|tables| - 1];
      var mid := TablesScan(sc, tables[..|tables| - 1], page);
      var r := TablesScan(sc, tables, page);
      assert r == TableScan(mid, last, page);
      TablesScanExtends(sc, tables[..|tables| - 1], page);
      if |last| < 2 {
        assert r == mid;
      } else {
        assert r == RowsScan(mid, last, page);
        RowsScanExtends(mid, last, page);
        ExtendsTrans(sc.items, mid.items, r.items, page + 1, page + 1);
      }
    }
  }

  lemma {:induction false} PagesScanExtends(sc: Scan, pages: seq<seq<Table>>, s: nat, p: nat)
    requires s <= p <= |pages|
    ensures Extends(sc.items, PagesScan(sc, pages, s, p).items, s + 1, p)
    decreases p - s
  {
    if p == s {
      assert sc.items[..|sc.items|] == sc.items;
    } else {
      var mid := PagesScan(sc, pages, s, p - 1);
      var r := PagesScan(sc, pages, s, p);
      assert r == TablesScan(mid, pages[p - 1], p - 1);
      PagesScanExtends(sc, pages, s, p - 1);
      TablesScanExtends(mid, pages[p - 1], p - 1);
      ExtendsWiden(sc.items, mid.items, s + 1, p - 1, s + 1, p);
      ExtendsWiden(mid.items, r.items, p, p, s + 1, p);
      ExtendsTrans(sc.items, mid.items, r.items, s + 1, p);
    }
  }

  /** Every item lies on a page of the requested range, numbered from 1. */
  lemma {:induction false} NouseiSubtablesPages(pages: seq<seq<Table>>, start: Option<int>, end: Option<int>)
    ensures var items := NouseiSubtables(pages, start, end);
            forall i :: 0 <= i < |items| ==>
              items[i].pageNumber.Some? && FirstPage(start) + 1 <= items[i].pageNumber.value <= LastPage(|pages|, end) + 1
              && 1 <= items[i].pageNumber.value <= |pages|
  {
    var s, e := FirstPage(start), LastPage(|pages|, end);
    if s <= e {
      PagesScanExtends(Scan(Initial, []), pages, s, e + 1);
    }
  }
}

/**
 * Table discovery and extraction in the corrected border-driven reader
 * (excel_table_extractor_corrected.py): the header pattern, the title row, the table bounds
 * with their three-empty-rows cut-off, and the extraction of every table that has data rows.
 */
module ExcelTables {
  import opened Wrappers
  import opened Text
  import opened ExcelBorders

  /**
   * The literals the reader matches: the five header words the header pattern expects in
   * order, the title word, and the two words of the tax split.
   */
  datatype Markers = Markers(header: seq<string>, title: string, tax: string, price: string)

  /** The literals as the source spells them (mis-decoded Japanese, so real sheets rarely match). */
  const SourceMarkers: Markers := Markers(
    ["\U{00CB}\U{2264}\U{00AA}\U{00C1}\U{00F5}\U{00C6}",
     "\U{00C2}\U{2211}\U{2022}\U{00C1}\U{00AE}\U{00C6}",
     "\U{00C1}\U{00AE}\U{00C6}\U{00C2}\U{00E0}\U{2022}",
     "\U{00C1}\U{00A5}\U{221E}\U{00C2}\U{00E0}\U{2022}",
     "\U{00CB}\U{00B6}\U{00E8}\U{00CA}\U{2020}\U{00BA}"],
    "\U{00C2}\U{00DC}\U{00D6}\U{00CB}\U{00AE}\U{2265}\U{00CA}\U{00F5}\U{220F}",
    TaxWord, PriceWord)

  function Max(a: int, b: int): int { if a >= b then a else b }
  function Min(a: int, b: int): int { if a <= b then a else b }

  // ------------------------------------------------------------------- row text

  /** The non-empty values of columns `col..maxCol`, each followed by one space. */
  function RowTextFrom(sh: Sheet, row: int, col: int): string
    decreases sh.maxCol + 1 - col
  {
    if col > sh.maxCol then []
    else (if sh.value(row, col) != [] then sh.value(row, col) + " " else []) + RowTextFrom(sh, row, col + 1)
  }

  /** The `row_text` the header and title searches build. */
  function RowText(sh: Sheet, row: int): string {
    RowTextFrom(sh, row, 1)
  }

  /** The `row_text` loop. */
  method ReadRowText(sh: Sheet, row: int) returns (t: string)
    ensures t == RowText(sh, row)
  {
    t := [];
    var col := 1;
    while col <= sh.maxCol
      invariant t + RowTextFrom(sh, row, col) == RowText(sh, row)
      decreases sh.maxCol + 1 - col
    {
      var v := sh.value(row, col);
      if v != [] {
        assert RowTextFrom(sh, row, col) == v + " " + RowTextFrom(sh, row, col + 1);
        assert t + v + " " + RowTextFrom(sh, row, col + 1) == t + RowTextFrom(sh, row, col);
        t := t + v + " ";
      } else {
        assert RowTextFrom(sh, row, col) == RowTextFrom(sh, row, col + 1);
      }
      col := col + 1;
    }
  }

  // ------------------------------------------------------------ header pattern

  /**
   * Where the regular-expression engine places `w` when it scans `s` from the left: the first
   * index at which `w` occurs. Its contract is kept to the bound; occurrence and minimality are
   * the lemmas `SearchFound` and `SearchAtMost`.
   */
  function Search(s: string, w: string): (r: Option<nat>)
    ensures r.Some? ==> r.value + |w| <= |s|
    decreases |s|
  {
    if StartsWith(s, w) then Some(0)
    else if s == [] then None
    else
      match Search(s[1..], w)
      case Some(i) => Some(i + 1)
      case None => None
  }

  /** A search that succeeds lands on an occurrence. */
  lemma {:induction false} SearchFound(s: string, w: string)
    requires Search(s, w).Some?
    ensures s[Search(s, w).value..Search(s, w).value + |w|] == w
    decreases |s|
  {
    if !StartsWith(s, w) {
      SearchFound(s[1..], w);
      var i := Search(s[1..], w).value;
      assert s[1..][i..i + |w|] == s[i + 1..i + 1 + |w|];
    }
  }

  /** An occurrence at `i` means the search succeeds at `i` or before. */
  lemma {:induction false} SearchAtMost(s: string, w: string, i: nat)
    requires i + |w| <= |s| && s[i..i + |w|] == w
    ensures Search(s, w).Some? && Search(s, w).value <= i
    decreases i
  {
    if i == 0 {
      assert s[..|w|] == s[0..|w|];
    } else if !StartsWith(s, w) {
      assert s[1..][i - 1..i - 1 + |w|] == s[i..i + |w|];
      SearchAtMost(s[1..], w, i - 1);
    }
  }

  /** A search that succeeds found a substring. */
  lemma {:induction false} SearchContains(s: string, w: string)
    requires Search(s, w).Some?
    ensures Contains(s, w)
  {
    SearchFound(s, w);
    ContainsAt(s, w, Search(s, w).value);
  }

  /**
   * `re.search('(w1.*w2.*...)', s)`: the words occur in order without overlapping, each
   * searched for from the end of the previous one (`.` meets no newline: cleaned values
   * hold none).
   */
  predicate InOrder(s: string, ws: seq<string>)
    decreases |ws|
  {
    ws == [] || (Search(s, ws[0]).Some? && InOrder(s[Search(s, ws[0]).value + |ws[0]|..], ws[1..]))
  }

  /** Dropping `a` and then `b` characters drops `a + b`. */
  lemma {:induction false} DropDrop(s: string, a: nat, b: nat)
    requires a + b <= |s|
    ensures s[a..][b..] == s[a + b..]
  {
  }

  /** The first occurrence in a suffix is an occurrence in the whole text. */
  lemma {:induction false} SearchInSuffix(s: string, i: nat, w: string)
    requires i <= |s| && Search(s[i..], w).Some?
    ensures i + Search(s[i..], w).value + |w| <= |s|
    ensures s[i + Search(s[i..], w).value..i + Search(s[i..], w).value + |w|] == w
  {
    var k := Search(s[i..], w).value;
    SearchFound(s[i..], w);
    assert s[i..][k..k + |w|] == s[i + k..i + k + |w|];
  }

  /** A match in a suffix is a match in the whole text. */
  lemma {:induction false} InOrderSuffix(s: string, i: nat, ws: seq<string>)
    requires i <= |s| && InOrder(s[i..], ws)
    ensures InOrder(s, ws)
    decreases |ws|
  {
    if ws != [] {
      var w := ws[0];
      var k := Search(s[i..], w).value;
      SearchInSuffix(s, i, w);
      SearchAtMost(s, w, i + k);
      var f := Search(s, w).value;
      var after := s[f + |w|..];
      DropDrop(s, i, k + |w|);
      DropDrop(s, f + |w|, i + k - f);
      InOrderSuffix(after, i + k - f, ws[1..]);
    }
  }

  /** Greedy search is complete: any placement of the first word followed by a match of the rest matches. */
  lemma {:induction false} InOrderAt(s: string, ws: seq<string>, i: nat)
    requires ws != [] && i + |ws[0]| <= |s| && s[i..i + |ws[0]|] == ws[0]
    requires InOrder(s[i + |ws[0]|..], ws[1..])
    ensures InOrder(s, ws)
  {
    var w := ws[0];
    SearchAtMost(s, w, i);
    var f := Search(s, w).value;
    var after := s[f + |w|..];
    DropDrop(s, f + |w|, i - f);
    InOrderSuffix(after, i - f, ws[1..]);
  }

  /** Every word of a match occurs in the text. */
  lemma {:induction false} InOrderContains(s: string, ws: seq<string>)
    requires InOrder(s, ws)
    ensures forall k :: 0 <= k < |ws| ==> Contains(s, ws[k])
    decreases |ws|
  {
    if ws != [] {
      var w := ws[0];
      SearchContains(s, w);
      var f := Search(s, w).value;
      var rest := s[f + |w|..];
      InOrderContains(rest, ws[1..]);
      forall k | 1 <= k < |ws| ensures Contains(s, ws[k]) {
        assert ws[k] == ws[1..][k - 1];
        ContainsInConcat(s[..f + |w|], rest, ws[k]);
        assert s[..f + |w|] + rest == s;
      }
    }
  }

  /** The header rows from `row` to `maxRow`, top to bottom. */
  function HeaderRows(sh: Sheet, header: seq<string>, row: int): seq<int>
    decreases sh.maxRow + 1 - row
  {
    if row > sh.maxRow then []
    else (if InOrder(RowText(sh, row), header) then [row] else []) + HeaderRows(sh, header, row + 1)
  }

  /** Exactly the rows from `row` on whose text matches the header pattern, in increasing order. */
  lemma {:induction false} HeaderRowsSpec(sh: Sheet, header: seq<string>, row: int)
    ensures forall k :: 0 <= k < |HeaderRows(sh, header, row)| ==>
              row <= HeaderRows(sh, header, row)[k] <= sh.maxRow
              && InOrder(RowText(sh, HeaderRows(sh, header, row)[k]), header)
    ensures forall r :: row <= r <= sh.maxRow && InOrder(RowText(sh, r), header) ==> r in HeaderRows(sh, header, row)
    ensures forall i, j :: 0 <= i < j < |HeaderRows(sh, header, row)| ==>
              HeaderRows(sh, header, row)[i] < HeaderRows(sh, header, row)[j]
    decreases sh.maxRow + 1 - row
  {
    if row <= sh.maxRow {
      HeaderRowsSpec(sh, header, row + 1);
    }
  }

  /** The header scan of `find_table_boundaries`. */
  method FindHeaderRows(sh: Sheet, header: seq<string>) returns (starts: seq<int>)
    ensures starts == HeaderRows(sh, header, 1)
  {
    starts := [];
    var row := 1;
    while row <= sh.maxRow
      invariant starts + HeaderRows(sh, header, row) == HeaderRows(sh, header, 1)
      decreases sh.maxRow + 1 - row
    {
      var t := ReadRowText(sh, row);
      if InOrder(t, header) {
        assert HeaderRows(sh, header, row) == [row] + HeaderRows(sh, header, row + 1);
        starts := starts + [row];
      } else {
        assert HeaderRows(sh, header, row) == HeaderRows(sh, header, row + 1);
      }
      row := row + 1;
    }
  }

  // ---------------------------------------------------------------- table bounds

  /** Some column from `col` up to `maxCol` has a non-empty value in `row`. */
  predicate FilledFrom(sh: Sheet, row: int, col: int)
    decreases sh.maxCol + 1 - col
  {
    col <= sh.maxCol && (sh.value(row, col) != [] || FilledFrom(sh, row, col + 1))
  }

  /** The row has content in some column. */
  predicate Filled(sh: Sheet, row: int) {
    FilledFrom(sh, row, 1)
  }

  lemma {:induction false} FilledFromIff(sh: Sheet, row: int, col: int)
    ensures FilledFrom(sh, row, col) <==> exists c :: col <= c <= sh.maxCol && sh.value(row, c) != []
    decreases sh.maxCol + 1 - col
  {
    if col <= sh.maxCol {
      FilledFromIff(sh, row, col + 1);
    }
  }

  /** The `has_content` loop. */
  method RowHasContent(sh: Sheet, row: int) returns (b: bool)
    ensures b == Filled(sh, row)
  {
    var col := 1;
    while col <= sh.maxCol
      invariant FilledFrom(sh, row, col) == Filled(sh, row)
      decreases sh.maxCol + 1 - col
    {
      if sh.value(row, col) != [] {
        return true;
      }
      col := col + 1;
    }
    return false;
  }

  /** The first row in `lo` up to but excluding `hi` whose text contains the title word. */
  function TitleRow(sh: Sheet, title: string, lo: int, hi: int): (r: Option<int>)
    ensures r.Some? ==> lo <= r.value < hi && Contains(RowText(sh, r.value), title)
    decreases hi - lo
  {
    if lo >= hi then None
    else if Contains(RowText(sh, lo), title) then Some(lo)
    else TitleRow(sh, title, lo + 1, hi)
  }

  /** No earlier row of the window (none at all when nothing is found) contains the title word. */
  lemma {:induction false} TitleRowFirst(sh: Sheet, title: string, lo: int, hi: int)
    ensures forall k :: lo <= k < hi && (TitleRow(sh, title, lo, hi).None? || k < TitleRow(sh, title, lo, hi).value)
              ==> !Contains(RowText(sh, k), title)
    decreases hi - lo
  {
    if lo < hi && !Contains(RowText(sh, lo), title) {
      TitleRowFirst(sh, title, lo + 1, hi);
    }
  }

  /** The title search of `find_table_boundaries`. */
  method FindTitleRow(sh: Sheet, title: string, lo: int, hi: int) returns (r: Option<int>)
    ensures r == TitleRow(sh, title, lo, hi)
  {
    var row := lo;
    while row < hi
      invariant TitleRow(sh, title, row, hi) == TitleRow(sh, title, lo, hi)
      decreases hi - row
    {
      var t := ReadRowText(sh, row);
      if Contains(t, title) {
        return Some(row);
      }
      row := row + 1;
    }
    return None;
  }

  /**
   * The empty-row scan of `find_table_boundaries` from `row`, with `count` empty rows just
   * before it: on the third empty row in a row, the row before that run; otherwise `last`.
   */
  function EndScan(sh: Sheet, row: int, last: int, count: int): int
    decreases last + 1 - row
  {
    if row > last then last
    else if !Filled(sh, row) then
      (if count + 1 >= 3 then row - (count + 1) else EndScan(sh, row + 1, last, count + 1))
    else EndScan(sh, row + 1, last, 0)
  }

  /**
   * The scan never passes `last`, and stops short of it only just before three empty rows;
   * it never ends before the row preceding the scanned range.
   */
  lemma {:induction false} EndScanSpec(sh: Sheet, row: int, last: int, count: int)
    requires 0 <= count < 3
    requires forall k :: row - count <= k < row ==> !Filled(sh, k)
    ensures EndScan(sh, row, last, count) <= last
    ensures EndScan(sh, row, last, count) >= Min(row - count - 1, last)
    ensures EndScan(sh, row, last, count) == last
            || (forall k :: EndScan(sh, row, last, count) < k <= EndScan(sh, row, last, count) + 3 ==> !Filled(sh, k))
    decreases last + 1 - row
  {
    if row <= last {
      if !Filled(sh, row) {
        if count + 1 < 3 {
          EndScanSpec(sh, row + 1, last, count + 1);
        }
      } else {
        EndScanSpec(sh, row + 1, last, 0);
      }
    }
  }

  /** The `empty_count` loop. */
  method ScanTableEnd(sh: Sheet, lo: int, last: int) returns (actual: int)
    ensures actual == EndScan(sh, lo, last, 0)
  {
    var count := 0;
    var row := lo;
    while row <= last
      invariant 0 <= count < 3
      invariant EndScan(sh, row, last, count) == EndScan(sh, lo, last, 0)
      decreases last + 1 - row
    {
      var filled := RowHasContent(sh, row);
      if !filled {
        count := count + 1;
        if count >= 3 {
          return row - count;
        }
      } else {
        count := 0;
      }
      row := row + 1;
    }
    return last;
  }

  /** The rows of one table: its first row, last row, header row and title row. */
  datatype TableBounds = TableBounds(startRow: int, endRow: int, headerRow: int, titleRow: Option<int>)

  /** The last row before the next header allows: two rows above it, or the sheet's last row. */
  function LimitAt(sh: Sheet, starts: seq<int>, i: nat): int
    requires i < |starts|
  {
    if i + 1 < |starts| then starts[i + 1] - 2 else sh.maxRow
  }

  /** The bounds `find_table_boundaries` gives the `i`-th header row. */
  function BoundsAt(sh: Sheet, m: Markers, starts: seq<int>, i: nat): TableBounds
    requires i < |starts|
  {
    var h := starts[i];
    var title := TitleRow(sh, m.title, Max(1, h - 5), h);
    var limit := LimitAt(sh, starts, i);
    TableBounds(if title.Some? then title.value else h - 1,
                Min(EndScan(sh, h + 1, limit, 0), limit), h, title)
  }

  /** The bounds of the header rows from the `i`-th on. */
  function BoundsFrom(sh: Sheet, m: Markers, starts: seq<int>, i: nat): (r: seq<TableBounds>)
    requires i <= |starts|
    ensures |r| == |starts| - i
    ensures forall k :: 0 <= k < |r| ==> r[k] == BoundsAt(sh, m, starts, i + k)
    decreases |starts| - i
  {
    if i == |starts| then [] else [BoundsAt(sh, m, starts, i)] + BoundsFrom(sh, m, starts, i + 1)
  }

  /** `find_table_boundaries`: one entry per header row, in order. */
  function TableBoundaries(sh: Sheet, m: Markers): seq<TableBounds> {
    BoundsFrom(sh, m, HeaderRows(sh, m.header, 1), 0)
  }

  /**
   * A table starts at the first title-word row among the five rows above its header, or
   * else just above the header; it ends no later than two rows above the next header (or
   * at the sheet's last row), and earlier only just before three empty rows.
   */
  lemma {:induction false} BoundsAtSpec(sh: Sheet, m: Markers, starts: seq<int>, i: nat)
    requires i < |starts|
    ensures var b := BoundsAt(sh, m, starts, i);
            var h := starts[i];
            var limit := LimitAt(sh, starts, i);
            b.headerRow == h
            && (b.titleRow.Some? ==>
                  (Max(1, h - 5) <= b.startRow == b.titleRow.value < h && Contains(RowText(sh, b.startRow), m.title)))
            && (b.titleRow.None? ==>
                  (b.startRow == h - 1 && forall k :: Max(1, h - 5) <= k < h ==> !Contains(RowText(sh, k), m.title)))
            && b.endRow <= limit
            && b.endRow >= Min(h, limit)
            && (b.endRow == limit || forall k :: b.endRow < k <= b.endRow + 3 ==> !Filled(sh, k))
  {
    var h := starts[i];
    TitleRowFirst(sh, m.title, Max(1, h - 5), h);
    EndScanSpec(sh, h + 1, LimitAt(sh, starts, i), 0);
  }

  /** `find_table_boundaries` */
  method FindTableBoundaries(sh: Sheet, m: Markers) returns (tables: seq<TableBounds>)
    ensures tables == TableBoundaries(sh, m)
  {
    var starts := FindHeaderRows(sh, m.header);
    tables := [];
    for i := 0 to |starts|
      invariant tables == BoundsFrom(sh, m, starts, 0)[..i]
    {
      var h := starts[i];
      var title := FindTitleRow(sh, m.title, Max(1, h - 5), h);
      var start := if title.Some? then title.value else h - 1;
      var limit := if i + 1 < |starts| then starts[i + 1] - 2 else sh.maxRow;
      var actual := ScanTableEnd(sh, h + 1, limit);
      tables := tables + [TableBounds(start, Min(actual, limit), h, title)];
    }
  }

  // ------------------------------------------------------------------- extraction

  /** One extracted table: its title, header entries, data rows, bounds and logical rows. */
  datatype ExtractedTable = ExtractedTable(title: string, header: seq<string>, dataRows: seq<seq<string>>,
                                           bounds: TableBounds, logicalRows: seq<LogicalRow>)

  /** The contents of the logical rows that have content, in order. */
  function DataRows(rows: seq<LogicalRow>): seq<seq<string>>
    decreases |rows|
  {
    if rows == [] then []
    else (if AnyContent(rows[0].content) then [rows[0].content] else []) + DataRows(rows[1..])
  }

  /** Exactly the contents with something in them are kept. */
  lemma {:induction false} DataRowsSpec(rows: seq<LogicalRow>)
    ensures forall d :: d in DataRows(rows) ==> AnyContent(d) && exists i :: 0 <= i < |rows| && rows[i].content == d
    ensures forall i :: 0 <= i < |rows| && AnyContent(rows[i].content) ==> rows[i].content in DataRows(rows)
    decreases |rows|
  {
    if rows != [] {
      DataRowsSpec(rows[1..]);
      assert forall i :: 1 <= i < |rows| ==> rows[i] == rows[1..][i - 1];
    }
  }

  /** The title: the title row's text without its trailing space, or "" without a title row. */
  function TitleText(sh: Sheet, title: Option<int>): string {
    if title.Some? then Strip(RowText(sh, title.value)) else []
  }

  /** `extract_table_with_hair_borders`: the logical rows run from below the header to the table's end. */
  function TableAt(sh: Sheet, m: Markers, b: TableBounds): ExtractedTable {
    var rows := LogicalRows(sh, b.headerRow + 1, b.endRow, m.tax, m.price);
    ExtractedTable(TitleText(sh, b.titleRow), RowContent(sh, b.headerRow, b.headerRow), DataRows(rows), b, rows)
  }

  /** The tables of the bounds `bs` that have data rows, in order. */
  function TablesOf(sh: Sheet, m: Markers, bs: seq<TableBounds>): seq<ExtractedTable>
    decreases |bs|
  {
    if bs == [] then []
    else Kept(TableAt(sh, m, bs[0])) + TablesOf(sh, m, bs[1..])
  }

  /** `extract_all_tables` */
  function AllTables(sh: Sheet, m: Markers): seq<ExtractedTable> {
    TablesOf(sh, m, TableBoundaries(sh, m))
  }

  /** Only tables with data rows are kept, each one of the given bounds, and every such table is kept. */
  lemma {:induction false} TablesOfSpec(sh: Sheet, m: Markers, bs: seq<TableBounds>)
    ensures forall t :: t in TablesOf(sh, m, bs) ==> t.dataRows != [] && t.bounds in bs && t == TableAt(sh, m, t.bounds)
    ensures forall b :: b in bs && TableAt(sh, m, b).dataRows != [] ==> TableAt(sh, m, b) in TablesOf(sh, m, bs)
    decreases |bs|
  {
    if bs != [] {
      TablesOfSpec(sh, m, bs[1..]);
      assert forall b :: b in bs ==> b == bs[0] || b in bs[1..];
    }
  }

  /** The `data_rows` filter. */
  method CollectDataRows(rows: seq<LogicalRow>) returns (data: seq<seq<string>>)
    ensures data == DataRows(rows)
  {
    data := [];
    for i := 0 to |rows|
      invariant data + DataRows(rows[i..]) == DataRows(rows)
    {
      assert rows[i..][1..] == rows[i + 1..];
      if AnyContent(rows[i].content) {
        data := data + [rows[i].content];
      }
    }
  }

  /** `extract_table_with_hair_borders` */
  method ExtractTable(sh: Sheet, m: Markers, b: TableBounds) returns (t: ExtractedTable)
    ensures t == TableAt(sh, m, b)
  {
    var title := "";
    if b.titleRow.Some? {
      var text := ReadRowText(sh, b.titleRow.value);
      title := Strip(text);
    }
    var header := ExtractRowContent(sh, b.headerRow, b.headerRow);
    var rows := ExtractLogicalRows(sh, b.headerRow + 1, b.endRow, m.tax, m.price);
    var data := CollectDataRows(rows);
    t := ExtractedTable(title, header, data, b, rows);
  }

  /** The tables kept for one bounds entry: its table when that has data rows. */
  function Kept(t: ExtractedTable): seq<ExtractedTable> {
    if t.dataRows != [] then [t] else []
  }

  /** One step of the table loop: the table of `bs[i]`, kept when it has data rows. */
  lemma {:induction false} TablesOfStep(sh: Sheet, m: Markers, bs: seq<TableBounds>, i: nat, t: ExtractedTable,
                                        done: seq<ExtractedTable>, all: seq<ExtractedTable>)
    requires i < |bs| && t == TableAt(sh, m, bs[i])
    requires done + TablesOf(sh, m, bs[i..]) == all
    ensures done + Kept(t) + TablesOf(sh, m, bs[i + 1..]) == all
  {
    assert bs[i..][1..] == bs[i + 1..];
    assert TablesOf(sh, m, bs[i..]) == Kept(t) + TablesOf(sh, m, bs[i + 1..]);
  }

  /** `extract_all_tables` */
  method ExtractAllTables(sh: Sheet, m: Markers) returns (tables: seq<ExtractedTable>)
    ensures tables == AllTables(sh, m)
  {
    var bounds := FindTableBoundaries(sh, m);
    ghost var all := TablesOf(sh, m, bounds);
    assert bounds[0..] == bounds;
    tables := [];
    for i := 0 to |bounds|
      invariant tables + TablesOf(sh, m, bounds[i..]) == all
    {
      var t := ExtractTable(sh, m, bounds[i]);
      TablesOfStep(sh, m, bounds, i, t, tables, all);
      tables := tables + Kept(t);
    }
    assert bounds[|bounds|..] == [];
  }
}

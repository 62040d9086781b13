/**
 * The table readers of `server/services/spec_extractor.py`: the material
 * tables whose chosen rows are marked ■ (asphalt, stone, rebar), the
 * temporary-works tables of 第10条 and the by-product and waste tables of
 * 第11条. A table is a pdfplumber table (rows of optional cells); a record is
 * the ordered `dict` the extractor builds.
 */
module SpecTables {
  import opened Wrappers
  import opened Text
  import opened Grid
  import opened TenderSchema

  /** A list of records, or the string "Not Found" the extractor returns instead of an empty list. */
  datatype Listing = NotFound | Records(records: seq<Fields>)

  /** `data if data else "Not Found"` */
  function ListingOf(records: seq<Fields>): (r: Listing)
    ensures r.NotFound? <==> records == []
    ensures r.Records? ==> r.records == records
  {
    if records == [] then NotFound else Records(records)
  }

  /** `s.replace('\n', rep)` leaves no line break when `rep` has none. */
  lemma {:induction false} ReplaceNewlines(s: string, rep: string)
    requires '\n' !in rep
    ensures '\n' !in ReplaceAll(s, "\n", rep)
    decreases |s|
  {
    if StartsWith(s, "\n") {
      ReplaceNewlines(s[1..], rep);
    } else if s != [] {
      ReplaceNewlines(s[1..], rep);
    }
  }

  // ------------------------------------------------------ ■-marked rows

  /** The three material tables whose chosen rows carry ■ in their first cell. */
  datatype Material = Asphalt | Stone | Rebar

  /** `"".join(filter(None, row))`: the non-empty cells, run together. */
  function TruthyText(row: Row): string
    decreases |row|
  {
    if row == [] then [] else (if Truthy(row[0]) then row[0].value else []) + TruthyText(row[1..])
  }

  /** `.replace('\n', '').replace(' ', '')` */
  function Squeeze(s: string): (r: string)
    ensures '\n' !in r && ' ' !in r
    decreases |s|
  {
    if s == [] then []
    else (if s[0] == '\n' || s[0] == ' ' then [] else [s[0]]) + Squeeze(s[1..])
  }

  /** Which header row announces each material table. */
  predicate HeaderMatches(kind: Material, table: Table) {
    table != [] && table[0] != [] &&
    var h := Squeeze(TruthyText(table[0]));
    match kind
    case Asphalt => Contains(h, "アスファルト合材名") && Contains(h, "使用箇所") && |table[0]| > 2
    case Stone => Contains(h, "石材類") || (Contains(h, "材料名") && Contains(h, "適用箇所"))
    case Rebar => Contains(h, "鉄筋")
  }

  /** `row and len(row) >= 4 and '■' in str(row[0])` */
  predicate Marked(row: Row) {
    |row| >= 4 && '■' in Str(row[0])
  }

  /** `str(c).replace('\n', rep) if c else ''`: line breaks go for asphalt, become spaces for stone and rebar. */
  function Cleaned(kind: Material, c: Cell): (r: string)
    ensures '\n' !in r
  {
    var rep := if kind == Asphalt then "" else " ";
    if Truthy(c) then ReplaceNewlines(c.value, rep); ReplaceAll(c.value, "\n", rep) else []
  }

  /** The record of a marked row: asphalt takes columns 2 and 3, stone and rebar columns 1 to 3. */
  function RecordOf(kind: Material, row: Row): (r: Fields)
    requires |row| >= 4
    ensures forall k :: 0 <= k < |r| ==> '\n' !in r[k].1
  {
    if kind == Asphalt then [("材料名", Cleaned(kind, row[2])), ("使用箇所", Cleaned(kind, row[3]))]
    else [("材料名", Cleaned(kind, row[1])), ("規格", Cleaned(kind, row[2])), ("適用箇所", Cleaned(kind, row[3]))]
  }

  /** The records of the marked rows, in row order. */
  function MarkedRecords(kind: Material, rows: seq<Row>): seq<Fields>
    decreases |rows|
  {
    if rows == [] then []
    else
      var last := rows[|rows| - 1];
      MarkedRecords(kind, rows[..|rows| - 1]) + (if Marked(last) then [RecordOf(kind, last)] else [])
  }

  /** A table contributes the records of its marked rows below the header when the header announces the material. */
  function TableRecords(kind: Material, table: Table): seq<Fields> {
    if HeaderMatches(kind, table) then MarkedRecords(kind, table[1..]) else []
  }

  /** Each table's records, table by table. */
  function PerTable(kind: Material, tables: seq<Table>): (r: seq<seq<Fields>>)
    ensures |r| == |tables|
    decreases |tables|
  {
    if tables == [] then [] else PerTable(kind, tables[..|tables| - 1]) + [TableRecords(kind, tables[|tables| - 1])]
  }

  lemma {:induction false} PerTableAt(kind: Material, tables: seq<Table>, t: nat)
    requires t < |tables|
    ensures PerTable(kind, tables)[t] == TableRecords(kind, tables[t])
    decreases |tables|
  {
    if t < |tables| - 1 {
      PerTableAt(kind, tables[..|tables| - 1], t);
    }
  }

  /** The lists one after another. */
  function Flatten(parts: seq<seq<Fields>>): seq<Fields>
    decreases |parts|
  {
    if parts == [] then [] else Flatten(parts[..|parts| - 1]) + parts[|parts| - 1]
  }

  lemma {:induction false} FlattenSpec(parts: seq<seq<Fields>>, rec: Fields)
    ensures rec in Flatten(parts) <==> exists t :: 0 <= t < |parts| && rec in parts[t]
    decreases |parts|
  {
    if parts != [] {
      var init := parts[..|parts| - 1];
      FlattenSpec(init, rec);
      assert forall t :: 0 <= t < |init| ==> init[t] == parts[t];
    }
  }

  lemma {:induction false} FlattenEmpty(parts: seq<seq<Fields>>)
    ensures Flatten(parts) == [] <==> forall t :: 0 <= t < |parts| ==> parts[t] == []
    decreases |parts|
  {
    if parts != [] {
      var init := parts[..|parts| - 1];
      FlattenEmpty(init);
      assert forall t :: 0 <= t < |init| ==> init[t] == parts[t];
    }
  }

  /** The records of all tables, one table after another. */
  function AllRecords(kind: Material, tables: seq<Table>): seq<Fields> {
    Flatten(PerTable(kind, tables))
  }

  /** One more table adds its own records at the end. */
  lemma {:induction false} AllRecordsStep(kind: Material, tables: seq<Table>, t: nat)
    requires t < |tables|
    ensures AllRecords(kind, tables[..t + 1]) == AllRecords(kind, tables[..t]) + TableRecords(kind, tables[t])
  {
    var parts := PerTable(kind, tables[..t + 1]);
    assert tables[..t + 1][..t] == tables[..t];
    assert parts == PerTable(kind, tables[..t]) + [TableRecords(kind, tables[t])];
    assert parts[..|parts| - 1] == PerTable(kind, tables[..t]);
  }

  /**
   * A record is among the marked records exactly when some marked row gives
   * it. This is membership only: the order and the repetitions follow from
   * `MarkedRows`, which reads the rows into exactly `MarkedRecords`.
   */
  lemma {:induction false} MarkedRecordsSpec(kind: Material, rows: seq<Row>, rec: Fields)
    ensures rec in MarkedRecords(kind, rows) <==> exists i :: 0 <= i < |rows| && Marked(rows[i]) && RecordOf(kind, rows[i]) == rec
    decreases |rows|
  {
    if rows != [] {
      var init := rows[..|rows| - 1];
      MarkedRecordsSpec(kind, init, rec);
      assert forall i :: 0 <= i < |init| ==> init[i] == rows[i];
    }
  }

  /** A record is listed exactly when some table's own records hold it. */
  lemma {:induction false} AllRecordsSpec(kind: Material, tables: seq<Table>, rec: Fields)
    ensures rec in AllRecords(kind, tables) <==> exists t :: 0 <= t < |tables| && rec in TableRecords(kind, tables[t])
  {
    FlattenSpec(PerTable(kind, tables), rec);
    forall t | 0 <= t < |tables| ensures PerTable(kind, tables)[t] == TableRecords(kind, tables[t]) {
      PerTableAt(kind, tables, t);
    }
  }

  /** No table lists a record when none of its rows below the header is marked. */
  predicate NoMarkedRow(table: Table) {
    forall i :: 1 <= i < |table| ==> !Marked(table[i])
  }

  lemma {:induction false} MarkedRecordsEmpty(kind: Material, rows: seq<Row>)
    ensures MarkedRecords(kind, rows) == [] <==> forall i :: 0 <= i < |rows| ==> !Marked(rows[i])
    decreases |rows|
  {
    if rows != [] {
      var init := rows[..|rows| - 1];
      MarkedRecordsEmpty(kind, init);
      assert forall i :: 0 <= i < |init| ==> init[i] == rows[i];
    }
  }

  lemma {:induction false} AllRecordsEmpty(kind: Material, tables: seq<Table>)
    ensures AllRecords(kind, tables) == [] <==> forall t :: 0 <= t < |tables| ==> TableRecords(kind, tables[t]) == []
  {
    FlattenEmpty(PerTable(kind, tables));
    forall t | 0 <= t < |tables| ensures PerTable(kind, tables)[t] == TableRecords(kind, tables[t]) {
      PerTableAt(kind, tables, t);
    }
  }

  lemma {:induction false} TableRecordsEmpty(kind: Material, table: Table)
    ensures TableRecords(kind, table) == [] <==> (HeaderMatches(kind, table) ==> NoMarkedRow(table))
  {
    if HeaderMatches(kind, table) {
      var rows := table[1..];
      MarkedRecordsEmpty(kind, rows);
      assert forall i :: 0 <= i < |rows| ==> rows[i] == table[i + 1];
    }
  }

  /** "Not Found" exactly when every table announcing the material has no ■ row. */
  lemma {:induction false} NotFoundIff(kind: Material, tables: seq<Table>)
    ensures ListingOf(AllRecords(kind, tables)).NotFound? <==>
      forall t :: 0 <= t < |tables| && HeaderMatches(kind, tables[t]) ==> NoMarkedRow(tables[t])
  {
    AllRecordsEmpty(kind, tables);
    forall t | 0 <= t < |tables| {
      TableRecordsEmpty(kind, tables[t]);
    }
  }

  /** The row loop of one material table. */
  method MarkedRows(kind: Material, rows: seq<Row>) returns (records: seq<Fields>)
    ensures records == MarkedRecords(kind, rows)
  {
    records := [];
    var i := 0;
    while i < |rows|
      invariant i <= |rows| && records == MarkedRecords(kind, rows[..i])
      decreases |rows| - i
    {
      assert rows[..i + 1][..i] == rows[..i];
      if Marked(rows[i]) {
        records := records + [RecordOf(kind, rows[i])];
      }
      i := i + 1;
    }
    assert rows[..i] == rows;
  }

  /** The table loop the three material extractors share. */
  method ExtractMarked(kind: Material, tables: seq<Table>) returns (r: Listing)
    ensures r == ListingOf(AllRecords(kind, tables))
  {
    var found: seq<Fields> := [];
    var t := 0;
    while t < |tables|
      invariant t <= |tables| && found == AllRecords(kind, tables[..t])
      decreases |tables| - t
    {
      AllRecordsStep(kind, tables, t);
      var table := tables[t];
      if table != [] && table[0] != [] && HeaderMatches(kind, table) {
        var records := MarkedRows(kind, table[1..]);
        found := found + records;
      }
      t := t + 1;
    }
    assert tables[..t] == tables;
    r := ListingOf(found);
  }

  /** `_extract_asphalt_table` */
  method ExtractAsphaltTable(tables: seq<Table>) returns (r: Listing)
    ensures r == ListingOf(AllRecords(Asphalt, tables))
  {
    r := ExtractMarked(Asphalt, tables);
  }

  /** `_extract_stone_table` */
  method ExtractStoneTable(tables: seq<Table>) returns (r: Listing)
    ensures r == ListingOf(AllRecords(Stone, tables))
  {
    r := ExtractMarked(Stone, tables);
  }

  /** `_extract_rebar_table` */
  method ExtractRebarTable(tables: seq<Table>) returns (r: Listing)
    ensures r == ListingOf(AllRecords(Rebar, tables))
  {
    r := ExtractMarked(Rebar, tables);
  }

  // ------------------------------------------------------------ 第10条

  const KasetsuHeaders: seq<string> := ["工種", "種別", "細別", "単位", "数量", "備考"]

  /** `"".join(str(c) for c in row)`: a missing cell prints as "None". */
  function StrText(row: Row): string
    decreases |row|
  {
    if row == [] then [] else Str(row[0]) + StrText(row[1..])
  }

  /** `all(w in s for w in words)` */
  predicate ContainsAll(s: string, words: seq<string>)
    decreases |words|
  {
    words == [] || (Contains(s, words[0]) && ContainsAll(s, words[1..]))
  }

  /** A temporary-works table: its header row names all six columns. */
  predicate IsKasetsuTable(table: Table) {
    table != [] && table[0] != [] && ContainsAll(ReplaceAll(StrText(table[0]), "\n", ""), KasetsuHeaders)
  }

  /** `kasetsu_tables`: the temporary-works tables, in document order. */
  function KasetsuTables(tables: seq<Table>): seq<Table>
    decreases |tables|
  {
    if tables == [] then []
    else
      var last := tables[|tables| - 1];
      KasetsuTables(tables[..|tables| - 1]) + (if IsKasetsuTable(last) then [last] else [])
  }

  /** The table loop of `extract_dai10jou`. */
  method CollectKasetsuTables(tables: seq<Table>) returns (found: seq<Table>)
    ensures found == KasetsuTables(tables)
  {
    found := [];
    var t := 0;
    while t < |tables|
      invariant t <= |tables| && found == KasetsuTables(tables[..t])
      decreases |tables| - t
    {
      assert tables[..t + 1][..t] == tables[..t];
      if IsKasetsuTable(tables[t]) {
        found := found + [tables[t]];
      }
      t := t + 1;
    }
    assert tables[..t] == tables;
  }

  lemma {:induction false} KasetsuConcat(a: seq<Table>, b: seq<Table>)
    ensures KasetsuTables(a + b) == KasetsuTables(a) + KasetsuTables(b)
    decreases |b|
  {
    if b == [] {
      assert a + b == a;
    } else {
      var init := b[..|b| - 1];
      KasetsuConcat(a, init);
      assert (a + b)[..|a + b| - 1] == a + init;
    }
  }

  lemma {:induction false} KasetsuNone(a: seq<Table>)
    requires forall t :: 0 <= t < |a| ==> !IsKasetsuTable(a[t])
    ensures KasetsuTables(a) == []
    decreases |a|
  {
    if a != [] {
      KasetsuNone(a[..|a| - 1]);
    }
  }

  /** `zip(headers, [str(c or '').strip() for c in row])`, the cell read as `CellText`: pairs up to the shorter of the two. */
  function ZipRow(headers: seq<string>, row: Row): Fields
    decreases |headers|
  {
    if headers == [] || row == [] then [] else [(headers[0], CellText(row[0]))] + ZipRow(headers[1..], row[1..])
  }

  /** A zipped row has one pair per header the row reaches: the header and the stripped cell. */
  lemma {:induction false} ZipRowSpec(headers: seq<string>, row: Row)
    ensures |ZipRow(headers, row)| == if |headers| <= |row| then |headers| else |row|
    ensures forall k :: 0 <= k < |ZipRow(headers, row)| ==> ZipRow(headers, row)[k] == (headers[k], CellText(row[k]))
    decreases |headers|
  {
    if headers != [] && row != [] {
      ZipRowSpec(headers[1..], row[1..]);
    }
  }

  /** `any(c and str(c).strip() for c in row)`: some cell has text. */
  predicate AnyText(row: Row)
    decreases |row|
  {
    row != [] && (HasText(row[0]) || AnyText(row[1..]))
  }

  lemma {:induction false} AnyTextIff(row: Row)
    ensures AnyText(row) <==> !RowBlank(row)
    decreases |row|
  {
    if row != [] {
      AnyTextIff(row[1..]);
      assert forall i :: 1 <= i < |row| ==> row[i] == row[1..][i - 1];
    }
  }

  /** The records of the rows that have text in some cell. */
  function DataRows(headers: seq<string>, rows: seq<Row>): seq<Fields>
    decreases |rows|
  {
    if rows == [] then []
    else
      var last := rows[|rows| - 1];
      DataRows(headers, rows[..|rows| - 1]) + (if AnyText(last) then [ZipRow(headers, last)] else [])
  }

  lemma {:induction false} DataRowsSpec(headers: seq<string>, rows: seq<Row>, rec: Fields)
    ensures rec in DataRows(headers, rows) <==> exists i :: 0 <= i < |rows| && AnyText(rows[i]) && ZipRow(headers, rows[i]) == rec
    decreases |rows|
  {
    if rows != [] {
      var init := rows[..|rows| - 1];
      DataRowsSpec(headers, init, rec);
      assert forall i :: 0 <= i < |init| ==> init[i] == rows[i];
    }
  }

  /** 任意仮設 and 指定仮設. */
  datatype TemporaryWorks = TemporaryWorks(optional: Listing, designated: Listing)

  /** The records of the `i`-th temporary-works table, or "Not Found" when there is none. */
  function KasetsuListing(ks: seq<Table>, i: nat): Listing {
    if i < |ks| && ks[i] != [] then ListingOf(DataRows(KasetsuHeaders, ks[i][1..])) else NotFound
  }

  /** The table part of `extract_dai10jou`: 任意仮設 from the first such table, 指定仮設 from the second. */
  function Dai10Tables(tables: seq<Table>): TemporaryWorks {
    var ks := KasetsuTables(tables);
    TemporaryWorks(KasetsuListing(ks, 0), KasetsuListing(ks, 1))
  }

  method ExtractDai10Tables(tables: seq<Table>) returns (r: TemporaryWorks)
    ensures r == Dai10Tables(tables)
  {
    var ks := CollectKasetsuTables(tables);
    var optional := NotFound;
    if |ks| > 0 && ks[0] != [] {
      optional := ListingOf(DataRows(KasetsuHeaders, ks[0][1..]));
    }
    var designated := NotFound;
    if |ks| > 1 && ks[1] != [] {
      designated := ListingOf(DataRows(KasetsuHeaders, ks[1][1..]));
    }
    r := TemporaryWorks(optional, designated);
  }

  /**
   * With `first` and `second` the first two temporary-works tables of the
   * article, 任意仮設 lists the data rows of `first` and 指定仮設 those of
   * `second`, whatever follows.
   */
  lemma {:induction false} Dai10TwoTables(a: seq<Table>, first: Table, b: seq<Table>, second: Table, c: seq<Table>)
    requires IsKasetsuTable(first) && IsKasetsuTable(second)
    requires forall t :: 0 <= t < |a| ==> !IsKasetsuTable(a[t])
    requires forall t :: 0 <= t < |b| ==> !IsKasetsuTable(b[t])
    ensures Dai10Tables(a + [first] + b + [second] + c)
      == TemporaryWorks(ListingOf(DataRows(KasetsuHeaders, first[1..])), ListingOf(DataRows(KasetsuHeaders, second[1..])))
  {
    KasetsuTwo(a, first, b, second, c);
  }

  lemma {:induction false} KasetsuSingle(t: Table)
    ensures KasetsuTables([t]) == if IsKasetsuTable(t) then [t] else []
  {
    assert [t][..0] == [];
  }

  lemma {:induction false} KasetsuTwo(a: seq<Table>, first: Table, b: seq<Table>, second: Table, c: seq<Table>)
    requires IsKasetsuTable(first) && IsKasetsuTable(second)
    requires forall t :: 0 <= t < |a| ==> !IsKasetsuTable(a[t])
    requires forall t :: 0 <= t < |b| ==> !IsKasetsuTable(b[t])
    ensures KasetsuTables(a + [first] + b + [second] + c) == [first, second] + KasetsuTables(c)
  {
    var x := a + [first] + b;
    assert KasetsuTables(x) == [first] by {
      KasetsuPrefix(a, first, b);
    }
    assert KasetsuTables(x + [second]) == [first, second] by {
      KasetsuConcat(x, [second]);
      KasetsuSingle(second);
    }
    KasetsuConcat(x + [second], c);
  }

  /** The only temporary-works table of `a + [first] + b` is `first`. */
  lemma {:induction false} KasetsuPrefix(a: seq<Table>, first: Table, b: seq<Table>)
    requires IsKasetsuTable(first)
    requires forall t :: 0 <= t < |a| ==> !IsKasetsuTable(a[t])
    requires forall t :: 0 <= t < |b| ==> !IsKasetsuTable(b[t])
    ensures KasetsuTables(a + [first] + b) == [first]
  {
    assert KasetsuTables(a + [first]) == [first] by {
      KasetsuNone(a);
      KasetsuSingle(first);
      KasetsuConcat(a, [first]);
    }
    KasetsuNone(b);
    KasetsuConcat(a + [first], b);
  }

  /** With a single temporary-works table, 指定仮設 is "Not Found"; with none, both are. */
  lemma {:induction false} Dai10OneTable(a: seq<Table>, first: Table, b: seq<Table>)
    requires IsKasetsuTable(first)
    requires forall t :: 0 <= t < |a| ==> !IsKasetsuTable(a[t])
    requires forall t :: 0 <= t < |b| ==> !IsKasetsuTable(b[t])
    ensures Dai10Tables(a + [first] + b) == TemporaryWorks(ListingOf(DataRows(KasetsuHeaders, first[1..])), NotFound)
    ensures Dai10Tables(a + b) == TemporaryWorks(NotFound, NotFound)
  {
    KasetsuPrefix(a, first, b);
    assert KasetsuTables(a + b) == [] by {
      KasetsuNone(a);
      KasetsuNone(b);
      KasetsuConcat(a, b);
    }
  }

  // ------------------------------------------------------------ 第11条

  const ByproductHeaders: seq<string> := ["副産物名", "搬入再資源化施設名", "搬入場所", "備考"]
  const WasteHeaders: seq<string> := ["廃棄物名", "受入施設名", "受入場所", "備考"]

  /** `"".join(str(c or '').replace('\n', '') for c in row)` */
  function HeaderText(row: Row): string
    decreases |row|
  {
    if row == [] then [] else ReplaceAll(OrEmpty(row[0]), "\n", "") + HeaderText(row[1..])
  }

  /** The table's header names the first two columns. */
  predicate ListsTable(headers: seq<string>, table: Table)
    requires |headers| >= 2
  {
    table != [] && table[0] != [] && Contains(HeaderText(table[0]), headers[0]) && Contains(HeaderText(table[0]), headers[1])
  }

  /** `row and len(row) >= 3 and all(str(c).strip() for c in row[:3])`: a missing cell prints as "None" and counts. */
  predicate Filled(row: Row) {
    |row| >= 3 && !Blank(Str(row[0])) && !Blank(Str(row[1])) && !Blank(Str(row[2]))
  }

  /** The row padded with missing cells (or cut) to the header count, zipped with the headers. */
  function PaddedRecord(headers: seq<string>, row: Row): (r: Fields)
    ensures |r| == |headers|
    ensures forall k :: 0 <= k < |r| ==> r[k].0 == headers[k]
    ensures forall k :: |row| <= k < |r| ==> r[k].1 == []
    ensures forall k :: 0 <= k < |r| && k < |row| ==> r[k].1 == CellText(row[k])
  {
    seq(|headers|, k requires 0 <= k < |headers| => (headers[k], CellText(At(row, k))))
  }

  /** The records of the filled rows. */
  function FilledRecords(headers: seq<string>, rows: seq<Row>): seq<Fields>
    decreases |rows|
  {
    if rows == [] then []
    else
      var last := rows[|rows| - 1];
      FilledRecords(headers, rows[..|rows| - 1]) + (if Filled(last) then [PaddedRecord(headers, last)] else [])
  }

  lemma {:induction false} FilledRecordsEmpty(headers: seq<string>, rows: seq<Row>)
    ensures FilledRecords(headers, rows) == [] <==> forall i :: 0 <= i < |rows| ==> !Filled(rows[i])
    decreases |rows|
  {
    if rows != [] {
      var init := rows[..|rows| - 1];
      FilledRecordsEmpty(headers, init);
      assert forall i :: 0 <= i < |init| ==> init[i] == rows[i];
    }
  }

  /** The records a listed table yields from its rows below the header. */
  function Entries(headers: seq<string>, table: Table): seq<Fields>
    requires |headers| >= 2
  {
    if ListsTable(headers, table) then FilledRecords(headers, table[1..]) else []
  }

  /** The records of the first listed table that yields any. */
  function FirstEntries(headers: seq<string>, tables: seq<Table>): seq<Fields>
    requires |headers| >= 2
    decreases |tables|
  {
    if tables == [] then []
    else if Entries(headers, tables[0]) != [] then Entries(headers, tables[0])
    else FirstEntries(headers, tables[1..])
  }

  /** The records come from the first table that yields any, and are empty only when no table does. */
  lemma {:induction false} FirstEntriesSpec(headers: seq<string>, tables: seq<Table>)
    requires |headers| >= 2
    ensures FirstEntries(headers, tables) == [] <==> forall t :: 0 <= t < |tables| ==> Entries(headers, tables[t]) == []
    ensures FirstEntries(headers, tables) != [] ==>
              exists t :: (0 <= t < |tables| && FirstEntries(headers, tables) == Entries(headers, tables[t])
                           && forall u :: 0 <= u < t ==> Entries(headers, tables[u]) == [])
    decreases |tables|
  {
    if tables != [] && Entries(headers, tables[0]) == [] {
      var tail := tables[1..];
      FirstEntriesSpec(headers, tail);
      assert forall t :: 1 <= t < |tables| ==> tables[t] == tail[t - 1];
      if FirstEntries(headers, tail) != [] {
        var t :| 0 <= t < |tail| && FirstEntries(headers, tail) == Entries(headers, tail[t])
                 && forall u :: 0 <= u < t ==> Entries(headers, tail[u]) == [];
        assert FirstEntries(headers, tables) == Entries(headers, tables[t + 1]);
      }
    }
  }

  /**
   * The table loop for 建設副産物: rows gathered table by table, stopping
   * after the first table that yields any.
   */
  method FirstTableEntries(headers: seq<string>, tables: seq<Table>) returns (data: seq<Fields>)
    requires |headers| >= 2
    ensures data == FirstEntries(headers, tables)
  {
    data := [];
    var t := 0;
    while t < |tables|
      invariant t <= |tables| && data == []
      invariant FirstEntries(headers, tables[t..]) == FirstEntries(headers, tables)
      decreases |tables| - t
    {
      assert tables[t..][1..] == tables[t + 1..];
      var table := tables[t];
      if table != [] && table[0] != [] && ListsTable(headers, table) {
        var rows := FilledRecords(headers, table[1..]);
        data := data + rows;
        if data != [] {
          return;
        }
      }
      t := t + 1;
    }
  }

  /** 土捨て場 (always "Not Found"), 建設副産物 and 建設廃棄物. */
  datatype Surplus = Surplus(dumpSite: Listing, byproducts: Listing, waste: Listing)

  /** The table part of `extract_dai11jou`, with 建設廃棄物 read the way 建設副産物 is. */
  function Dai11Tables(tables: seq<Table>): Surplus {
    Surplus(NotFound, ListingOf(FirstEntries(ByproductHeaders, tables)), ListingOf(FirstEntries(WasteHeaders, tables)))
  }

  method ExtractDai11Tables(tables: seq<Table>) returns (r: Surplus)
    ensures r == Dai11Tables(tables)
  {
    var byproducts := FirstTableEntries(ByproductHeaders, tables);
    var waste := FirstTableEntries(WasteHeaders, tables);
    r := Surplus(NotFound, ListingOf(byproducts), ListingOf(waste));
  }

  /**
   * The 建設廃棄物 loop as written: the key is set to "Not Found" for each
   * listed table that yields nothing, and the loop breaks before setting it
   * once a table yields records. `entry` is the key's value so far (`None`
   * while the key is absent).
   */
  function WasteEntryAsWritten(tables: seq<Table>, entry: Option<Listing>): Option<Listing>
    decreases |tables|
  {
    if tables == [] then entry
    else if !ListsTable(WasteHeaders, tables[0]) then WasteEntryAsWritten(tables[1..], entry)
    else if FilledRecords(WasteHeaders, tables[0][1..]) != [] then entry
    else WasteEntryAsWritten(tables[1..], Some(NotFound))
  }

  /** As written, the loop never stores the records it finds. */
  lemma {:induction false} WasteAsWrittenNeverRecords(tables: seq<Table>, entry: Option<Listing>)
    requires entry == None || entry == Some(NotFound)
    ensures WasteEntryAsWritten(tables, entry) == None || WasteEntryAsWritten(tables, entry) == Some(NotFound)
    decreases |tables|
  {
    if tables != [] {
      WasteAsWrittenNeverRecords(tables[1..], if ListsTable(WasteHeaders, tables[0]) then Some(NotFound) else entry);
    }
  }

  /**
   * When the first waste table has a filled row, the loop as written leaves
   * 建設廃棄物 out of the result, while reading it like 建設副産物 lists the row.
   */
  lemma {:induction false} WasteRowsDropped(tables: seq<Table>)
    requires tables != [] && ListsTable(WasteHeaders, tables[0]) && FilledRecords(WasteHeaders, tables[0][1..]) != []
    ensures WasteEntryAsWritten(tables, None) == None
    ensures Dai11Tables(tables).waste == Records(FilledRecords(WasteHeaders, tables[0][1..]))
  {
  }

  /** 建設廃棄物 lists records exactly when some waste table has a filled row, and then those of the first such table. */
  lemma {:induction false} WasteSpec(tables: seq<Table>)
    ensures Dai11Tables(tables).waste.NotFound? <==> forall t :: 0 <= t < |tables| ==> Entries(WasteHeaders, tables[t]) == []
    ensures Dai11Tables(tables).waste.Records? ==> exists t :: 0 <= t < |tables| && Dai11Tables(tables).waste.records == Entries(WasteHeaders, tables[t])
  {
    FirstEntriesSpec(WasteHeaders, tables);
  }
}

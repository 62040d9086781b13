/**
 * `ExcelTableExtractorService` (server/services/excel_table_extractor_service.py):
 * the filters on item names, the conversion of extracted table rows into
 * `TenderItem`s, the quantity parser, the reference numbers of the main
 * table, and the look-ahead logical rows of a sub-table sheet.
 *
 * Cells are read through the cleaned reader of `ExcelBorders.Sheet`; the
 * `.strip()` the service applies to a cell value it has just read is the
 * identity on cleaned text (`ExcelBorders.CleanedStrip`), and is left out.
 */
module ExcelService {
  import opened Wrappers
  import opened Text
  import opened Numbers
  import opened TenderSchema
  import opened Sorting
  import opened Distinct
  import RefSearch
  import ExcelBorders
  import ExcelTables

  type Sheet = ExcelBorders.Sheet

  function Min(a: int, b: int): int { if a <= b then a else b }

  // ------------------------------------------------------------ name filters

  /** The characters `_is_meaningless_content` removes: both widths of space, dash and equals, tab and newline. */
  const FillerChars: string := "　 \t\n－-＝="

  /** `s.replace(c, '')` for each character of `cs` in turn. */
  function DropChars(s: string, cs: string): string
    decreases |cs|
  {
    if cs == [] then s else DropChars(ReplaceAll(s, [cs[0]], []), cs[1..])
  }

  /** Removing one character keeps exactly the other characters. */
  lemma {:induction false} DropCharMembers(s: string, c: char)
    ensures forall x :: x in ReplaceAll(s, [c], []) <==> x in s && x != c
    decreases |s|
  {
    if s != [] {
      DropCharMembers(s[1..], c);
      if StartsWith(s, [c]) {
        assert s[0] == c && s[|[c]|..] == s[1..];
      } else {
        assert s[0] != c by { assert s[..1] == [s[0]]; }
      }
      assert forall x :: x in s <==> x == s[0] || x in s[1..] by {
        assert s == [s[0]] + s[1..];
      }
    }
  }

  /** Removing the characters of `cs` keeps exactly the characters not in `cs`. */
  lemma {:induction false} DropCharsMembers(s: string, cs: string)
    ensures forall x :: x in DropChars(s, cs) <==> x in s && x !in cs
    decreases |cs|
  {
    if cs != [] {
      DropCharMembers(s, cs[0]);
      DropCharsMembers(ReplaceAll(s, [cs[0]], []), cs[1..]);
      assert forall x :: x in cs <==> x == cs[0] || x in cs[1..] by {
        assert cs == [cs[0]] + cs[1..];
      }
    }
  }

  /** One of the characters of `FillerChars`. */
  predicate IsFiller(c: char) {
    c == '　' || c == ' ' || c == '\t' || c == '\n' || c == '－' || c == '-' || c == '＝' || c == '='
  }

  /** Every character is a filler. */
  predicate FillersOnly(s: string)
    decreases |s|
  {
    s == [] || (IsFiller(s[0]) && FillersOnly(s[1..]))
  }

  /** `_is_meaningless_content`: empty, blank, or nothing but fillers once stripped. */
  predicate Meaningless(content: string) {
    content == [] || Strip(content) == [] || FillersOnly(Strip(content))
  }

  /** The code's own test: the stripped content is empty once every filler is replaced away. */
  predicate MeaninglessByReplace(content: string) {
    content == [] || Strip(content) == [] || DropChars(Strip(content), FillerChars) == []
  }

  /** The fillers are exactly the characters of `FillerChars`. */
  lemma {:induction false} IsFillerListed(c: char)
    ensures IsFiller(c) <==> c in FillerChars
  {
  }

  /** A string is fillers only exactly when each of its characters is in `FillerChars`. */
  lemma {:induction false} FillersOnlyIff(s: string)
    ensures FillersOnly(s) <==> forall x :: x in s ==> x in FillerChars
    decreases |s|
  {
    if s != [] {
      FillersOnlyIff(s[1..]);
      IsFillerListed(s[0]);
      assert forall x :: x in s <==> x == s[0] || x in s[1..] by {
        assert s == [s[0]] + s[1..];
      }
    }
  }

  /** Content is meaningless exactly when, once stripped, it holds nothing but fillers. */
  lemma {:induction false} MeaninglessIff(content: string)
    ensures Meaningless(content) <==> forall x :: x in Strip(content) ==> x in FillerChars
  {
    FillersOnlyIff(Strip(content));
  }

  /** The filler test agrees with the code's chain of replacements. */
  lemma {:induction false} MeaninglessByReplaceIff(content: string)
    ensures MeaninglessByReplace(content) <==> Meaningless(content)
  {
    var t := Strip(content);
    DropCharsMembers(t, FillerChars);
    FillersOnlyIff(t);
    var d := DropChars(t, FillerChars);
    if d != [] {
      assert d[0] in d;
    }
  }

  /** The replacement loop of `_is_meaningless_content`. */
  method IsMeaningless(content: string) returns (b: bool)
    ensures b == Meaningless(content)
  {
    MeaninglessByReplaceIff(content);
    if content == [] {
      return true;
    }
    var t := Strip(content);
    if t == [] {
      return true;
    }
    var cleaned := t;
    var i := 0;
    while i < |FillerChars|
      invariant 0 <= i <= |FillerChars|
      invariant DropChars(cleaned, FillerChars[i..]) == DropChars(t, FillerChars)
    {
      assert FillerChars[i..][1..] == FillerChars[i + 1..];
      cleaned := ReplaceAll(cleaned, [FillerChars[i]], []);
      i := i + 1;
    }
    assert FillerChars[i..] == [];
    assert DropChars(t, FillerChars) == cleaned;
    b := |cleaned| == 0;
  }

  const Meisaisho: string := "明細書"
  const AtariMeisaisho: string := "当り明細書"
  const Keisansho: string := "計算書"
  const Sekisansho: string := "積算書"

  /** `_is_obvious_table_title` */
  predicate ObviousTitle(name: string) {
    name != []
    && (EndsWith(name, Meisaisho) || EndsWith(name, AtariMeisaisho)
        || EndsWith(name, Keisansho) || EndsWith(name, Sekisansho))
  }

  /** Ending in 当り明細書 means ending in 明細書. */
  lemma {:induction false} AtariEndsMeisaisho(name: string)
    requires EndsWith(name, AtariMeisaisho)
    ensures EndsWith(name, Meisaisho)
  {
    assert name[|name| - 3..] == name[|name| - 5..][2..];
  }

  /** The 当り明細書 suffix is covered by 明細書: the title filter is three suffixes. */
  lemma {:induction false} ObviousTitleIff(name: string)
    ensures ObviousTitle(name) <==>
              EndsWith(name, Meisaisho) || EndsWith(name, Keisansho) || EndsWith(name, Sekisansho)
  {
    if EndsWith(name, AtariMeisaisho) {
      AtariEndsMeisaisho(name);
    }
  }

  /** The structural names `_is_table_title` drops as they are. */
  const StructuralNames: seq<string> :=
    ["＊＊＊合計＊＊＊", "計", "諸雑費", "諸雑費(率+まるめ)", "諸雑費(まるめ)", "合計", "小計"]

  /** `[a-zA-Zぁ-んァ-ヶー一-龯]` */
  predicate IsNameChar(c: char) {
    IsAsciiLetter(c) || ('ぁ' <= c <= 'ん') || ('ァ' <= c <= 'ヶ') || c == 'ー' || IsKanji(c)
  }

  /** The three character classes of the per-unit title pattern. */
  datatype Run = Digits | Letters | Spaces

  predicate InRun(c: char, k: Run) {
    match k
    case Digits => IsDigit(c)
    case Letters => IsNameChar(c)
    case Spaces => IsSpace(c)
  }

  /** The end of the run of class-`k` characters that starts at `i`. */
  function RunEnd(s: string, i: nat, k: Run): (j: nat)
    requires i <= |s|
    ensures i <= j <= |s|
    ensures forall t :: i <= t < j ==> InRun(s[t], k)
    ensures j < |s| ==> !InRun(s[j], k)
    decreases |s| - i
  {
    if i < |s| && InRun(s[i], k) then RunEnd(s, i + 1, k) else i
  }

  /**
   * `re.match(r'^\d+[a-zA-Zぁ-んァ-ヶー一-龯]*\s*当り明細書$', name)`, read greedily: the
   * three classes share no character, so each run ends where the next class begins.
   */
  predicate PerUnitTitle(name: string) {
    EndsWith(name, AtariMeisaisho)
    && var r := name[..|name| - |AtariMeisaisho|];
       var d := RunEnd(r, 0, Digits);
       d >= 1 && RunEnd(r, RunEnd(r, d, Letters), Spaces) == |r|
  }

  /** The pattern as a language: digits, then name characters, then whitespace, then 当り明細書. */
  ghost predicate PerUnitShape(name: string) {
    EndsWith(name, AtariMeisaisho) && exists i, j :: PerUnitSplit(name, i, j)
  }

  /** `name` reads as `i` digits, then name characters up to `j`, then whitespace up to 当り明細書. */
  predicate PerUnitSplit(name: string, i: int, j: int) {
    1 <= i <= j <= |name| - |AtariMeisaisho|
    && (forall t :: 0 <= t < i ==> IsDigit(name[t]))
    && (forall t :: i <= t < j ==> IsNameChar(name[t]))
    && (forall t :: j <= t < |name| - |AtariMeisaisho| ==> IsSpace(name[t]))
  }

  /** A run of class `k` from `i` to `j`, stopped by a character outside the class, is the run `RunEnd` finds. */
  lemma {:induction false} RunEndAt(s: string, i: nat, j: nat, k: Run)
    requires i <= j <= |s|
    requires forall t :: i <= t < j ==> InRun(s[t], k)
    requires j < |s| ==> !InRun(s[j], k)
    ensures RunEnd(s, i, k) == j
    decreases j - i
  {
    if i < j { RunEndAt(s, i + 1, j, k); }
  }

  /** What the greedy reading accepts has the pattern's shape. */
  lemma {:induction false} PerUnitTitleShaped(name: string)
    requires PerUnitTitle(name)
    ensures PerUnitShape(name)
  {
    var n := |name| - |AtariMeisaisho|;
    var r := name[..n];
    var d := RunEnd(r, 0, Digits);
    var e := RunEnd(r, d, Letters);
    assert forall t :: 0 <= t < n ==> r[t] == name[t];
    assert PerUnitSplit(name, d, e);
  }

  /** Whatever has the pattern's shape, the greedy reading accepts. */
  lemma {:induction false} PerUnitShapeAccepted(name: string, i: int, j: int)
    requires EndsWith(name, AtariMeisaisho) && PerUnitSplit(name, i, j)
    ensures PerUnitTitle(name)
  {
    var n := |name| - |AtariMeisaisho|;
    var r := name[..n];
    forall t | 0 <= t < n
      ensures t < i ==> InRun(r[t], Digits)
      ensures i <= t < j ==> InRun(r[t], Letters) && !InRun(r[t], Digits)
      ensures j <= t ==> InRun(r[t], Spaces) && !InRun(r[t], Digits) && !InRun(r[t], Letters)
    {
      assert r[t] == name[t];
      RunsDisjoint(r[t]);
    }
    RunEndAt(r, 0, i, Digits);
    RunEndAt(r, i, j, Letters);
    RunEndAt(r, j, n, Spaces);
  }

  /** No character is in two of the three classes. */
  lemma {:induction false} RunsDisjoint(c: char)
    ensures IsNameChar(c) ==> !IsDigit(c)
    ensures IsSpace(c) ==> !IsDigit(c) && !IsNameChar(c)
  {
  }

  /** The greedy reading accepts exactly the titles of the pattern's shape. */
  lemma {:induction false} PerUnitTitleIff(name: string)
    ensures PerUnitTitle(name) <==> PerUnitShape(name)
  {
    if PerUnitTitle(name) {
      PerUnitTitleShaped(name);
    }
    if PerUnitShape(name) {
      var i, j :| PerUnitSplit(name, i, j);
      PerUnitShapeAccepted(name, i, j);
    }
  }

  /** `_is_table_title` */
  predicate TableTitle(itemName: string) {
    var name := Strip(itemName);
    name != []
    && (Listed(name, StructuralNames) || PerUnitTitle(name)
        || name == Meisaisho || (EndsWith(name, Meisaisho) && |name| < 10))
  }

  /** Every table title that is not a structural name is also an obvious title. */
  lemma {:induction false} TableTitleObvious(itemName: string)
    requires TableTitle(itemName) && !Listed(Strip(itemName), StructuralNames)
    ensures ObviousTitle(Strip(itemName))
  {
    var name := Strip(itemName);
    if PerUnitTitle(name) {
      AtariEndsMeisaisho(name);
    }
  }

  // ---------------------------------------------------------------- quantities

  /** `not s.strip()`: nothing but whitespace, one character at a time. */
  predicate AllSpace(s: string)
    decreases |s|
  {
    s == [] || (IsSpace(s[0]) && AllSpace(s[1..]))
  }

  lemma {:induction false} AllSpaceIff(s: string)
    ensures AllSpace(s) <==> Strip(s) == []
    decreases |s|
  {
    StripEmptyIffBlank(s);
    if s != [] {
      AllSpaceIff(s[1..]);
      StripEmptyIffBlank(s[1..]);
      assert forall i :: 1 <= i < |s| ==> s[i] == s[1..][i - 1];
    }
  }

  /** `quantity_str.replace(',', '').replace(' ', '').replace('　', '')` */
  function CleanQuantity(q: string): string {
    ReplaceAll(ReplaceAll(ReplaceAll(q, ",", []), " ", []), "　", [])
  }

  /** `_parse_quantity` */
  function ParseQuantity(q: string): real {
    if q == [] then 0.0
    else
      match ParseFloat(CleanQuantity(q))
      case Some(v) => v
      case None => 0.0
  }

  /** The characters of the cleaned text are those of the text, less commas, spaces and U+3000. */
  lemma {:induction false} CleanQuantityMembers(q: string)
    ensures forall x :: x in CleanQuantity(q) <==> x in q && x != ',' && x != ' ' && x != '　'
  {
    DropCharMembers(q, ',');
    DropCharMembers(ReplaceAll(q, ",", []), ' ');
    DropCharMembers(ReplaceAll(ReplaceAll(q, ",", []), " ", []), '　');
  }

  /** Text with none of the three separators is left as it is. */
  lemma {:induction false} CleanQuantityUnchanged(q: string)
    requires ',' !in q && ' ' !in q && '　' !in q
    ensures CleanQuantity(q) == q
  {
    ContainsChar(q, ',');
    ContainsChar(q, ' ');
    ContainsChar(q, '　');
  }

  /** Text holding no digit parses to 0.0. */
  lemma {:induction false} ParseQuantityNoDigit(q: string)
    requires forall i :: 0 <= i < |q| ==> !IsDigit(q[i])
    ensures ParseQuantity(q) == 0.0
  {
    if q != [] {
      var c := CleanQuantity(q);
      CleanQuantityMembers(q);
      assert forall i :: 0 <= i < |c| ==> !IsDigit(c[i]) by {
        forall i | 0 <= i < |c| ensures !IsDigit(c[i]) {
          assert c[i] in c;
        }
      }
      ParseFloatNoDigit(c);
    }
  }

  /** A plain string of ASCII digits parses to its value. */
  lemma {:induction false} ParseQuantityDigits(q: string)
    requires |q| > 0 && DigitString(q)
    ensures ParseQuantity(q) == NatValue(q) as real
  {
    assert ',' !in q && ' ' !in q && '　' !in q by {
      forall i | 0 <= i < |q| ensures q[i] != ',' && q[i] != ' ' && q[i] != '　' {
        assert IsDigit(q[i]);
      }
    }
    CleanQuantityUnchanged(q);
    ParsePlainDigits(q);
  }

  /** Separators are ignored: parsing the cleaned text gives the same quantity. */
  lemma {:induction false} ParseQuantityCleaned(q: string)
    ensures ParseQuantity(CleanQuantity(q)) == ParseQuantity(q)
  {
    var c := CleanQuantity(q);
    CleanQuantityMembers(q);
    CleanQuantityUnchanged(c);
    if q != [] && c == [] {
      assert ParseFloat(c).None?;
    }
  }

  // -------------------------------------------------------- rows to items

  const KoujiKubun: string := "工事区分・工種・種別・細別"
  const Kikaku: string := "規格"
  const Tani: string := "単位"
  const Suuryou: string := "数量"
  const Tanka: string := "単価"
  const Kingaku: string := "金額"
  const Tekiyou: string := "摘要"

  /** `row_data[i] if len(row_data) > i else ""` */
  function CellAt(row: seq<string>, i: nat): string {
    if |row| > i then row[i] else []
  }

  /** An entry `key: value` when the value is not empty. */
  function FieldIf(key: string, value: string): Fields {
    if value != [] then [(key, value)] else []
  }

  /** The `raw_fields` dictionary of one row. */
  function RowFields(row: seq<string>): Fields {
    [(KoujiKubun, CellAt(row, 0)), (Kikaku, CellAt(row, 0))]
    + FieldIf(Tani, CellAt(row, 1)) + FieldIf(Suuryou, CellAt(row, 2)) + FieldIf(Tanka, CellAt(row, 3))
    + FieldIf(Kingaku, CellAt(row, 4)) + FieldIf(Tekiyou, CellAt(row, 5))
  }

  /** The quantity of the conversion loop: 0.0 for blank text, else `float` of the cleaned text, 0.0 when that fails. */
  function RowQuantity(q: string): real {
    if AllSpace(q) then 0.0
    else
      match ParseFloat(CleanQuantity(q))
      case Some(v) => v
      case None => 0.0
  }

  /** The conversion loop parses exactly as `_parse_quantity` does. */
  lemma {:induction false} RowQuantityIsParseQuantity(q: string)
    ensures RowQuantity(q) == ParseQuantity(q)
  {
    if AllSpace(q) && q != [] {
      AllSpaceIff(q);
      StripEmptyIffBlank(q);
      assert forall i :: 0 <= i < |q| ==> !IsDigit(q[i]) by {
        forall i | 0 <= i < |q| ensures !IsDigit(q[i]) {
          assert IsSpace(q[i]);
        }
      }
      ParseQuantityNoDigit(q);
    }
  }

  /** The item of one data row, none when its name is blank. */
  function RowItem(row: seq<string>): (r: Option<TenderItem>)
    ensures r.Some? ==> r.value.itemKey == CellAt(row, 0) && !AllSpace(r.value.itemKey)
    ensures r.Some? ==> r.value.source == Excel && r.value.unit == Some(CellAt(row, 1)) && r.value.pageNumber.None?
    ensures r.None? <==> AllSpace(CellAt(row, 0))
  {
    var name := CellAt(row, 0);
    if AllSpace(name) then None
    else Some(TenderItem(name, RowFields(row), RowQuantity(CellAt(row, 2)), Excel, Some(CellAt(row, 1)), None))
  }

  /** The name is recorded twice, and the quantity is `_parse_quantity` of the third entry. */
  lemma {:induction false} RowItemFields(row: seq<string>)
    requires RowItem(row).Some?
    ensures Get(RowItem(row).value.rawFields, KoujiKubun) == Some(CellAt(row, 0))
    ensures Get(RowItem(row).value.rawFields, Kikaku) == Some(CellAt(row, 0))
    ensures RowItem(row).value.quantity == ParseQuantity(CellAt(row, 2))
  {
    var f := RowFields(row);
    assert f[0] == (KoujiKubun, CellAt(row, 0));
    GetAt(f, 0, KoujiKubun);
    assert f[1] == (Kikaku, CellAt(row, 0));
    assert f[0].0 != Kikaku;
    GetAt(f, 1, Kikaku);
    RowQuantityIsParseQuantity(CellAt(row, 2));
  }

  /** The items one row adds: its item, if it has a name. */
  function OneItem(row: seq<string>): seq<TenderItem> {
    match RowItem(row) case Some(it) => [it] case None => []
  }

  /** `_convert_table_data_to_tender_items` over the rows from the first on. */
  function ItemsOf(rows: seq<seq<string>>): seq<TenderItem>
    decreases |rows|
  {
    if rows == [] then [] else OneItem(rows[0]) + ItemsOf(rows[1..])
  }

  /** One pass of the conversion loop moves the items of row `i` to the converted ones. */
  lemma {:induction false} ItemsOfStep(rows: seq<seq<string>>, i: int, items: seq<TenderItem>, total: seq<TenderItem>)
    requires 0 <= i < |rows| && items + ItemsOf(rows[i..]) == total
    ensures (items + OneItem(rows[i])) + ItemsOf(rows[i + 1..]) == total
  {
    assert rows[i..][1..] == rows[i + 1..];
    assert ItemsOf(rows[i..]) == OneItem(rows[i]) + ItemsOf(rows[i + 1..]);
    ConcatAssoc(items, OneItem(rows[i]), ItemsOf(rows[i + 1..]));
  }

  /** After the last row every item is converted. */
  lemma {:induction false} ItemsOfDone(rows: seq<seq<string>>, items: seq<TenderItem>, total: seq<TenderItem>)
    requires items + ItemsOf(rows[|rows|..]) == total
    ensures items == total
  {
    assert rows[|rows|..] == [];
    assert items + [] == items;
  }

  /** Every item comes from a row with a name, and every row with a name gives its item. */
  lemma {:induction false} ItemsOfSpec(rows: seq<seq<string>>)
    ensures |ItemsOf(rows)| <= |rows|
    ensures forall it :: it in ItemsOf(rows) ==> exists i :: 0 <= i < |rows| && RowItem(rows[i]) == Some(it)
    ensures forall i :: 0 <= i < |rows| && RowItem(rows[i]).Some? ==> RowItem(rows[i]).value in ItemsOf(rows)
    decreases |rows|
  {
    if rows != [] {
      ItemsOfSpec(rows[1..]);
      assert forall i :: 1 <= i < |rows| ==> rows[i] == rows[1..][i - 1];
    }
  }

  /** `_convert_table_data_to_tender_items` */
  method ConvertTableData(t: ExcelTables.ExtractedTable) returns (items: seq<TenderItem>)
    ensures items == ItemsOf(t.dataRows)
  {
    var rows := t.dataRows;
    ghost var total := ItemsOf(rows);
    items := [];
    EmptyConcat(total);
    for i := 0 to |rows|
      invariant items + ItemsOf(rows[i..]) == total
    {
      ItemsOfStep(rows, i, items, total);
      match RowItem(rows[i]) {
        case Some(it) =>
          items := items + [it];
        case None =>
          assert items + [] == items;
      }
    }
    ItemsOfDone(rows, items, total);
  }

  /** The items of all the tables, table by table (the loop of `_extract_using_standalone_logic`). */
  function TablesItems(ts: seq<ExcelTables.ExtractedTable>): seq<TenderItem>
    decreases |ts|
  {
    if ts == [] then [] else ItemsOf(ts[0].dataRows) + TablesItems(ts[1..])
  }

  /** One pass of the table loop moves the items of table `i` to the converted ones. */
  lemma {:induction false} TablesItemsStep(ts: seq<ExcelTables.ExtractedTable>, i: int, items: seq<TenderItem>,
                                           total: seq<TenderItem>)
    requires 0 <= i < |ts| && items + TablesItems(ts[i..]) == total
    ensures (items + ItemsOf(ts[i].dataRows)) + TablesItems(ts[i + 1..]) == total
  {
    assert ts[i..][1..] == ts[i + 1..];
    assert TablesItems(ts[i..]) == ItemsOf(ts[i].dataRows) + TablesItems(ts[i + 1..]);
    ConcatAssoc(items, ItemsOf(ts[i].dataRows), TablesItems(ts[i + 1..]));
  }

  /** After the last table every item is converted. */
  lemma {:induction false} TablesItemsDone(ts: seq<ExcelTables.ExtractedTable>, items: seq<TenderItem>,
                                           total: seq<TenderItem>)
    requires items + TablesItems(ts[|ts|..]) == total
    ensures items == total
  {
    assert ts[|ts|..] == [];
    assert items + [] == items;
  }

  /** The main-table items of a sheet: the converted rows of every extracted table. */
  method MainTableItems(sh: Sheet, m: ExcelTables.Markers) returns (items: seq<TenderItem>)
    ensures items == TablesItems(ExcelTables.AllTables(sh, m))
  {
    var tables := ExcelTables.ExtractAllTables(sh, m);
    items := ConvertTables(tables);
  }

  /** The conversion of each table in turn. */
  method ConvertTables(tables: seq<ExcelTables.ExtractedTable>) returns (items: seq<TenderItem>)
    ensures items == TablesItems(tables)
  {
    ghost var total := TablesItems(tables);
    items := [];
    EmptyConcat(total);
    for i := 0 to |tables|
      invariant items + TablesItems(tables[i..]) == total
    {
      TablesItemsStep(tables, i, items, total);
      var part := ConvertTableData(tables[i]);
      items := items + part;
    }
    TablesItemsDone(tables, items, total);
  }

  // --------------------------------------------------- main-table references

  /** The texts of the matches of `[一-龯]+\d+号` in `s` from `i` on (`re.findall`). */
  function TextRefs(s: string, i: nat): seq<string>
    requires i <= |s|
    decreases |s| - i
  {
    match RefSearch.Search(s, i, RefSearch.Tight)
    case None => []
    case Some(m) => [RefSearch.MatchText(s, m)] + TextRefs(s, m.end)
  }

  /** The matches in every value of a field dictionary, in order. */
  function FieldRefs(f: Fields): seq<string>
    decreases |f|
  {
    if f == [] then [] else FieldRefs(f[..|f| - 1]) + TextRefs(f[|f| - 1].1, 0)
  }

  /** The matches the loop collects for one item: its 摘要 value first, then every field. */
  function ItemRefs(it: TenderItem): seq<string> {
    TextRefs(GetOrEmpty(it.rawFields, Tekiyou), 0) + FieldRefs(it.rawFields)
  }

  /** The matches collected for the items, item by item. */
  function ItemsRefs(items: seq<TenderItem>): seq<string>
    decreases |items|
  {
    if items == [] then [] else ItemsRefs(items[..|items| - 1]) + ItemRefs(items[|items| - 1])
  }

  /** The matches in the field values alone. */
  function AllFieldRefs(items: seq<TenderItem>): seq<string>
    decreases |items|
  {
    if items == [] then [] else AllFieldRefs(items[..|items| - 1]) + FieldRefs(items[|items| - 1].rawFields)
  }

  /** `_extract_reference_numbers_from_main_table`: `sorted(set(...))` of the matches. */
  function MainTableRefs(items: seq<TenderItem>): seq<string> {
    Sort(Dedup(ItemsRefs(items)))
  }

  /** The matches of a field's value are among the matches of the dictionary. */
  lemma {:induction false} FieldRefsHas(f: Fields, k: nat)
    requires k < |f|
    ensures forall x :: x in TextRefs(f[k].1, 0) ==> x in FieldRefs(f)
    decreases |f|
  {
    if k < |f| - 1 {
      var init := f[..|f| - 1];
      FieldRefsHas(init, k);
      assert init[k] == f[k];
    }
  }

  /** Where `Get` finds a value, the dictionary holds it. */
  lemma {:induction false} GetIndex(f: Fields, key: string) returns (k: nat)
    requires Get(f, key).Some?
    ensures k < |f| && f[k].1 == Get(f, key).value
  {
    k :| 0 <= k < |f| && f[k] == (key, Get(f, key).value);
  }

  /** The 摘要 pass adds nothing the field pass does not find. */
  lemma {:induction false} TekiyouCovered(f: Fields)
    ensures forall x :: x in TextRefs(GetOrEmpty(f, Tekiyou), 0) ==> x in FieldRefs(f)
  {
    match Get(f, Tekiyou)
    case None =>
      assert GetOrEmpty(f, Tekiyou) == [];
    case Some(v) =>
      var k := GetIndex(f, Tekiyou);
      FieldRefsHas(f, k);
  }

  /** The matches collected for the items are the matches of their field values. */
  lemma {:induction false} ItemsRefsFields(items: seq<TenderItem>)
    ensures forall x :: x in ItemsRefs(items) <==> x in AllFieldRefs(items)
    decreases |items|
  {
    if items != [] {
      TekiyouCovered(items[|items| - 1].rawFields);
      ItemsRefsFields(items[..|items| - 1]);
    }
  }

  /**
   * The references are sorted, each listed once, and are exactly the matches of
   * `[一-龯]+\d+号` in the items' field values.
   */
  lemma {:induction false} MainTableRefsSpec(items: seq<TenderItem>)
    ensures Sorted(MainTableRefs(items)) && NoDuplicates(MainTableRefs(items))
    ensures forall x :: x in MainTableRefs(items) <==> x in AllFieldRefs(items)
  {
    var all := ItemsRefs(items);
    var d := Dedup(all);
    DedupSpec(all);
    NoDuplicatesPermutation(d, Sort(d));
    ItemsRefsFields(items);
    assert forall x :: x in Sort(d) <==> x in multiset(d);
  }

  /** The `reference_numbers.add` loop over one list of matches, with the collection kept distinct. */
  method AddDistinct(found: seq<string>, ghost before: seq<string>, xs: seq<string>) returns (r: seq<string>)
    requires found == Dedup(before)
    ensures r == Dedup(before + xs)
  {
    r := found;
    assert before + xs[..0] == before;
    for j := 0 to |xs|
      invariant r == Dedup(before + xs[..j])
    {
      var next := before + xs[..j + 1];
      assert next[..|next| - 1] == before + xs[..j] && next[|next| - 1] == xs[j];
      if xs[j] !in r {
        r := r + [xs[j]];
      }
    }
    assert xs[..|xs|] == xs;
  }

  /** The matches of one field dictionary, field by field. */
  method CollectFieldRefs(found: seq<string>, ghost before: seq<string>, f: Fields) returns (r: seq<string>)
    requires found == Dedup(before)
    ensures r == Dedup(before + FieldRefs(f))
  {
    r := found;
    assert before + FieldRefs(f[..0]) == before;
    for k := 0 to |f|
      invariant r == Dedup(before + FieldRefs(f[..k]))
    {
      FieldRefsStep(before, f, k);
      r := AddDistinct(r, before + FieldRefs(f[..k]), TextRefs(f[k].1, 0));
    }
    assert f[..|f|] == f;
  }

  /** One more field's matches. */
  lemma {:induction false} FieldRefsStep(before: seq<string>, f: Fields, k: int)
    requires 0 <= k < |f|
    ensures before + FieldRefs(f[..k + 1]) == (before + FieldRefs(f[..k])) + TextRefs(f[k].1, 0)
  {
    assert f[..k + 1][..k] == f[..k] && f[..k + 1][k] == f[k];
    ConcatAssoc(before, FieldRefs(f[..k]), TextRefs(f[k].1, 0));
  }

  /** One more item's matches: its 摘要 value, then its fields. */
  lemma {:induction false} ItemsRefsStep(items: seq<TenderItem>, i: int)
    requires 0 <= i < |items|
    ensures ItemsRefs(items[..i + 1])
            == (ItemsRefs(items[..i]) + TextRefs(GetOrEmpty(items[i].rawFields, Tekiyou), 0)) + FieldRefs(items[i].rawFields)
  {
    assert items[..i + 1][..i] == items[..i] && items[..i + 1][i] == items[i];
    ConcatAssoc(ItemsRefs(items[..i]), TextRefs(GetOrEmpty(items[i].rawFields, Tekiyou), 0), FieldRefs(items[i].rawFields));
  }

  /** `_extract_reference_numbers_from_main_table` */
  method ExtractReferenceNumbers(items: seq<TenderItem>) returns (refs: seq<string>)
    ensures refs == MainTableRefs(items)
  {
    var found := [];
    for i := 0 to |items|
      invariant found == Dedup(ItemsRefs(items[..i]))
    {
      var f := items[i].rawFields;
      ghost var before := ItemsRefs(items[..i]);
      ItemsRefsStep(items, i);
      found := AddDistinct(found, before, TextRefs(GetOrEmpty(f, Tekiyou), 0));
      found := CollectFieldRefs(found, before + TextRefs(GetOrEmpty(f, Tekiyou), 0), f);
    }
    assert items[..|items|] == items;
    refs := Sort(found);
  }

  // ------------------------------------------------------------- table end

  /** The number of empty rows in a row from `row`, stopping before `hi`. */
  function EmptyRun(sh: Sheet, row: int, hi: int): nat
    decreases hi - row
  {
    if row >= hi || ExcelTables.Filled(sh, row) then 0 else 1 + EmptyRun(sh, row + 1, hi)
  }

  /** Some column in `[col, hi)` of `row` has a thick bottom border. */
  predicate ThickFrom(sh: Sheet, row: int, col: int, hi: int)
    decreases hi - col
  {
    col < hi && (sh.bottom(row, col) == "thick" || ThickFrom(sh, row, col + 1, hi))
  }

  /** `_is_table_end` */
  predicate TableEnd(sh: Sheet, row: int) {
    EmptyRun(sh, row, Min(row + 3, sh.maxRow + 1)) >= 3 || ThickFrom(sh, row, 1, Min(sh.maxCol + 1, 10))
  }

  lemma {:induction false} EmptyRunThree(sh: Sheet, row: int, hi: int)
    requires hi <= row + 3
    ensures EmptyRun(sh, row, hi) >= 3 <==>
              row + 2 < hi && !ExcelTables.Filled(sh, row) && !ExcelTables.Filled(sh, row + 1)
              && !ExcelTables.Filled(sh, row + 2)
  {
    if row < hi && !ExcelTables.Filled(sh, row) {
      if row + 1 < hi && !ExcelTables.Filled(sh, row + 1) {
        assert EmptyRun(sh, row + 1, hi) == 1 + EmptyRun(sh, row + 2, hi);
      }
    }
  }

  lemma {:induction false} ThickFromIff(sh: Sheet, row: int, col: int, hi: int)
    ensures ThickFrom(sh, row, col, hi) <==> exists c :: col <= c < hi && sh.bottom(row, c) == "thick"
    decreases hi - col
  {
    if col < hi {
      ThickFromIff(sh, row, col + 1, hi);
    }
  }

  /**
   * A table ends at a row that starts three empty rows inside the sheet, or whose bottom
   * border is thick in one of the first nine columns.
   */
  lemma {:induction false} TableEndIff(sh: Sheet, row: int)
    ensures TableEnd(sh, row) <==>
              (row + 2 <= sh.maxRow && !ExcelTables.Filled(sh, row) && !ExcelTables.Filled(sh, row + 1)
               && !ExcelTables.Filled(sh, row + 2))
              || (exists c :: 1 <= c < Min(sh.maxCol + 1, 10) && sh.bottom(row, c) == "thick")
  {
    EmptyRunThree(sh, row, Min(row + 3, sh.maxRow + 1));
    ThickFromIff(sh, row, 1, Min(sh.maxCol + 1, 10));
  }

  /** `_is_table_end` */
  method IsTableEnd(sh: Sheet, row: int) returns (b: bool)
    ensures b == TableEnd(sh, row)
  {
    var hi := Min(row + 3, sh.maxRow + 1);
    var count := 0;
    var check := row;
    while check < hi
      invariant row <= check && count == check - row
      invariant EmptyRun(sh, row, hi) == count + EmptyRun(sh, check, hi)
      decreases hi - check
    {
      var filled := ExcelTables.RowHasContent(sh, check);
      if filled {
        break;
      }
      count := count + 1;
      check := check + 1;
    }
    if count >= 3 {
      return true;
    }
    var top := Min(sh.maxCol + 1, 10);
    var col := 1;
    while col < top
      invariant ThickFrom(sh, row, col, top) == ThickFrom(sh, row, 1, top)
      decreases top - col
    {
      if sh.bottom(row, col) == "thick" {
        return true;
      }
      col := col + 1;
    }
    return false;
  }

  // ------------------------------------------------------ item with data

  /**
   * What `_extract_item_with_data` returns: name, unit, quantity and the last row it used.
   * The name is kept as gathered and the quantity as the cell's text; `Name` and `Quantity`
   * are the stripped name and the float the code makes of them.
   */
  datatype ItemData = ItemData(combinedName: string, unit: string, quantityCell: string, endRow: int)
  {
    /** `combined_name.strip()` */
    function Name(): string {
      Strip(combinedName)
    }

    /** `combined_quantity` */
    function Quantity(): real {
      QuantityValue(quantityCell)
    }
  }

  /** The column layout of a sub-table: 0-based name, unit and quantity columns. */
  datatype Columns = Columns(name: int, unit: int, quantity: int)

  /** The name parts of `row` in the 0-based columns `[col, hi)`: " " and each non-empty value. */
  function NameParts(sh: Sheet, row: int, col: int, hi: int): string
    decreases hi - col
  {
    if col >= hi then []
    else (if sh.value(row, col + 1) != [] then " " + sh.value(row, col + 1) else []) + NameParts(sh, row, col + 1, hi)
  }

  /** The name parts of the rows `lo..hi`, row after row, between the name and unit columns. */
  function NameRows(sh: Sheet, lo: int, hi: int, cols: Columns): string
    decreases hi - lo
  {
    if hi < lo then [] else NameRows(sh, lo, hi - 1, cols) + NameParts(sh, hi, cols.name + 1, cols.unit)
  }

  /** `float(str(quantity_value))` of a non-empty cell, 0.0 for an empty cell or when `float` fails. */
  function QuantityValue(q: string): (x: real)
    ensures q == [] || ParseFloat(q).None? ==> x == 0.0
    ensures q != [] && ParseFloat(q).Some? ==> x == ParseFloat(q).value
  {
    if q == [] then 0.0
    else match ParseFloat(q)
      case Some(v) => v
      case None => 0.0
  }

  /** The row has a unit or a quantity. */
  predicate HasData(sh: Sheet, row: int, cols: Columns) {
    sh.value(row, cols.unit + 1) != [] || sh.value(row, cols.quantity + 1) != []
  }

  /** The first row in `[row, last)` with a unit or a quantity. */
  function FirstData(sh: Sheet, row: int, last: int, cols: Columns): (r: Option<int>)
    ensures r.Some? ==> row <= r.value < last && HasData(sh, r.value, cols)
    decreases last - row
  {
    if row >= last then None
    else if HasData(sh, row, cols) then Some(row)
    else FirstData(sh, row + 1, last, cols)
  }

  /** No row before the one found (none at all when nothing is found) has a unit or a quantity. */
  lemma {:induction false} FirstDataFirst(sh: Sheet, row: int, last: int, cols: Columns)
    ensures forall k :: row <= k < last && (FirstData(sh, row, last, cols).None? || k < FirstData(sh, row, last, cols).value)
              ==> !HasData(sh, k, cols)
    decreases last - row
  {
    if row < last && !HasData(sh, row, cols) {
      FirstDataFirst(sh, row + 1, last, cols);
    }
  }

  /** The last row the look-ahead may use is below this one: four rows down, or the sheet's last row. */
  function LookLimit(sh: Sheet, itemRow: int): int {
    Min(itemRow + 5, sh.maxRow + 1)
  }

  /**
   * `_extract_item_with_data`: the first of the next rows up to `LookLimit` with a unit or a
   * quantity ends the item and gives its unit and quantity; the name gathers the parts of
   * every row looked at.
   */
  function ItemWithData(sh: Sheet, itemRow: int, name: string, cols: Columns): ItemData {
    var found := FirstData(sh, itemRow + 1, LookLimit(sh, itemRow), cols);
    ItemDataOf(sh, itemRow, cols, found, CombinedName(sh, itemRow, name, cols, found))
  }

  /** The name before stripping: the item's own parts, then those of the rows looked at. */
  function CombinedName(sh: Sheet, itemRow: int, name: string, cols: Columns, found: Option<int>): string {
    name + NameParts(sh, itemRow, cols.name + 1, cols.unit)
    + NameRows(sh, itemRow + 1, if found.Some? then found.value else LookLimit(sh, itemRow) - 1, cols)
  }

  /** The item read so far, ended by the data row `found` (its own row when there is none). */
  function ItemDataOf(sh: Sheet, itemRow: int, cols: Columns, found: Option<int>, combined: string): ItemData {
    ItemData(combined, DataUnit(sh, cols, found), DataQuantityCell(sh, cols, found),
             if found.Some? then found.value else itemRow)
  }

  /** The unit of the data row, none without one. */
  function DataUnit(sh: Sheet, cols: Columns, found: Option<int>): string {
    match found
    case None => []
    case Some(r) => sh.value(r, cols.unit + 1)
  }

  /** The quantity cell of the data row, empty without one. */
  function DataQuantityCell(sh: Sheet, cols: Columns, found: Option<int>): string {
    match found
    case None => []
    case Some(r) => sh.value(r, cols.quantity + 1)
  }

  /**
   * The item ends on the first of the next four rows (inside the sheet) with a unit or a
   * quantity, and takes that row's unit; with no such row it ends on its own row with no
   * unit and quantity 0.0.
   */
  lemma {:induction false} ItemWithDataSpec(sh: Sheet, itemRow: int, name: string, cols: Columns)
    ensures itemRow <= ItemWithData(sh, itemRow, name, cols).endRow <= itemRow + 4
    ensures ItemWithData(sh, itemRow, name, cols).endRow == itemRow
            <==> forall k :: itemRow < k < LookLimit(sh, itemRow) ==> !HasData(sh, k, cols)
    ensures ItemWithData(sh, itemRow, name, cols).endRow == itemRow
            ==> ItemWithData(sh, itemRow, name, cols).unit == [] && ItemWithData(sh, itemRow, name, cols).quantityCell == []
    ensures ItemWithData(sh, itemRow, name, cols).endRow > itemRow ==>
              ItemWithData(sh, itemRow, name, cols).endRow <= sh.maxRow
              && HasData(sh, ItemWithData(sh, itemRow, name, cols).endRow, cols)
              && (forall k :: itemRow < k < ItemWithData(sh, itemRow, name, cols).endRow ==> !HasData(sh, k, cols))
              && ItemWithData(sh, itemRow, name, cols).unit == sh.value(ItemWithData(sh, itemRow, name, cols).endRow, cols.unit + 1)
  {
    var last := LookLimit(sh, itemRow);
    var found := FirstData(sh, itemRow + 1, last, cols);
    FirstDataFirst(sh, itemRow + 1, last, cols);
    ItemDataOfFields(sh, itemRow, cols, found, CombinedName(sh, itemRow, name, cols, found));
    match found
    case None =>
    case Some(r) =>
      assert forall k :: itemRow < k < r ==> !HasData(sh, k, cols);
  }

  /** The last row of the item at `itemRow`: its data row, or itself when there is none. */
  function ItemEnd(sh: Sheet, itemRow: int, cols: Columns): int {
    match FirstData(sh, itemRow + 1, LookLimit(sh, itemRow), cols)
    case None => itemRow
    case Some(r) => r
  }

  /** The item read with its data ends on `ItemEnd`, whatever its name. */
  lemma {:induction false} ItemWithDataEnd(sh: Sheet, itemRow: int, name: string, cols: Columns)
    ensures ItemWithData(sh, itemRow, name, cols).endRow == ItemEnd(sh, itemRow, cols)
  {
    var found := FirstData(sh, itemRow + 1, LookLimit(sh, itemRow), cols);
    ItemDataOfFields(sh, itemRow, cols, found, CombinedName(sh, itemRow, name, cols, found));
  }

  /** The data row, if any, gives the item's last row, its unit and its quantity cell. */
  lemma {:induction false} ItemDataOfFields(sh: Sheet, itemRow: int, cols: Columns, found: Option<int>, combined: string)
    ensures ItemDataOf(sh, itemRow, cols, found, combined).endRow == (if found.Some? then found.value else itemRow)
    ensures found.Some? ==> ItemDataOf(sh, itemRow, cols, found, combined).unit == sh.value(found.value, cols.unit + 1)
    ensures found.None? ==> ItemDataOf(sh, itemRow, cols, found, combined).unit == []
                            && ItemDataOf(sh, itemRow, cols, found, combined).quantityCell == []
  {
    assert ItemDataOf(sh, itemRow, cols, found, combined).unit == DataUnit(sh, cols, found);
    assert ItemDataOf(sh, itemRow, cols, found, combined).quantityCell == DataQuantityCell(sh, cols, found);
    match found
    case None =>
    case Some(r) =>
      assert DataUnit(sh, cols, found) == sh.value(r, cols.unit + 1);
  }

  /** The horizontal name loop of `_extract_item_with_data` over one row. */
  method CollectNameParts(sh: Sheet, row: int, lo: int, hi: int) returns (parts: string)
    ensures parts == NameParts(sh, row, lo, hi)
  {
    parts := [];
    var col := lo;
    while col < hi
      invariant parts + NameParts(sh, row, col, hi) == NameParts(sh, row, lo, hi)
      decreases hi - col
    {
      var v := sh.value(row, col + 1);
      if v != [] {
        assert NameParts(sh, row, col, hi) == " " + v + NameParts(sh, row, col + 1, hi);
        parts := parts + " " + v;
      } else {
        assert NameParts(sh, row, col, hi) == NameParts(sh, row, col + 1, hi);
      }
      col := col + 1;
    }
  }

  /** The look-ahead loop: rows from `itemRow + 1` below `last`, with the name collected so far. */
  method LookAhead(sh: Sheet, itemRow: int, last: int, cols: Columns, first: string)
    returns (found: Option<int>, combined: string)
    ensures found == FirstData(sh, itemRow + 1, last, cols)
    ensures combined == first + NameRows(sh, itemRow + 1, if found.Some? then found.value else last - 1, cols)
  {
    combined := first;
    EmptyNameRows(sh, itemRow + 1, cols);
    var check := itemRow + 1;
    while check < last
      invariant itemRow < check && (check == itemRow + 1 || check <= last)
      invariant FirstData(sh, check, last, cols) == FirstData(sh, itemRow + 1, last, cols)
      invariant combined == first + NameRows(sh, itemRow + 1, check - 1, cols)
      decreases last - check
    {
      var hit;
      hit, combined := LookAheadRow(sh, itemRow, check, last, cols, first, combined);
      if hit {
        return Some(check), combined;
      }
      check := check + 1;
    }
    LookAheadDone(sh, itemRow, check, last, cols, first, combined);
    found := None;
  }

  /** No rows, no name parts. */
  lemma {:induction false} EmptyNameRows(sh: Sheet, lo: int, cols: Columns)
    ensures NameRows(sh, lo, lo - 1, cols) == []
  {
  }

  /** One row of the look-ahead loop: add its name parts, and stop when it has a unit or a quantity. */
  method LookAheadRow(sh: Sheet, itemRow: int, check: int, last: int, cols: Columns, first: string, combined: string)
    returns (hit: bool, combined': string)
    requires itemRow < check < last
    requires FirstData(sh, check, last, cols) == FirstData(sh, itemRow + 1, last, cols)
    requires combined == first + NameRows(sh, itemRow + 1, check - 1, cols)
    ensures combined' == first + NameRows(sh, itemRow + 1, check, cols)
    ensures hit ==> FirstData(sh, itemRow + 1, last, cols) == Some(check)
    ensures !hit ==> FirstData(sh, check + 1, last, cols) == FirstData(sh, itemRow + 1, last, cols)
  {
    var parts := CollectNameParts(sh, check, cols.name + 1, cols.unit);
    NameRowsStep(sh, itemRow + 1, check, cols, first, combined, parts);
    FirstDataStep(sh, check, last, cols);
    combined' := combined + parts;
    hit := sh.value(check, cols.unit + 1) != [] || sh.value(check, cols.quantity + 1) != [];
  }

  /** When the look-ahead runs out of rows nothing was found, and the name has the parts of every row looked at. */
  lemma {:induction false} LookAheadDone(sh: Sheet, itemRow: int, check: int, last: int, cols: Columns,
                                         first: string, combined: string)
    requires check >= last && itemRow < check && (check == itemRow + 1 || check <= last)
    requires FirstData(sh, check, last, cols) == FirstData(sh, itemRow + 1, last, cols)
    requires combined == first + NameRows(sh, itemRow + 1, check - 1, cols)
    ensures FirstData(sh, itemRow + 1, last, cols) == None
    ensures combined == first + NameRows(sh, itemRow + 1, last - 1, cols)
  {
    if check != last {
      assert NameRows(sh, itemRow + 1, check - 1, cols) == [];
      assert NameRows(sh, itemRow + 1, last - 1, cols) == [];
    }
  }

  /** One more row of name parts. */
  lemma {:induction false} NameRowsStep(sh: Sheet, lo: int, hi: int, cols: Columns, first: string, combined: string, parts: string)
    requires lo <= hi && combined == first + NameRows(sh, lo, hi - 1, cols)
    requires parts == NameParts(sh, hi, cols.name + 1, cols.unit)
    ensures combined + parts == first + NameRows(sh, lo, hi, cols)
  {
    ConcatAssoc(first, NameRows(sh, lo, hi - 1, cols), parts);
  }

  /** One more row of the search for the data row. */
  lemma {:induction false} FirstDataStep(sh: Sheet, row: int, last: int, cols: Columns)
    requires row < last
    ensures HasData(sh, row, cols) ==> FirstData(sh, row, last, cols) == Some(row)
    ensures !HasData(sh, row, cols) ==> FirstData(sh, row, last, cols) == FirstData(sh, row + 1, last, cols)
  {
  }

  /** `_extract_item_with_data` */
  method ExtractItemWithData(sh: Sheet, itemRow: int, name: string, cols: Columns) returns (d: ItemData)
    ensures d == ItemWithData(sh, itemRow, name, cols)
  {
    var parts := CollectNameParts(sh, itemRow, cols.name + 1, cols.unit);
    var found, combined := LookAhead(sh, itemRow, LookLimit(sh, itemRow), cols, name + parts);
    assert combined == CombinedName(sh, itemRow, name, cols, found);
    match found
    case None =>
      d := ItemData(combined, [], [], itemRow);
    case Some(r) =>
      d := ItemData(combined, sh.value(r, cols.unit + 1), sh.value(r, cols.quantity + 1), r);
  }

  // -------------------------------------------------- sub-table logical rows

  /**
   * One logical row of a sub-table: `combined_name`, `combined_unit` and `combined_quantity`
   * of the item read with its data, and `reference_number`.
   */
  datatype Entry = Entry(item: ItemData, reference: string)

  /** At most this many rows are examined (`max_rows_to_check`). */
  const MaxRowsToCheck: nat := 200

  /** The name cell of `row` starts an item: it has text that is neither an obvious title nor meaningless. */
  predicate StartsItem(sh: Sheet, row: int, cols: Columns) {
    var v := sh.value(row, cols.name + 1);
    v != [] && !ObviousTitle(v) && !Meaningless(v)
  }

  /** The entry an item row gives. */
  function EntryAt(sh: Sheet, row: int, cols: Columns, reference: string): Entry {
    Entry(ItemWithData(sh, row, sh.value(row, cols.name + 1), cols), reference)
  }

  /** The next row the cursor moves to from `row`. */
  function NextRow(sh: Sheet, row: int, cols: Columns): int {
    if StartsItem(sh, row, cols) then ItemEnd(sh, row, cols) + 1 else row + 1
  }

  /** The loop of `_extract_logical_rows` at row `cur` after `checked` rows: it stops past the sheet, after 200 rows or at the table's end. */
  function EntriesFrom(sh: Sheet, cur: int, checked: nat, cols: Columns, reference: string): seq<Entry>
    decreases MaxRowsToCheck - checked, 1
  {
    if cur > sh.maxRow || checked >= MaxRowsToCheck then []
    else EntriesAt(sh, cur, checked, cols, reference)
  }

  /** One pass at row `cur`: nothing at the table's end, else its entry, if it starts an item, then the rows after it. */
  function EntriesAt(sh: Sheet, cur: int, checked: nat, cols: Columns, reference: string): seq<Entry>
    requires checked < MaxRowsToCheck
    decreases MaxRowsToCheck - checked, 0
  {
    if TableEnd(sh, cur) then []
    else
      (if StartsItem(sh, cur, cols) then [EntryAt(sh, cur, cols, reference)] else [])
      + EntriesFrom(sh, NextRow(sh, cur, cols), checked + 1, cols, reference)
  }

  /** `_extract_logical_rows` */
  function LogicalEntries(sh: Sheet, headerRow: int, cols: Columns, reference: string): seq<Entry> {
    EntriesFrom(sh, headerRow + 1, 0, cols, reference)
  }

  /** The cursor moves down by at least one row and at most five. */
  lemma {:induction false} NextRowStep(sh: Sheet, row: int, cols: Columns)
    ensures row < NextRow(sh, row, cols) <= row + 5
  {
    if StartsItem(sh, row, cols) {
      ItemWithDataSpec(sh, row, sh.value(row, cols.name + 1), cols);
      ItemWithDataEnd(sh, row, sh.value(row, cols.name + 1), cols);
    }
  }

  /**
   * No more entries than rows left to examine; each entry is the item of a row at or below
   * `cur`, inside the sheet, that starts an item and is no table end.
   */
  lemma {:induction false} EntriesFromSpec(sh: Sheet, cur: int, checked: nat, cols: Columns, reference: string)
    requires checked <= MaxRowsToCheck
    ensures |EntriesFrom(sh, cur, checked, cols, reference)| <= MaxRowsToCheck - checked
    ensures forall e :: e in EntriesFrom(sh, cur, checked, cols, reference) ==>
              exists r :: cur <= r <= sh.maxRow && StartsItem(sh, r, cols) && !TableEnd(sh, r)
                          && e == EntryAt(sh, r, cols, reference)
    decreases MaxRowsToCheck - checked
  {
    if cur <= sh.maxRow && checked < MaxRowsToCheck && !TableEnd(sh, cur) {
      var next := NextRow(sh, cur, cols);
      NextRowStep(sh, cur, cols);
      EntriesFromSpec(sh, next, checked + 1, cols, reference);
      assert EntriesFrom(sh, cur, checked, cols, reference) == EntriesAt(sh, cur, checked, cols, reference);
    }
  }

  /** `_extract_logical_rows` examines at most 200 rows, so it gives at most 200 entries. */
  lemma {:induction false} LogicalEntriesBound(sh: Sheet, headerRow: int, cols: Columns, reference: string)
    ensures |LogicalEntries(sh, headerRow, cols, reference)| <= MaxRowsToCheck
    ensures forall e :: e in LogicalEntries(sh, headerRow, cols, reference) ==>
              exists r :: headerRow < r <= sh.maxRow && StartsItem(sh, r, cols) && e == EntryAt(sh, r, cols, reference)
  {
    EntriesFromSpec(sh, headerRow + 1, 0, cols, reference);
  }

  /** One pass of the loop: the entry of row `cur`, if any, and the row to go on from. */
  method EntryStep(sh: Sheet, cur: int, cols: Columns, reference: string) returns (found: seq<Entry>, next: int)
    ensures found == (if StartsItem(sh, cur, cols) then [EntryAt(sh, cur, cols, reference)] else [])
    ensures next == NextRow(sh, cur, cols)
  {
    var name := sh.value(cur, cols.name + 1);
    if name != [] {
      var meaningless := IsMeaningless(name);
      if !ObviousTitle(name) && !meaningless {
        assert StartsItem(sh, cur, cols);
        var d := ExtractItemWithData(sh, cur, name, cols);
        EntryAtItem(sh, cur, cols, reference, d);
        return [Entry(d, reference)], d.endRow + 1;
      }
    }
    assert !StartsItem(sh, cur, cols);
    return [], cur + 1;
  }

  /** The entry of an item row holds the item read with its data, which ends on `ItemEnd`. */
  lemma {:induction false} EntryAtItem(sh: Sheet, row: int, cols: Columns, reference: string, d: ItemData)
    requires StartsItem(sh, row, cols)
    requires d == ItemWithData(sh, row, sh.value(row, cols.name + 1), cols)
    ensures EntryAt(sh, row, cols, reference) == Entry(d, reference)
    ensures NextRow(sh, row, cols) == d.endRow + 1
  {
    ItemWithDataEnd(sh, row, sh.value(row, cols.name + 1), cols);
  }

  /** One pass of the loop takes the row's entry, if any, off the front of what is left. */
  lemma {:induction false} EntriesFromStep(sh: Sheet, cur: int, checked: nat, cols: Columns, reference: string,
                                           found: seq<Entry>, next: int)
    requires cur <= sh.maxRow && checked < MaxRowsToCheck && !TableEnd(sh, cur)
    requires found == (if StartsItem(sh, cur, cols) then [EntryAt(sh, cur, cols, reference)] else [])
    requires next == NextRow(sh, cur, cols)
    ensures EntriesFrom(sh, cur, checked, cols, reference) == found + EntriesFrom(sh, next, checked + 1, cols, reference)
  {
    assert EntriesFrom(sh, cur, checked, cols, reference) == EntriesAt(sh, cur, checked, cols, reference);
  }

  /**
   * One pass of the loop of `_extract_logical_rows` at row `cur`: stop at the table's end, or add
   * the row's entry, if any, to `rows` and move on to `next`.
   */
  method ReadLogicalRow(sh: Sheet, cur: int, checked: nat, cols: Columns, reference: string,
                        rows: seq<Entry>, ghost total: seq<Entry>)
    returns (atEnd: bool, rows': seq<Entry>, next: int)
    requires cur <= sh.maxRow && checked < MaxRowsToCheck
    requires rows + EntriesFrom(sh, cur, checked, cols, reference) == total
    ensures atEnd ==> rows' == total
    ensures !atEnd ==> rows' + EntriesFrom(sh, next, checked + 1, cols, reference) == total
  {
    atEnd := IsTableEnd(sh, cur);
    if atEnd {
      assert EntriesFrom(sh, cur, checked, cols, reference) == EntriesAt(sh, cur, checked, cols, reference);
      assert rows + [] == rows;
      return true, rows, cur;
    }
    var found;
    found, next := EntryStep(sh, cur, cols, reference);
    EntriesFromStep(sh, cur, checked, cols, reference, found, next);
    MoveFront(rows, EntriesFrom(sh, cur, checked, cols, reference), found,
              EntriesFrom(sh, next, checked + 1, cols, reference), total);
    rows' := rows + found;
  }

  /** `_extract_logical_rows` */
  method ExtractLogicalRows(sh: Sheet, headerRow: int, cols: Columns, reference: string) returns (rows: seq<Entry>)
    ensures rows == LogicalEntries(sh, headerRow, cols, reference)
  {
    rows := CollectEntries(sh, headerRow + 1, cols, reference);
  }

  /** The loop of `_extract_logical_rows`, from row `start`. */
  method CollectEntries(sh: Sheet, start: int, cols: Columns, reference: string) returns (rows: seq<Entry>)
    ensures rows == EntriesFrom(sh, start, 0, cols, reference)
  {
    ghost var total := EntriesFrom(sh, start, 0, cols, reference);
    rows := [];
    EmptyConcat(total);
    var cur := start;
    var checked: nat := 0;
    while cur <= sh.maxRow && checked < MaxRowsToCheck
      invariant checked <= MaxRowsToCheck
      invariant rows + EntriesFrom(sh, cur, checked, cols, reference) == total
      decreases MaxRowsToCheck - checked
    {
      var atEnd, rows', next := ReadLogicalRow(sh, cur, checked, cols, reference, rows, total);
      if atEnd {
        return rows';
      }
      rows, cur, checked := rows', next, checked + 1;
    }
    EntriesFromPast(sh, cur, checked, cols, reference, rows, total);
  }

  /** Past the sheet or after 200 rows the loop gives nothing more. */
  lemma {:induction false} EntriesFromPast(sh: Sheet, cur: int, checked: nat, cols: Columns, reference: string,
                                           rows: seq<Entry>, total: seq<Entry>)
    requires cur > sh.maxRow || checked >= MaxRowsToCheck
    requires rows + EntriesFrom(sh, cur, checked, cols, reference) == total
    ensures rows == total
  {
    assert EntriesFrom(sh, cur, checked, cols, reference) == [];
    assert rows + [] == rows;
  }
}

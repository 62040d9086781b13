/**
 * The main-table builder of `server/services/pdf_parser.py`. For every table a
 * header row is found and mapped to columns; every data row is then classified
 * as empty, as a quantity/unit continuation of the previous item, or as a row
 * that carries an item. 農政 tables instead take every row whose name starts
 * with one to three dotted markers (・ or ･) as an item.
 */
module PdfParser {
  import opened Wrappers
  import opened Text
  import opened Grid
  import opened Numbers
  import opened TenderSchema

  /** The `project_area` strings 岩手, 北上市, 農政, and any other string. */
  datatype Area = Iwate | Kitakami | Nousei | OtherArea

  /** Column name to column index. */
  type ColumnMap = Dict<nat>

  // ----------------------------------------------------------- column names

  const NameCol := "工事区分・工種・種別・細別"
  const SpecCol := "規格"
  const UnitCol := "単位"
  const QtyCol := "数量"
  const PriceCol := "単価"
  const AmountCol := "金額"
  const ChangeCol := "数量・金額増減"
  const NoteCol := "摘要"
  const KitakamiNameCol := "費目・工種・種別・細"
  const KitakamiCodeCol := "明細単価番号"
  const NouseiNameCol := "工種・種目"
  const RemarksCol := "備考"
  /** The raw field that marks a 農政 row with three leading dots. */
  const TripleDotField := "_is_triple_dot"

  // -------------------------------------------------------------- quantities

  predicate IsNumChar(c: char) { IsDigit(c) || c == '.' }

  /** The text from the first character satisfying `p` on. */
  function DropUntil(s: string, p: char -> bool): (r: string)
    ensures |r| <= |s| && r == s[|s| - |r|..]
    ensures r == [] || p(r[0])
    ensures forall i :: 0 <= i < |s| - |r| ==> !p(s[i])
    decreases |s|
  {
    if s == [] || p(s[0]) then s else DropUntil(s[1..], p)
  }

  /** The longest prefix whose characters satisfy `p`. */
  function TakeWhile(s: string, p: char -> bool): (r: string)
    ensures |r| <= |s| && r == s[..|r|]
    ensures forall i :: 0 <= i < |r| ==> p(r[i])
    ensures |r| < |s| ==> !p(s[|r|])
    decreases |s|
  {
    if s != [] && p(s[0]) then [s[0]] + TakeWhile(s[1..], p) else []
  }

  /** `re.search(r'[\d.]+', s)`: the first maximal run of digits and dots, "" when there is none. */
  function NumberRun(s: string): string {
    TakeWhile(DropUntil(s, IsNumChar), IsNumChar)
  }

  /** `_extract_quantity`: commas removed, the first run of digits and dots read by `float`, 0.0 when that fails. */
  function ExtractQuantity(cell: string, area: Area): real {
    if cell == [] then 0.0
    else if area == Kitakami then KitakamiQuantity(cell, None)
    else
      var m := NumberRun(Filter(cell, c => c != ','));
      if m == [] then 0.0 else ParseFloat(m).GetOr(0.0)
  }

  /** `_extract_number_from_text`: `(\d+\.?\d*)`, digits and, when a '.' follows, the digits after it. */
  function NumberFromText(t: string): (r: Option<real>)
    ensures r.Some? ==> r.value >= 0.0
  {
    var s := DropUntil(t, IsDigit);
    if s == [] then None
    else
      var d1 := TakeWhile(s, IsDigit);
      var rest := s[|d1|..];
      var d2 := if rest != [] && rest[0] == '.' then TakeWhile(rest[1..], IsDigit) else [];
      Some(NatValue(d1) as real + FracValue(d2))
  }

  /** Characters `_is_description_text` takes for item text: letters, `=`, parentheses, 号 and 明. */
  predicate DescriptionChar(c: char) {
    IsAsciiLetter(c) || c == '=' || c == '(' || c == ')' || c == 'k' || c == 'N' || c == 'm' || c == 't'
    || c == '号' || c == '明'
  }

  predicate IsDescription(t: string) {
    exists i :: 0 <= i < |t| && DescriptionChar(t[i])
  }

  /** `re.search(lead + r'(\d+)', t).group(1)`: the digits after the first `lead` that a digit follows. */
  function DigitsAfter(t: string, lead: string): (r: Option<string>)
    ensures r.Some? ==> r.value != [] && DigitString(r.value)
    decreases |t|
  {
    if t == [] then None
    else if StartsWith(t, lead) && |t| > |lead| && IsDigit(t[|lead|]) then Some(TakeWhile(t[|lead|..], IsDigit))
    else DigitsAfter(t[1..], lead)
  }

  /** One neighbour of the 北上市 quantity cell, read as the digits of a decimal part. */
  function AdjacentCandidate(row: Row, j: int): (r: Option<string>)
    ensures r.Some? ==> r.value != [] && DigitString(r.value)
  {
    if 0 <= j < |row| && Truthy(row[j]) then
      var t := RemoveSpaces(row[j].value);
      if IsDescription(t) then None
      else
        match DigitsAfter(t, "0.")
        case Some(d) => Some(d)
        case None =>
          match DigitsAfter(t, ".")
          case Some(d) => Some(d)
          case None => if AllDigits(t) && |t| <= 3 then Some(t) else None
    else None
  }

  /** `_find_adjacent_decimal_part`: the left neighbour first, then the right one. */
  function AdjacentDecimal(row: Row, idx: nat): (r: Option<string>)
    ensures r.Some? ==> r.value != [] && DigitString(r.value)
  {
    match AdjacentCandidate(row, idx - 1)
    case Some(d) => Some(d)
    case None => AdjacentCandidate(row, idx + 1)
  }

  /**
   * `_extract_kitakami_quantity`: the number in the cell; a whole number whose
   * row and column are known takes a decimal part from an adjacent cell.
   * Text without a digit also fails the `(\d+)\.(\d+)` retry, so it gives 0.0.
   */
  function KitakamiQuantity(cell: string, at: Option<(Row, nat)>): real {
    if cell == [] then 0.0
    else
      match NumberFromText(RemoveSpaces(cell))
      case Some(q) =>
        if q == q.Floor as real && at.Some? then
          match AdjacentDecimal(at.value.0, at.value.1)
          case Some(d) => q.Floor as real + FracValue(d)
          case None => q
        else q
      case None => 0.0
  }

  /** A run of digits and dots is read by `float` as a non-negative number, if at all. */
  lemma {:induction false} ParseNumberRun(m: string)
    requires forall i :: 0 <= i < |m| ==> IsNumChar(m[i])
    ensures ParseFloat(m).Some? ==> ParseFloat(m).value >= 0.0
  {
    if m != [] {
      assert !IsSpace(m[0]) && !IsSpace(m[|m| - 1]);
      StripUnspaced(m);
      assert m[0] != '-' && m[0] != '+';
    }
  }

  /** Quantities are never negative. */
  lemma {:induction false} ExtractQuantityNonNegative(cell: string, area: Area)
    ensures ExtractQuantity(cell, area) >= 0.0
  {
    if cell != [] && area == Kitakami {
      KitakamiQuantityNonNegative(cell, None);
    } else if cell != [] {
      ParseNumberRun(NumberRun(Filter(cell, c => c != ',')));
    }
  }

  lemma {:induction false} KitakamiQuantityNonNegative(cell: string, at: Option<(Row, nat)>)
    ensures KitakamiQuantity(cell, at) >= 0.0
  {
  }

  /** A string of digits and commas reads as the number its digits spell: "1,234" is 1234. */
  lemma {:induction false} ExtractQuantityDigits(a: string, b: string, area: Area)
    requires area != Kitakami
    requires DigitString(a) && DigitString(b) && |a| > 0 && |b| > 0
    ensures ExtractQuantity(a, area) == NatValue(a) as real
    ensures ExtractQuantity(a + "," + b, area) == NatValue(a + b) as real
  {
    DigitRun(a);
    var s := a + "," + b;
    DropComma(a, b);
    assert DigitString(a + b);
    DigitRun(a + b);
  }

  lemma {:induction false} DropComma(a: string, b: string)
    requires DigitString(a) && DigitString(b)
    ensures Filter(a + "," + b, c => c != ',') == a + b
  {
    var keep := c => c != ',';
    FilterConcat(a + ",", b, keep);
    FilterConcat(a, ",", keep);
    assert Filter(a, keep) == a;
    assert Filter(b, keep) == b;
    assert Filter(",", keep) == [];
  }

  lemma {:induction false} DigitRun(s: string)
    requires DigitString(s) && |s| > 0
    ensures Filter(s, c => c != ',') == s
    ensures NumberRun(s) == s
    ensures ParseFloat(s) == Some(NatValue(s) as real)
  {
    forall i | 0 <= i < |s| ensures IsNumChar(s[i]) && s[i] != ',' {
      assert IsDigit(s[i]);
    }
    assert Filter(s, c => c != ',') == s;
    assert DropUntil(s, IsNumChar) == s;
    TakeAll(s, IsNumChar);
    ParsePlainDigits(s);
  }

  lemma {:induction false} TakeAll(s: string, p: char -> bool)
    requires forall i :: 0 <= i < |s| ==> p(s[i])
    ensures TakeWhile(s, p) == s
  {
  }

  /** `_extract_quantity(str(n))` is `n`. */
  lemma {:induction false} ExtractQuantityDecimal(n: nat, area: Area)
    requires area != Kitakami
    ensures ExtractQuantity(DecimalString(n), area) == n as real
  {
    DigitRun(DecimalString(n));
    NatValueOfDecimalString(n);
  }

  // ------------------------------------------------------------ row fields

  /** A value as `_extract_fields_from_row` stores it: non-empty, without surrounding whitespace. */
  predicate Trimmed(v: string) {
    v != [] && !IsSpace(v[0]) && !IsSpace(v[|v| - 1])
  }

  predicate TrimmedFields(raw: Fields) {
    forall i :: 0 <= i < |raw| ==> Trimmed(raw[i].1)
  }

  /** The raw fields of a row: for each mapped column, in map order, the stripped text of a cell that has some. */
  function RowFields(row: Row, cols: ColumnMap): (r: Fields)
    ensures forall i :: 0 <= i < |r| ==> Trimmed(r[i].1) && HasKey(cols, r[i].0)
    decreases |cols|
  {
    if cols == [] then []
    else
      var rest := RowFields(row, cols[1..]);
      ColumnsOfTail(rest, cols);
      var c := At(row, cols[0].1);
      if HasText(c) then
        CellTextTrimmed(c);
        [(cols[0].0, CellText(c))] + rest
      else rest
  }

  lemma {:induction false} ColumnsOfTail(rest: Fields, cols: ColumnMap)
    requires cols != []
    requires forall i :: 0 <= i < |rest| ==> HasKey(cols[1..], rest[i].0)
    ensures forall i :: 0 <= i < |rest| ==> HasKey(cols, rest[i].0)
  {
    forall i | 0 <= i < |rest| ensures HasKey(cols, rest[i].0) {
      TailKey(cols, rest[i].0);
    }
  }

  lemma {:induction false} TailKey<V>(d: Dict<V>, k: string)
    requires d != [] && HasKey(d[1..], k)
    ensures HasKey(d, k)
  {
    var j :| 0 <= j < |d[1..]| && d[1..][j].0 == k;
    assert d[j + 1].0 == k;
  }

  lemma {:induction false} CellTextTrimmed(c: Cell)
    requires HasText(c)
    ensures Trimmed(CellText(c))
  {
  }

  /** The raw fields of a one-cell row under a one-column map. */
  lemma {:induction false} RowFieldsSingle(c: Cell, name: string)
    ensures RowFields([c], [(name, 0)]) == if HasText(c) then [(name, CellText(c))] else []
  {
    assert [(name, 0)][1..] == [];
    assert At([c], 0) == c;
  }

  /** `_extract_fields_from_row` ignores a 北上市 row whose name cell mentions 合計. */
  predicate KitakamiTotalRow(row: Row, cols: ColumnMap) {
    var i := Get(cols, KitakamiNameCol).GetOr(0);
    i < |row| && Truthy(row[i]) && Contains(Strip(row[i].value), "合計")
  }

  /** The quantity `_extract_fields_from_row` reads from the 数量 cell, 0.0 without one. */
  function RowQuantity(row: Row, cols: ColumnMap, area: Area): real {
    match Get(cols, QtyCol)
    case Some(i) =>
      if !HasText(At(row, i)) then 0.0
      else if area == Kitakami then KitakamiQuantity(CellText(At(row, i)), Some((row, i)))
      else ExtractQuantity(CellText(At(row, i)), area)
    case None => 0.0
  }

  /** The unit `_extract_fields_from_row` reads from the 単位 cell. */
  function RowUnit(row: Row, cols: ColumnMap): Option<string> {
    match Get(cols, UnitCol)
    case Some(i) => if HasText(At(row, i)) then Some(CellText(At(row, i))) else None
    case None => None
  }

  /** `_extract_fields_from_row`: raw fields, quantity and unit of one row. */
  function ExtractFields(row: Row, cols: ColumnMap, area: Area): (Fields, real, Option<string>) {
    if area == Kitakami && KitakamiTotalRow(row, cols) then ([], 0.0, None)
    else (RowFields(row, cols), RowQuantity(row, cols, area), RowUnit(row, cols))
  }

  /** The fields whose presence marks a row as carrying an item, per area. */
  function IdentifyingFields(area: Area): seq<string> {
    match area
    case Kitakami => [KitakamiNameCol, KitakamiCodeCol]
    case Nousei => [NouseiNameCol, SpecCol, RemarksCol, NoteCol]
    case _ => [NameCol, SpecCol, NoteCol]
  }

  /** `_has_item_identifying_fields` */
  predicate HasIdentifyingFields(raw: Fields, area: Area) {
    exists f :: f in IdentifyingFields(area) && GetOrEmpty(raw, f) != []
  }

  /** `has_quantity_data`: a positive quantity, or any 単位 field. */
  predicate HasQuantityData(raw: Fields, quantity: real) {
    quantity > 0.0 || HasKey(raw, UnitCol)
  }

  // ---------------------------------------------------------------- item key

  /** The fields tried, in this order, for the start of an item key. */
  const KeyFields := [NouseiNameCol, NameCol, NoteCol, RemarksCol]
  /** The fields the fallback start of an item key never comes from. */
  const NonKeyFields := [UnitCol, QtyCol, PriceCol, AmountCol, SpecCol]

  /** The first non-empty value among the fields `names`, tried in that order. */
  function FirstNamed(raw: Fields, names: seq<string>): (r: Option<string>)
    ensures r.Some? ==> r.value != [] && (exists j :: 0 <= j < |names| && Get(raw, names[j]) == Some(r.value) &&
                                            forall j' :: 0 <= j' < j ==> GetOrEmpty(raw, names[j']) == [])
    ensures r.None? ==> forall j :: 0 <= j < |names| ==> GetOrEmpty(raw, names[j]) == []
    decreases |names|
  {
    if names == [] then None
    else if GetOrEmpty(raw, names[0]) != [] then Some(GetOrEmpty(raw, names[0]))
    else
      var r := FirstNamed(raw, names[1..]);
      assert forall j :: 1 <= j < |names| ==> names[j] == names[1..][j - 1];
      r
  }

  /** The first non-empty value, in insertion order, whose field is not one of `excluded`; "" when there is none. */
  function FirstOther(raw: Fields, excluded: seq<string>): (r: string)
    ensures r != [] ==> (exists i :: 0 <= i < |raw| && raw[i].1 == r && raw[i].0 !in excluded &&
                                 forall i' :: 0 <= i' < i ==> raw[i'].1 == [] || raw[i'].0 in excluded)
    ensures r == [] ==> forall i :: 0 <= i < |raw| ==> raw[i].1 == [] || raw[i].0 in excluded
    decreases |raw|
  {
    if raw == [] then []
    else if raw[0].1 != [] && raw[0].0 !in excluded then raw[0].1
    else
      var r := FirstOther(raw[1..], excluded);
      assert forall i :: 1 <= i < |raw| ==> raw[i] == raw[1..][i - 1];
      r
  }

  function BaseKey(raw: Fields): string {
    match FirstNamed(raw, KeyFields)
    case Some(b) => b
    case None => FirstOther(raw, NonKeyFields)
  }

  /** `_create_item_key_from_fields`: the base key, then " " and the 規格 value when there is one, stripped. */
  function ItemKey(raw: Fields): string {
    var spec := GetOrEmpty(raw, SpecCol);
    if spec != [] then Strip(BaseKey(raw) + " " + spec) else BaseKey(raw)
  }

  // ------------------------------------------------------ continuation merge

  /**
   * The fields of `f` followed by those of `extra` that `f` lacks, in the order
   * of `extra` (`for k, v in extra.items(): if k not in f: f[k] = v`; setting
   * a key a dict lacks appends it).
   */
  function AddMissing(f: Fields, extra: Fields): Fields
    decreases |extra|
  {
    if extra == [] then f
    else
      var g := AddMissing(f, extra[..|extra| - 1]);
      var (k, v) := extra[|extra| - 1];
      if HasKey(g, k) then g else g + [(k, v)]
  }

  /** Every field of `f` keeps its value; every other field takes the first value `extra` gives it. */
  lemma {:induction false} AddMissingGet(f: Fields, extra: Fields, k: string)
    ensures HasKey(f, k) ==> Get(AddMissing(f, extra), k) == Get(f, k)
    ensures !HasKey(f, k) ==> Get(AddMissing(f, extra), k) == Get(extra, k)
    decreases |extra|
  {
    if extra != [] {
      var init := extra[..|extra| - 1];
      var g := AddMissing(f, init);
      var (k1, v1) := extra[|extra| - 1];
      AddMissingGet(f, init, k);
      assert extra == init + [(k1, v1)];
      GetSnoc(init, k1, v1, k);
      if HasKey(g, k1) {
        assert AddMissing(f, extra) == g;
      } else {
        assert AddMissing(f, extra) == g + [(k1, v1)];
        GetSnoc(g, k1, v1, k);
      }
    }
  }

  /** The fields of `f` stay where they were: `f` is a prefix of the merged fields. */
  lemma {:induction false} AddMissingPrefix(f: Fields, extra: Fields)
    ensures |AddMissing(f, extra)| >= |f| && AddMissing(f, extra)[..|f|] == f
    decreases |extra|
  {
    if extra != [] {
      AddMissingPrefix(f, extra[..|extra| - 1]);
    }
  }

  /**
   * `_complete_previous_item_with_quantity_data` on the last item: the quantity
   * is set to the row's (not added to it), the unit is set when the row has a
   * 単位 field, and only fields the item lacks are added.
   */
  function MergeInto(last: TenderItem, raw: Fields, quantity: real): TenderItem {
    last.(quantity := quantity,
          unit := if HasKey(raw, UnitCol) then Some(GetOrEmpty(raw, UnitCol)) else last.unit,
          rawFields := AddMissing(last.rawFields, raw))
  }

  // ------------------------------------------------------ row classification

  /** What `_process_single_row_with_spanning` returns: "skipped", "merged", or a new item. */
  datatype RowOutcome = Skipped | Merged | Created(item: TenderItem)

  /** `_process_single_row_with_spanning`, `items` being the items of the current table so far. */
  function ClassifyRow(row: Row, cols: ColumnMap, area: Area, page: nat, items: seq<TenderItem>): RowOutcome {
    if RowBlank(row) then Skipped
    else
      var (raw, quantity, unit) := ExtractFields(row, cols, area);
      var identifying := HasIdentifyingFields(raw, area);
      var data := HasQuantityData(raw, quantity);
      if identifying then
        var key := ItemKey(raw);
        if key == [] then Skipped
        else Created(TenderItem(key, raw, if data then quantity else 0.0, PDF, unit, Some(page + 1)))
      else if data then
        if items == [] || items[|items| - 1].quantity > 0.0 then Skipped else Merged
      else Skipped
  }

  /** The items of the current table after one more row. */
  function Step(items: seq<TenderItem>, row: Row, cols: ColumnMap, area: Area, page: nat): seq<TenderItem> {
    match ClassifyRow(row, cols, area, page, items)
    case Skipped => items
    case Created(item) => items + [item]
    case Merged =>
      var (raw, quantity, _) := ExtractFields(row, cols, area);
      items[..|items| - 1] + [MergeInto(items[|items| - 1], raw, quantity)]
  }

  /** The items of a non-農政 table: its data rows folded with `Step`, starting from no items. */
  function RowItems(rows: seq<Row>, cols: ColumnMap, area: Area, page: nat): seq<TenderItem>
    decreases |rows|
  {
    if rows == [] then []
    else Step(RowItems(rows[..|rows| - 1], cols, area, page), rows[|rows| - 1], cols, area, page)
  }

  // ---------------------------------------------------- properties of rows

  /** The fields that alone never make an item key. */
  const QuantityOnlyFields := [UnitCol, QtyCol, PriceCol, AmountCol]

  /**
   * For fields as a row yields them, the item key is empty exactly when every
   * field is one of 単位, 数量, 単価 and 金額; such a row is never an item.
   */
  lemma {:induction false} ItemKeyEmpty(raw: Fields)
    requires TrimmedFields(raw)
    ensures ItemKey(raw) == [] <==> forall i :: 0 <= i < |raw| ==> raw[i].0 in QuantityOnlyFields
  {
    var spec := GetOrEmpty(raw, SpecCol);
    if forall i :: 0 <= i < |raw| ==> raw[i].0 in QuantityOnlyFields {
      assert forall k :: k in KeyFields || k == SpecCol ==> !HasKey(raw, k);
      assert spec == [];
      assert FirstNamed(raw, KeyFields).None?;
      assert forall i :: 0 <= i < |raw| ==> raw[i].0 in NonKeyFields;
    }
    if ItemKey(raw) == [] {
      if spec != [] {
        StripEmptyIffBlank(BaseKey(raw) + " " + spec);
      }
      assert BaseKey(raw) == [];
      forall i | 0 <= i < |raw| ensures raw[i].0 in QuantityOnlyFields {
        assert raw[i].0 in NonKeyFields;
      }
    }
  }

  /** With both a base and a 規格 value, the key is the two joined by one space. */
  lemma {:induction false} ItemKeyJoinsSpec(raw: Fields)
    requires TrimmedFields(raw)
    requires BaseKey(raw) != [] && GetOrEmpty(raw, SpecCol) != []
    ensures ItemKey(raw) == BaseKey(raw) + " " + GetOrEmpty(raw, SpecCol)
  {
    var b := BaseKey(raw);
    var spec := GetOrEmpty(raw, SpecCol);
    assert (SpecCol, spec) in raw;
    assert Trimmed(spec);
    BaseKeyTrimmed(raw);
    StripUnspaced(b + " " + spec);
  }

  lemma {:induction false} BaseKeyTrimmed(raw: Fields)
    requires TrimmedFields(raw) && BaseKey(raw) != []
    ensures Trimmed(BaseKey(raw))
  {
    match FirstNamed(raw, KeyFields)
    case Some(b) =>
      var j :| 0 <= j < |KeyFields| && Get(raw, KeyFields[j]) == Some(b);
      assert (KeyFields[j], b) in raw;
    case None =>
  }

  /**
   * One row changes the table's items in one of three ways: not at all (always
   * for an empty row), by one new item at the end, or by merging into the last
   * item, which must then have a quantity that is not positive.
   */
  lemma {:induction false} StepShape(items: seq<TenderItem>, row: Row, cols: ColumnMap, area: Area, page: nat)
    ensures RowBlank(row) ==> Step(items, row, cols, area, page) == items
    ensures var r := Step(items, row, cols, area, page);
            var (raw, quantity, _) := ExtractFields(row, cols, area);
            || r == items
            || (|r| == |items| + 1 && r[..|items|] == items && r[|items|].itemKey != [])
            || (items != [] && items[|items| - 1].quantity <= 0.0 && !HasIdentifyingFields(raw, area)
                && |r| == |items| && r[..|items| - 1] == items[..|items| - 1]
                && r[|items| - 1] == MergeInto(items[|items| - 1], raw, quantity))
  {
  }

  /**
   * The merge sets the quantity, sets the unit only when the row has one, keeps
   * every field the item had (in place, with its value) and adds the others.
   */
  lemma {:induction false} MergeIntoSpec(last: TenderItem, raw: Fields, quantity: real)
    ensures var m := MergeInto(last, raw, quantity);
            && m.quantity == quantity
            && m.itemKey == last.itemKey && m.source == last.source && m.pageNumber == last.pageNumber
            && (HasKey(raw, UnitCol) ==> m.unit == Get(raw, UnitCol))
            && (!HasKey(raw, UnitCol) ==> m.unit == last.unit)
            && |m.rawFields| >= |last.rawFields| && m.rawFields[..|last.rawFields|] == last.rawFields
            && (forall k :: HasKey(last.rawFields, k) ==> Get(m.rawFields, k) == Get(last.rawFields, k))
            && (forall k :: !HasKey(last.rawFields, k) ==> Get(m.rawFields, k) == Get(raw, k))
  {
    AddMissingPrefix(last.rawFields, raw);
    forall k ensures HasKey(last.rawFields, k) ==> Get(AddMissing(last.rawFields, raw), k) == Get(last.rawFields, k)
      ensures !HasKey(last.rawFields, k) ==> Get(AddMissing(last.rawFields, raw), k) == Get(raw, k)
    {
      AddMissingGet(last.rawFields, raw, k);
    }
  }

  /** Items read from one page: each has a key and records PDF as its source and the page. */
  predicate PageItems(items: seq<TenderItem>, page: nat) {
    forall i :: 0 <= i < |items| ==>
      items[i].itemKey != [] && items[i].source == PDF && items[i].pageNumber == Some(page + 1)
  }

  /** One row adds at most one item, and a created or merged item is still an item of the page. */
  lemma {:induction false} StepPageItems(items: seq<TenderItem>, row: Row, cols: ColumnMap, area: Area, page: nat)
    requires PageItems(items, page)
    ensures |Step(items, row, cols, area, page)| <= |items| + 1
    ensures PageItems(Step(items, row, cols, area, page), page)
  {
    var r := Step(items, row, cols, area, page);
    match ClassifyRow(row, cols, area, page, items)
    case Skipped =>
      assert r == items;
    case Created(item) =>
      assert r == items + [item];
      assert item.itemKey != [] && item.source == PDF && item.pageNumber == Some(page + 1);
      PageItemsAppend(items, item, page);
    case Merged =>
      assert items != [];
      var (raw, quantity, _) := ExtractFields(row, cols, area);
      var m := MergeInto(items[|items| - 1], raw, quantity);
      MergeIntoSpec(items[|items| - 1], raw, quantity);
      assert r == items[..|items| - 1] + [m];
      PageItemsReplaceLast(items, m, page);
  }

  /** Appending an item of the page keeps every item one of the page. */
  lemma {:induction false} PageItemsAppend(items: seq<TenderItem>, item: TenderItem, page: nat)
    requires PageItems(items, page)
    requires item.itemKey != [] && item.source == PDF && item.pageNumber == Some(page + 1)
    ensures PageItems(items + [item], page)
  {
    var r := items + [item];
    forall i | 0 <= i < |r| ensures r[i].itemKey != [] && r[i].source == PDF && r[i].pageNumber == Some(page + 1) {
      if i < |items| { assert r[i] == items[i]; }
    }
  }

  /** Replacing the last item by an item of the page keeps every item one of the page. */
  lemma {:induction false} PageItemsReplaceLast(items: seq<TenderItem>, m: TenderItem, page: nat)
    requires PageItems(items, page) && items != []
    requires m.itemKey != [] && m.source == PDF && m.pageNumber == Some(page + 1)
    ensures PageItems(items[..|items| - 1] + [m], page)
  {
    var r := items[..|items| - 1] + [m];
    forall i | 0 <= i < |r| ensures r[i].itemKey != [] && r[i].source == PDF && r[i].pageNumber == Some(page + 1) {
      if i < |items| - 1 { assert r[i] == items[i]; } else { assert r[i] == m; }
    }
  }

  /** Items never come from nothing: a table's first rows cannot merge, and every item has a key. */
  lemma {:induction false} RowItemsShape(rows: seq<Row>, cols: ColumnMap, area: Area, page: nat)
    ensures |RowItems(rows, cols, area, page)| <= |rows|
    ensures PageItems(RowItems(rows, cols, area, page), page)
    decreases |rows|
  {
    if rows != [] {
      var init := RowItems(rows[..|rows| - 1], cols, area, page);
      RowItemsShape(rows[..|rows| - 1], cols, area, page);
      StepPageItems(init, rows[|rows| - 1], cols, area, page);
      assert RowItems(rows, cols, area, page) == Step(init, rows[|rows| - 1], cols, area, page);
    }
  }

  /** 単位 and 数量 never identify an item. */
  lemma {:induction false} QuantityFieldsNotIdentifying(area: Area, name: string, v: string)
    requires name == UnitCol || name == QtyCol
    ensures !HasIdentifyingFields([(name, v)], area)
  {
    forall f | f in IdentifyingFields(area) ensures GetOrEmpty([(name, v)], f) == [] {
      assert f != name;
    }
  }

  /** A row whose only text is a 単位 cell completes the previous item while its quantity is still 0. */
  lemma {:induction false} UnitOnlyRowMerges(items: seq<TenderItem>, u: string, area: Area, page: nat)
    requires area != Kitakami && !Blank(u)
    requires items != [] && items[|items| - 1].quantity == 0.0
    ensures var r := Step(items, [Some(u)], [(UnitCol, 0)], area, page);
            && |r| == |items| && r[..|items| - 1] == items[..|items| - 1]
            && r[|items| - 1].unit == Some(Strip(u)) && r[|items| - 1].quantity == 0.0
  {
    UnitOnlyRowFields(items, u, area, page);
    var raw := [(UnitCol, Strip(u))];
    assert Get(raw, UnitCol) == Some(Strip(u));
  }

  lemma {:induction false} UnitOnlyRowFields(items: seq<TenderItem>, u: string, area: Area, page: nat)
    requires area != Kitakami && !Blank(u)
    requires items != [] && items[|items| - 1].quantity == 0.0
    ensures ExtractFields([Some(u)], [(UnitCol, 0)], area).0 == [(UnitCol, Strip(u))]
    ensures ExtractFields([Some(u)], [(UnitCol, 0)], area).1 == 0.0
    ensures ClassifyRow([Some(u)], [(UnitCol, 0)], area, page, items) == Merged
  {
    var row: Row := [Some(u)];
    var cols: ColumnMap := [(UnitCol, 0)];
    assert HasText(row[0]);
    assert CellText(row[0]) == Strip(u);
    RowFieldsSingle(row[0], UnitCol);
    var raw := RowFields(row, cols);
    assert raw == [(UnitCol, Strip(u))];
    assert Get(cols, QtyCol) == None by { assert cols[0].0 != QtyCol; assert cols[1..] == []; }
    assert RowQuantity(row, cols, area) == 0.0;
    assert ExtractFields(row, cols, area).0 == raw && ExtractFields(row, cols, area).1 == 0.0;
    QuantityFieldsNotIdentifying(area, UnitCol, Strip(u));
    assert HasKey(raw, UnitCol) by { assert raw[0].0 == UnitCol; }
    assert !RowBlank(row);
  }

  /** A row whose only text is a 数量 cell reading 0 is no continuation: it is skipped. */
  lemma {:induction false} ZeroQuantityRowSkipped(items: seq<TenderItem>, z: string, area: Area, page: nat)
    requires area != Kitakami && z == DecimalString(0)
    ensures Step(items, [Some(z)], [(QtyCol, 0)], area, page) == items
  {
    ZeroQuantityRowFields(z, area);
  }

  lemma {:induction false} ZeroQuantityRowFields(z: string, area: Area)
    requires area != Kitakami && z == DecimalString(0)
    ensures !RowBlank([Some(z)])
    ensures ExtractFields([Some(z)], [(QtyCol, 0)], area) == ([(QtyCol, z)], 0.0, None)
    ensures !HasIdentifyingFields([(QtyCol, z)], area) && !HasQuantityData([(QtyCol, z)], 0.0)
  {
    var row: Row := [Some(z)];
    assert |z| == 1 && IsDigit(z[0]) && !IsSpace(z[0]);
    assert HasText(row[0]);
    StripUnspaced(z);
    RowFieldsSingle(row[0], QtyCol);
    QuantityFieldsNotIdentifying(area, QtyCol, z);
    ZeroQuantityCell(z, area);
    assert !HasKey([(QtyCol, z)], UnitCol);
  }

  lemma {:induction false} ZeroQuantityCell(z: string, area: Area)
    requires area != Kitakami && z == DecimalString(0)
    ensures RowQuantity([Some(z)], [(QtyCol, 0)], area) == 0.0
    ensures RowUnit([Some(z)], [(QtyCol, 0)]) == None
  {
    var row: Row := [Some(z)];
    assert |z| == 1 && IsDigit(z[0]) && !IsSpace(z[0]);
    StripUnspaced(z);
    assert CellText(At(row, 0)) == z;
    ExtractQuantityDecimal(0, area);
    assert Get([(QtyCol, 0)], QtyCol) == Some(0);
  }

  // ------------------------------------------------------------ header row

  const HeaderIndicators := ["名称", "工種", "数量", "単位"]

  /** A row `_find_header_row` accepts: non-empty, with a cell whose `str` contains 名称, 工種, 数量 or 単位. */
  predicate HeaderLike(row: Row) {
    row != [] && exists j, p :: 0 <= j < |row| && p in HeaderIndicators && Contains(Str(row[j]), p)
  }

  /** The first header-like row from `from` on, among the first ten. */
  function HeaderFrom(table: Table, from: nat): (r: Option<nat>)
    ensures r.Some? ==> from <= r.value < |table| && r.value < 10 && HeaderLike(table[r.value])
    ensures forall j :: from <= j < |table| && j < 10 && (r.None? || j < r.value) ==> !HeaderLike(table[j])
    decreases 10 - from
  {
    if from >= 10 || from >= |table| then None
    else if HeaderLike(table[from]) then Some(from)
    else HeaderFrom(table, from + 1)
  }

  /**
   * `_find_header_row`: the first header-like row among the first ten, or else
   * the first row; nothing only for an empty table.
   */
  function FindHeaderRow(table: Table): (r: Option<(Row, nat)>)
    ensures r.None? <==> table == []
    ensures r.Some? ==> r.value.1 < |table| && r.value.1 < 10 && r.value.0 == table[r.value.1]
    ensures r.Some? ==> (HeaderLike(r.value.0) <==> exists j :: 0 <= j < |table| && j < 10 && HeaderLike(table[j]))
    ensures r.Some? && HeaderLike(r.value.0) ==> forall j :: 0 <= j < r.value.1 ==> !HeaderLike(table[j])
    ensures r.Some? && !HeaderLike(r.value.0) ==> r.value.1 == 0
  {
    if table == [] then None
    else
      match HeaderFrom(table, 0)
      case Some(i) => Some((table[i], i))
      case None => Some((table[0], 0))
  }

  // ------------------------------------------------------- column patterns

  /** A column's header patterns. */
  type Patterns = Dict<seq<string>>

  const DefaultPatterns: Patterns := [
    (NameCol, ["費 目 ・ 工 種 ・ 種 別 ・ 細 目", "費目・工種・種別・細別・規格", "工事区分・工種・種別・細別", "工事区分", "工種", "種別", "細別", "費目"]),
    (SpecCol, ["規格", "規 格", "名称・規格", "名称", "項目", "品名"]),
    (UnitCol, ["単位", "単 位"]),
    (QtyCol, ["数量", "数 量"]),
    (PriceCol, ["単価", "単 価"]),
    (AmountCol, ["金額", "金 額"]),
    (ChangeCol, ["数量・金額増減", "増減", "変更"]),
    (NoteCol, ["摘要", "備考", "摘 要"])]

  const KitakamiNamePatterns := ["費 目 ・ 工 種 ・ 種 別 ・ 細", "費目・工種・種別・細別・規格"]
  const KitakamiCodePatterns := ["明細単価番号", "明 細 単 価 番 号"]

  const KitakamiPatterns: Patterns := [
    (KitakamiNameCol, KitakamiNamePatterns),
    (QtyCol, ["数量", "数 量"]),
    (UnitCol, ["単位", "単 位"]),
    (KitakamiCodeCol, KitakamiCodePatterns)]

  const NouseiNamePatterns := ["工種・種目", "工種･種目", "工 種 ・ 種 目", "工 種 ･ 種 目", "工種種目", "工種  種目"]
  const NouseiRemarksPatterns := ["備考", "摘 要", "摘要", "摘\U{3000}要"]

  const NouseiPatterns: Patterns := [
    (NouseiNameCol, NouseiNamePatterns),
    (SpecCol, ["規格", "規 格", "名称・規格", "名称", "項目", "品名"]),
    (UnitCol, ["単位", "単 位", "単\U{3000}位"]),
    (QtyCol, ["数量", "数 量", "数\U{3000}量"]),
    (RemarksCol, NouseiRemarksPatterns)]

  /** The pattern sets `_get_column_mapping` tries, in order. */
  function PatternSets(area: Area): seq<Patterns> {
    match area
    case Kitakami => [KitakamiPatterns, DefaultPatterns]
    case Nousei => [NouseiPatterns]
    case _ => [DefaultPatterns, KitakamiPatterns]
  }

  /** `any(p in text for p in ps)` */
  predicate AnyIn(ps: seq<string>, text: string) {
    exists p :: p in ps && Contains(text, p)
  }

  /** The texts of the present, non-empty cells, `str`-converted. */
  function TruthyTexts(row: Row): seq<string>
    decreases |row|
  {
    if row == [] then []
    else (if Truthy(row[0]) then [row[0].value] else []) + TruthyTexts(row[1..])
  }

  /** `_detect_project_area_from_header`: 北上市 headers first, then 農政 headers with both a name and a remarks column. */
  function DetectArea(header: Row): (r: Option<Area>)
    ensures r.Some? ==> r.value == Kitakami || r.value == Nousei
  {
    var text := Join(TruthyTexts(header), "|");
    if AnyIn(KitakamiCodePatterns, text) || AnyIn(KitakamiNamePatterns, text) then Some(Kitakami)
    else if AnyIn(NouseiNamePatterns, text) && AnyIn(NouseiRemarksPatterns, text) then Some(Nousei)
    else None
  }

  // ---------------------------------------------------------- column mapping

  /** `re.sub(r"[\s\u3000・･]+", "", s)` */
  function Squash(s: string): string {
    Filter(s, c => !IsSpace(c) && c != '・' && c != '･')
  }

  /** A header cell matches a column: some pattern occurs in it, or for 農政 the squashed texts contain one another. */
  predicate CellMatches(text: string, ps: seq<string>, area: Area) {
    AnyIn(ps, text)
    || (area == Nousei && exists p :: p in ps && (Contains(Squash(text), Squash(p)) || Contains(Squash(p), Squash(text))))
  }

  /** The first present, non-empty header cell from `from` on that matches the patterns. */
  function FindColumn(header: Row, ps: seq<string>, area: Area, from: nat): (r: Option<nat>)
    ensures r.Some? ==> from <= r.value < |header| && Truthy(header[r.value]) && CellMatches(header[r.value].value, ps, area)
    ensures forall j :: from <= j < |header| && (r.None? || j < r.value) ==> !(Truthy(header[j]) && CellMatches(header[j].value, ps, area))
    decreases |header| - from
  {
    if from >= |header| then None
    else if Truthy(header[from]) && CellMatches(header[from].value, ps, area) then Some(from)
    else FindColumn(header, ps, area, from + 1)
  }

  /** `tentative` after trying every column of a pattern set, in the set's order. */
  function Tentative(header: Row, pats: Patterns, area: Area): ColumnMap
    decreases |pats|
  {
    if pats == [] then []
    else
      var t := Tentative(header, pats[..|pats| - 1], area);
      match FindColumn(header, pats[|pats| - 1].1, area, 0)
      case Some(i) => Put(t, pats[|pats| - 1].0, i)
      case None => t
  }

  /** The first pattern set whose tentative map has both 数量 and 単位 (for 農政 with 工種・種目 defaulted to column 0). */
  function MappingFrom(header: Row, sets: seq<Patterns>, area: Area): ColumnMap
    decreases |sets|
  {
    if sets == [] then []
    else
      var t := Tentative(header, sets[0], area);
      if HasKey(t, QtyCol) && HasKey(t, UnitCol) then
        if area == Nousei && !HasKey(t, NouseiNameCol) then Put(t, NouseiNameCol, 0) else t
      else MappingFrom(header, sets[1..], area)
  }

  /** `_get_column_mapping` */
  function ColumnMapping(header: Row, area: Area): ColumnMap {
    MappingFrom(header, PatternSets(area), area)
  }

  /** An entry of a tentative map: a matching header cell for one of the set's columns. */
  predicate FoundIn(header: Row, pats: Patterns, area: Area, e: (string, nat)) {
    e.1 < |header| && Truthy(header[e.1])
    && exists k :: 0 <= k < |pats| && pats[k].0 == e.0 && CellMatches(header[e.1].value, pats[k].1, area)
  }

  /** An entry found with the first pattern sets is still found once one more is added. */
  lemma {:induction false} FoundInWiden(header: Row, pats: Patterns, area: Area, e: (string, nat))
    requires pats != [] && FoundIn(header, pats[..|pats| - 1], area, e)
    ensures FoundIn(header, pats, area, e)
  {
    var init := pats[..|pats| - 1];
    var k :| 0 <= k < |init| && init[k].0 == e.0 && CellMatches(header[e.1].value, init[k].1, area);
    assert pats[k] == init[k];
  }

  lemma {:induction false} TentativeEntries(header: Row, pats: Patterns, area: Area)
    ensures DistinctKeys(Tentative(header, pats, area))
    ensures forall i :: 0 <= i < |Tentative(header, pats, area)| ==> FoundIn(header, pats, area, Tentative(header, pats, area)[i])
    decreases |pats|
  {
    if pats != [] {
      var init := pats[..|pats| - 1];
      var t := Tentative(header, init, area);
      TentativeEntries(header, init, area);
      match FindColumn(header, pats[|pats| - 1].1, area, 0)
      case Some(c) =>
        var name := pats[|pats| - 1].0;
        PutGet(t, name, c, name);
        var r := Put(t, name, c);
        assert Tentative(header, pats, area) == r;
        assert FoundIn(header, pats, area, (name, c)) by {
          assert pats[|pats| - 1].0 == name;
        }
        forall i | 0 <= i < |r| ensures FoundIn(header, pats, area, r[i]) {
          PutEntry(t, name, c, i);
          if r[i] != (name, c) {
            FoundInWiden(header, pats, area, t[i]);
          }
        }
      case None =>
        assert Tentative(header, pats, area) == t;
        forall i | 0 <= i < |t| ensures FoundIn(header, pats, area, t[i]) {
          FoundInWiden(header, pats, area, t[i]);
        }
    }
  }

  /**
   * The column map is empty unless some pattern set finds both 数量 and 単位;
   * for 農政 a non-empty map always has 工種・種目; every other entry names a
   * matching header cell.
   */
  lemma {:induction false} ColumnMappingSpec(header: Row, area: Area)
    ensures var r := ColumnMapping(header, area);
            && (r == [] <==> forall k :: 0 <= k < |PatternSets(area)| ==> !Complete(Tentative(header, PatternSets(area)[k], area)))
            && (r != [] ==> Complete(r))
            && (area == Nousei && r != [] ==> HasKey(r, NouseiNameCol))
            && DistinctKeys(r)
            && forall i :: 0 <= i < |r| ==> FromSets(header, PatternSets(area), area, r[i])
  {
    MappingFromSpec(header, PatternSets(area), area);
  }

  /** A map that has both a 数量 and a 単位 column. */
  predicate Complete(t: ColumnMap) {
    HasKey(t, QtyCol) && HasKey(t, UnitCol)
  }

  /** An entry found by one of the pattern sets, or the defaulted 農政 name column. */
  predicate FromSets(header: Row, sets: seq<Patterns>, area: Area, e: (string, nat)) {
    (area == Nousei && e == (NouseiNameCol, 0))
    || exists k :: 0 <= k < |sets| && FoundIn(header, sets[k], area, e)
  }

  lemma {:induction false} MappingFromSpec(header: Row, sets: seq<Patterns>, area: Area)
    ensures var r := MappingFrom(header, sets, area);
            && (r == [] <==> forall k :: 0 <= k < |sets| ==> !Complete(Tentative(header, sets[k], area)))
            && (r != [] ==> Complete(r))
            && (area == Nousei && r != [] ==> HasKey(r, NouseiNameCol))
            && DistinctKeys(r)
            && forall i :: 0 <= i < |r| ==> FromSets(header, sets, area, r[i])
  {
    MappingFromEmpty(header, sets, area);
    MappingFromKeys(header, sets, area);
    MappingFromFound(header, sets, area);
  }

  lemma {:induction false} MappingFromEmpty(header: Row, sets: seq<Patterns>, area: Area)
    ensures MappingFrom(header, sets, area) == [] <==> forall k :: 0 <= k < |sets| ==> !Complete(Tentative(header, sets[k], area))
    decreases |sets|
  {
    if sets != [] {
      if Complete(Tentative(header, sets[0], area)) {
        ChosenMap(header, sets[0], area);
      } else {
        MappingFromEmpty(header, sets[1..], area);
        assert forall k :: 1 <= k < |sets| ==> sets[k] == sets[1..][k - 1];
      }
    }
  }

  lemma {:induction false} MappingFromKeys(header: Row, sets: seq<Patterns>, area: Area)
    ensures var r := MappingFrom(header, sets, area);
            && (r != [] ==> Complete(r))
            && (area == Nousei && r != [] ==> HasKey(r, NouseiNameCol))
            && DistinctKeys(r)
    decreases |sets|
  {
    if sets != [] {
      if Complete(Tentative(header, sets[0], area)) {
        ChosenMap(header, sets[0], area);
      } else {
        MappingFromKeys(header, sets[1..], area);
      }
    }
  }

  lemma {:induction false} MappingFromFound(header: Row, sets: seq<Patterns>, area: Area)
    ensures var r := MappingFrom(header, sets, area);
            forall i :: 0 <= i < |r| ==> FromSets(header, sets, area, r[i])
    decreases |sets|
  {
    if sets != [] {
      var r := MappingFrom(header, sets, area);
      if Complete(Tentative(header, sets[0], area)) {
        ChosenMap(header, sets[0], area);
        forall i | 0 <= i < |r| ensures FromSets(header, sets, area, r[i]) {
          if !(area == Nousei && r[i] == (NouseiNameCol, 0)) {
            assert FoundIn(header, sets[0], area, r[i]);
          }
        }
      } else {
        MappingFromFound(header, sets[1..], area);
        assert r == MappingFrom(header, sets[1..], area);
        forall i | 0 <= i < |r| ensures FromSets(header, sets, area, r[i]) {
          FromLaterSets(header, sets, area, r[i]);
        }
      }
    }
  }

  lemma {:induction false} FromLaterSets(header: Row, sets: seq<Patterns>, area: Area, e: (string, nat))
    requires sets != [] && FromSets(header, sets[1..], area, e)
    ensures FromSets(header, sets, area, e)
  {
    if !(area == Nousei && e == (NouseiNameCol, 0)) {
      var k :| 0 <= k < |sets[1..]| && FoundIn(header, sets[1..][k], area, e);
      assert sets[k + 1] == sets[1..][k];
    }
  }

  /** The map taken from a pattern set that found both 数量 and 単位. */
  lemma {:induction false} ChosenMap(header: Row, pats: Patterns, area: Area)
    requires HasKey(Tentative(header, pats, area), QtyCol) && HasKey(Tentative(header, pats, area), UnitCol)
    ensures var t := Tentative(header, pats, area);
            var r := if area == Nousei && !HasKey(t, NouseiNameCol) then Put(t, NouseiNameCol, 0) else t;
            && r != [] && HasKey(r, QtyCol) && HasKey(r, UnitCol)
            && (area == Nousei ==> HasKey(r, NouseiNameCol))
            && DistinctKeys(r)
            && forall i :: 0 <= i < |r| ==> (area == Nousei && r[i] == (NouseiNameCol, 0)) || FoundIn(header, pats, area, r[i])
  {
    var t := Tentative(header, pats, area);
    TentativeEntries(header, pats, area);
    if area == Nousei && !HasKey(t, NouseiNameCol) {
      DefaultNameColumn(t, header, pats, area);
    }
  }

  lemma {:induction false} DefaultNameColumn(t: ColumnMap, header: Row, pats: Patterns, area: Area)
    requires HasKey(t, QtyCol) && HasKey(t, UnitCol) && !HasKey(t, NouseiNameCol) && DistinctKeys(t)
    requires forall i :: 0 <= i < |t| ==> FoundIn(header, pats, area, t[i])
    ensures var r := Put(t, NouseiNameCol, 0);
            && HasKey(r, QtyCol) && HasKey(r, UnitCol) && HasKey(r, NouseiNameCol) && DistinctKeys(r)
            && forall i :: 0 <= i < |r| ==> r[i] == (NouseiNameCol, 0) || FoundIn(header, pats, area, r[i])
  {
    AppendFresh(t, NouseiNameCol, 0, QtyCol, UnitCol);
  }

  /** Setting a key the map lacks appends it and keeps the others. */
  lemma {:induction false} AppendFresh<V>(t: Dict<V>, k: string, v: V, k1: string, k2: string)
    requires !HasKey(t, k) && HasKey(t, k1) && HasKey(t, k2) && DistinctKeys(t)
    ensures Put(t, k, v) == t + [(k, v)]
    ensures HasKey(Put(t, k, v), k1) && HasKey(Put(t, k, v), k2) && HasKey(Put(t, k, v), k)
    ensures DistinctKeys(Put(t, k, v))
  {
    PutGet(t, k, v, k1);
    PutGet(t, k, v, k2);
    var r := Put(t, k, v);
    assert r[|r| - 1].0 == k;
  }

  // ------------------------------------------------------------ page range

  /** The first page index read: `max(0, start_page - 1)`, 0 without a start. */
  function FirstPage(start: Option<int>): nat {
    if start.None? || start.value - 1 < 0 then 0 else start.value - 1
  }

  /** The last page index read: `min(total - 1, end_page - 1)`, the last page without an end. */
  function LastPage(total: nat, end: Option<int>): int {
    if end.None? || total - 1 <= end.value - 1 then total - 1 else end.value - 1
  }
}

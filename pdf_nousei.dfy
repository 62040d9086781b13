/**
 * The 農政 side of the PDF main-table reader: rows marked by leading middle
 * dots become items (`_process_single_table` in 農政 mode,
 * server/services/pdf_parser.py:195-420), and the sub-table blocks that
 * `_extract_nousei_subtables` numbers 内1号, 内2号, ... across a page range
 * (server/services/pdf_parser.py:893-1043).
 */
module PdfNousei {
  import opened Wrappers
  import opened Text
  import opened Grid
  import opened Numbers
  import opened TenderSchema
  import opened PdfParser

  // ------------------------------------------------------------ dot markers

  /** The two middle dots that mark 農政 rows: ・ (U+30FB) and ･ (U+FF65). */
  predicate IsDot(c: char) {
    c == '・' || c == '･'
  }

  predicate StartsDotted(s: string) {
    s != [] && IsDot(s[0])
  }

  /** The number of consecutive dots `s` starts with. */
  function LeadingDots(s: string): (n: nat)
    ensures n <= |s|
    ensures forall i :: 0 <= i < n ==> IsDot(s[i])
    ensures n < |s| ==> !IsDot(s[n])
    decreases |s|
  {
    if s != [] && IsDot(s[0]) then 1 + LeadingDots(s[1..]) else 0
  }

  /**
   * `is_main_marker`: after leading whitespace the text is not a note row (＊ or *)
   * and starts with one, two or three dots.
   */
  predicate IsMainMarker(text: string) {
    var s := LStrip(text);
    if s == [] || s[0] == '＊' || s[0] == '*' then false
    else if IsDot(s[0]) then 1 <= LeadingDots(s) <= 3
    else false
  }

  /** `s` starts with exactly `k` dots. */
  predicate DotRun(s: string, k: nat) {
    k <= |s| && (forall i :: 0 <= i < k ==> IsDot(s[i])) && (k == |s| || !IsDot(s[k]))
  }

  lemma {:induction false} DotRunUnique(s: string, k: nat)
    requires DotRun(s, k)
    ensures k == LeadingDots(s)
  {
  }

  /** A text is a main marker exactly when, left-stripped, it starts with a run of one to three dots. */
  lemma {:induction false} IsMainMarkerSpec(text: string)
    ensures IsMainMarker(text) <==> exists k :: 1 <= k <= 3 && DotRun(LStrip(text), k)
  {
    if exists k :: 1 <= k <= 3 && DotRun(LStrip(text), k) {
      var k :| 1 <= k <= 3 && DotRun(LStrip(text), k);
      RunIsMarker(text, k);
    }
    if IsMainMarker(text) {
      MarkerHasRun(text);
    }
  }

  lemma {:induction false} RunIsMarker(text: string, k: nat)
    requires 1 <= k <= 3 && DotRun(LStrip(text), k)
    ensures IsMainMarker(text)
  {
    var s := LStrip(text);
    DotRunUnique(s, k);
    assert IsDot(s[0]);
  }

  lemma {:induction false} MarkerHasRun(text: string)
    requires IsMainMarker(text)
    ensures 1 <= LeadingDots(LStrip(text)) <= 3 && DotRun(LStrip(text), LeadingDots(LStrip(text)))
  {
  }

  // ------------------------------------------------------------ marker text

  /** A present, non-empty cell whose text, left-stripped, starts with a dot. */
  predicate Dotted(c: Cell) {
    Truthy(c) && StartsDotted(LStrip(c.value))
  }

  /** The first dotted cell from `from` on. */
  function DottedCell(row: Row, from: nat): (r: Option<nat>)
    ensures r.Some? ==> from <= r.value < |row| && Dotted(row[r.value])
    ensures forall j :: from <= j < |row| && (r.None? || j < r.value) ==> !Dotted(row[j])
    decreases |row| - from
  {
    if from >= |row| then None
    else if Dotted(row[from]) then Some(from)
    else DottedCell(row, from + 1)
  }

  /**
   * `_get_marker_text`: the mapped 工種・種目 cell when it is dotted, else the
   * first dotted cell, else the first cell; always left-stripped. It starts
   * with a dot exactly when some cell of the row is dotted.
   */
  function MarkerText(row: Row, cols: ColumnMap): (r: string)
    ensures r == [] || !IsSpace(r[0])
    ensures StartsDotted(r) <==> exists j :: 0 <= j < |row| && Dotted(row[j])
  {
    var name := Get(cols, NouseiNameCol);
    if name.Some? && name.value < |row| && Dotted(row[name.value]) then LStrip(row[name.value].value)
    else
      match DottedCell(row, 0)
      case Some(j) => LStrip(row[j].value)
      case None =>
        if row != [] && Truthy(row[0]) then
          assert !Dotted(row[0]);
          LStrip(row[0].value)
        else []
  }

  /** `str(row[0])` when the row has a first cell that is not None, else "". */
  function FirstCellText(row: Row): string {
    if row != [] && row[0].Some? then row[0].value else []
  }

  /** `is_main_marker(marker_text or first)`: the row is a 農政 main item. */
  predicate IsItemRow(row: Row, cols: ColumnMap) {
    var m := MarkerText(row, cols);
    IsMainMarker(if m != [] then m else FirstCellText(row))
  }

  /** A row is a main item exactly when its marker text starts with one to three dots (so never with ＊ or *). */
  lemma {:induction false} ItemRowMarker(row: Row, cols: ColumnMap)
    ensures var m := MarkerText(row, cols);
            IsItemRow(row, cols) <==> StartsDotted(m) && LeadingDots(m) <= 3
  {
    var m := MarkerText(row, cols);
    if m != [] {
      assert LStrip(m) == m;
    } else if IsItemRow(row, cols) {
      var f := FirstCellText(row);
      assert StartsDotted(LStrip(f));
      assert Dotted(row[0]);
    }
  }

  // ------------------------------------------------------------- item name

  /** The characters `.lstrip(' \t　')` removes. */
  predicate IsBlankChar(c: char) {
    c == ' ' || c == '\t' || c == '　'
  }

  /** `s.lstrip(' \t　')` */
  function LStripBlank(s: string): (r: string)
    ensures |r| <= |s| && r == s[|s| - |r|..]
    ensures r == [] || !IsBlankChar(r[0])
    decreases |s|
  {
    if s != [] && IsBlankChar(s[0]) then LStripBlank(s[1..]) else s
  }

  /** `display_name`: the name left-stripped of blanks, then without its leading dots and the whitespace after them. */
  function DisplayName(name: string): (r: string)
    ensures |r| <= |name| && r == name[|name| - |r|..]
  {
    var x := LStripBlank(name);
    if StartsDotted(x) then LStrip(x[LeadingDots(x)..]) else x
  }

  /** A dot run, then whitespace, then the name proper: the display name is the name proper. */
  lemma {:induction false} DisplayNameDropsMarker(dots: string, gap: string, rest: string)
    requires dots != [] && forall i :: 0 <= i < |dots| ==> IsDot(dots[i])
    requires Blank(gap) && (rest == [] || !IsSpace(rest[0]))
    requires gap != [] || !StartsDotted(rest)
    ensures DisplayName(dots + gap + rest) == rest
  {
    var s := dots + gap + rest;
    assert s[0] == dots[0];
    assert LStripBlank(s) == s;
    assert s == dots + (gap + rest);
    LeadingDotsOfRun(dots, gap + rest);
    assert s[|dots|..] == gap + rest;
    LStripBlankRun(gap, rest);
    assert DisplayName(s) == LStrip(s[|dots|..]);
  }

  lemma {:induction false} LeadingDotsOfRun(dots: string, rest: string)
    requires forall i :: 0 <= i < |dots| ==> IsDot(dots[i])
    requires !StartsDotted(rest)
    ensures LeadingDots(dots + rest) == |dots|
    decreases |dots|
  {
    if dots != [] {
      assert (dots + rest)[1..] == dots[1..] + rest;
      LeadingDotsOfRun(dots[1..], rest);
    } else {
      assert dots + rest == rest;
    }
  }

  lemma {:induction false} LStripBlankRun(gap: string, rest: string)
    requires Blank(gap) && (rest == [] || !IsSpace(rest[0]))
    ensures LStrip(gap + rest) == rest
    decreases |gap|
  {
    if gap != [] {
      assert (gap + rest)[1..] == gap[1..] + rest;
      LStripBlankRun(gap[1..], rest);
    } else {
      assert gap + rest == rest;
    }
  }

  // --------------------------------------------------------------- fields

  /** `get_cell(name)`: the stripped text of the mapped cell, "" when unmapped, missing or empty. */
  function FieldCell(row: Row, cols: ColumnMap, name: string): (r: string)
    ensures r != [] ==> HasKey(cols, name)
  {
    match Get(cols, name)
    case Some(i) => CellText(At(row, i))
    case None => []
  }

  function OptionalField(row: Row, cols: ColumnMap, name: string): Fields {
    if HasKey(cols, name) then [(name, FieldCell(row, cols, name))] else []
  }

  /** The fields read from the mapped columns, in the order the reader writes them. */
  function ColumnFields(row: Row, cols: ColumnMap, name: string): Fields {
    [(NouseiNameCol, DisplayName(name))]
    + OptionalField(row, cols, RemarksCol)
    + OptionalField(row, cols, SpecCol)
    + OptionalField(row, cols, UnitCol)
    + OptionalField(row, cols, QtyCol)
  }

  const UnitWords := ["m3", "m2", "m", "㎥", "㎡", "ｍ", "mm", "㎜", "cm", "㎝",
                      "枚", "箇所", "kg", "本", "人", "日", "ha", "掛㎡", "孔", "ton", "式", "基", "台",
                      "Ｌ", "L", "台･日", "台・日"]

  /** `looks_like_unit` */
  predicate LooksLikeUnit(t: string) {
    var s := Strip(t);
    s != [] && Listed(s, UnitWords)
  }

  /** Both widths of comma removed. */
  function RemoveCommas(s: string): string {
    Filter(s, c => c != ',' && c != '，')
  }

  /** `^\d+(?:\.\d+)?$`: digits, optionally a dot and more digits. */
  predicate QuantityShape(t: string) {
    var k := FirstDot(t);
    k > 0 && DigitString(t[..k]) && (k == |t| || (k + 1 < |t| && DigitString(t[k + 1..])))
  }

  /** `looks_like_quantity` */
  predicate LooksLikeQuantity(t: string) {
    QuantityShape(Strip(RemoveCommas(t)))
  }

  /** A 規格 candidate: not empty, not a unit, not a quantity, not a 算出数量 note. */
  predicate SpecLike(t: string) {
    t != [] && !LooksLikeUnit(t) && !LooksLikeQuantity(t) && !StartsWith(t, "算出数量")
  }

  function NoCommaText(s: string): string {
    Strip(RemoveCommas(s))
  }

  /**
   * What the fill-ins look for right of the dotted cell: a 規格 candidate, a
   * unit word or a quantity; the 農政 block reader also looks for a quantity
   * but keeps the commas of the text it finds.
   */
  datatype CellKind = SpecCell | UnitCell | QtyCell | BlockQtyCell

  /** The text a cell of kind `k` contributes: stripped, and for `QtyCell` without commas. */
  function KindText(k: CellKind, s: string): string {
    if k == QtyCell then NoCommaText(s) else Strip(s)
  }

  /** A present cell whose text is of kind `k`. */
  predicate CellIs(k: CellKind, c: Cell) {
    && Truthy(c)
    && match k
       case SpecCell => SpecLike(KindText(k, c.value))
       case UnitCell => LooksLikeUnit(KindText(k, c.value))
       case QtyCell => LooksLikeQuantity(KindText(k, c.value))
       case BlockQtyCell => LooksLikeQuantity(KindText(k, c.value))
  }

  /** The index of the first cell of kind `k` from `from` on. */
  function FirstCell(row: Row, from: nat, k: CellKind): (r: Option<nat>)
    ensures r.Some? ==> from <= r.value < |row| && Truthy(row[r.value])
    decreases |row| - from
  {
    if from >= |row| then None
    else if CellIs(k, row[from]) then Some(from)
    else FirstCell(row, from + 1, k)
  }

  /** `FirstCell` finds a cell of the kind, and none before it; `None` when no cell from `from` on is of the kind. */
  lemma {:induction false} FirstCellSpec(row: Row, from: nat, k: CellKind)
    ensures var r := FirstCell(row, from, k);
            && (r.Some? ==> CellIs(k, row[r.value]) && forall j :: from <= j < r.value ==> !CellIs(k, row[j]))
            && (r.None? ==> forall j :: from <= j < |row| ==> !CellIs(k, row[j]))
    decreases |row| - from
  {
    if from < |row| && !CellIs(k, row[from]) {
      FirstCellSpec(row, from + 1, k);
      var r := FirstCell(row, from + 1, k);
      assert FirstCell(row, from, k) == r;
      var upto := if r.Some? then r.value else |row|;
      forall j | from <= j < upto
        ensures !CellIs(k, row[j])
      {
        if j == from {
        } else {
        }
      }
    }
  }

  /** The text of the first cell of kind `k` from `from` on. */
  function CellTextOf(row: Row, from: nat, k: CellKind): Option<string> {
    match FirstCell(row, from, k)
    case Some(j) => Some(KindText(k, row[j].value))
    case None => None
  }

  /** `raw[k] = t` for the text `found` when `wanted` and something was found. */
  function FillIf(raw: Fields, wanted: bool, found: Option<string>, k: string): Fields {
    if wanted && found.Some? then Put(raw, k, found.value) else raw
  }

  /**
   * The fill-ins right of the first dotted cell: 規格 when empty, 単位 when
   * unmapped or empty, 数量 when unmapped or empty.
   */
  function FillHeuristics(raw: Fields, row: Row, cols: ColumnMap): Fields {
    match DottedCell(row, 0)
    case None => raw
    case Some(d) => FillQty(FillUnit(FillSpec(raw, row, d), row, cols, d), row, cols, d)
  }

  /** 規格 from the first 規格 candidate right of the dotted cell `d`, when 規格 is empty. */
  function FillSpec(raw: Fields, row: Row, d: nat): Fields {
    FillIf(raw, GetOrEmpty(raw, SpecCol) == [], CellTextOf(row, d + 1, SpecCell), SpecCol)
  }

  /** 単位 from the first unit word right of the dotted cell `d`, when unmapped or empty. */
  function FillUnit(raw: Fields, row: Row, cols: ColumnMap, d: nat): Fields {
    FillIf(raw, !HasKey(cols, UnitCol) || GetOrEmpty(raw, UnitCol) == [], CellTextOf(row, d + 1, UnitCell), UnitCol)
  }

  /** 数量 from the first quantity right of the dotted cell `d`, when unmapped or empty. */
  function FillQty(raw: Fields, row: Row, cols: ColumnMap, d: nat): Fields {
    FillIf(raw, !HasKey(cols, QtyCol) || GetOrEmpty(raw, QtyCol) == [], CellTextOf(row, d + 1, QtyCell), QtyCol)
  }

  /** `is_triple`: the marker starts with three dots of one kind; without a marker, the first cell with ・・・. */
  predicate IsTriple(marker: string, first: string) {
    if marker != [] then StartsWith(marker, "・・・") || StartsWith(marker, "･･･")
    else StartsWith(first, "・・・")
  }

  /** `name`: the marker text, else the 工種・種目 cell, else the stripped first cell. */
  function RowName(row: Row, cols: ColumnMap): string {
    var marker := MarkerText(row, cols);
    if marker != [] then marker
    else if FieldCell(row, cols, NouseiNameCol) != [] then FieldCell(row, cols, NouseiNameCol)
    else if row != [] && Truthy(row[0]) then Strip(row[0].value)
    else []
  }

  /** The raw fields of a main row before the triple-dot flag. */
  function MainRowFields(row: Row, cols: ColumnMap): Fields {
    FillHeuristics(ColumnFields(row, cols, RowName(row, cols)), row, cols)
  }

  /** `float(q.replace(',', '').replace('，', ''))` for a non-empty 数量, 0.0 when empty or unparseable. */
  function MainQuantity(raw: Fields): real {
    var q := GetOrEmpty(raw, QtyCol);
    if q != [] then ParseFloat(RemoveCommas(q)).GetOr(0.0) else 0.0
  }

  /** The item built from a main row's fields; the key is built before the triple-dot flag is added. */
  function MakeMainItem(raw: Fields, triple: bool, page: nat): TenderItem {
    var u := GetOrEmpty(raw, UnitCol);
    TenderItem(ItemKey(raw), if triple then Put(raw, TripleDotField, "1") else raw,
               MainQuantity(raw), PDF, if u != [] then Some(u) else None, Some(page + 1))
  }

  /** The item a 農政 main row becomes. */
  function MainRowItem(row: Row, cols: ColumnMap, page: nat): TenderItem {
    MakeMainItem(MainRowFields(row, cols), IsTriple(MarkerText(row, cols), FirstCellText(row)), page)
  }

  /** The main rows of a 農政 table, in row order. */
  function MainRows(rows: seq<Row>, cols: ColumnMap): (r: seq<Row>)
    ensures |r| <= |rows|
    decreases |rows|
  {
    if rows == [] then []
    else MainRows(rows[..|rows| - 1], cols) + (if IsItemRow(rows[|rows| - 1], cols) then [rows[|rows| - 1]] else [])
  }

  /** The items of a 農政 table: the item of every main row, in row order. */
  function NouseiItems(rows: seq<Row>, cols: ColumnMap, page: nat): (r: seq<TenderItem>)
    decreases |rows|
  {
    if rows == [] then []
    else NouseiItems(rows[..|rows| - 1], cols, page)
         + (if IsItemRow(rows[|rows| - 1], cols) then [MainRowItem(rows[|rows| - 1], cols, page)] else [])
  }

  // ------------------------------------------------------------ properties

  /** A quantity-shaped text parses, as `float` does, to the value of its digits. */
  lemma {:induction false} QuantityShapeValue(t: string, k: nat, fp: string)
    requires QuantityShape(t) && k == FirstDot(t) && fp == (if k < |t| then t[k + 1..] else [])
    ensures DigitString(t[..k]) && DigitString(fp)
    ensures ParseFloat(t) == Some(NatValue(t[..k]) as real + FracValue(fp))
  {
    QuantityShapeEnds(t);
    ParseFloatParts(t, k, fp);
  }

  lemma {:induction false} QuantityShapeEnds(t: string)
    requires QuantityShape(t)
    ensures t != [] && IsDigit(t[0]) && IsDigit(t[|t| - 1])
  {
    var k := FirstDot(t);
    assert t[0] == t[..k][0];
    if k == |t| {
      assert t[|t| - 1] == t[..k][|t| - 1];
    } else {
      assert t[|t| - 1] == t[k + 1..][|t| - k - 2];
    }
  }

  /** The field names a main row's fields can carry. */
  const MainRowKeys := [NouseiNameCol, RemarksCol, SpecCol, UnitCol, QtyCol]

  predicate KeysAmong(f: Fields, ks: seq<string>) {
    forall i :: 0 <= i < |f| ==> f[i].0 in ks
  }

  lemma {:induction false} NotAmong(f: Fields, ks: seq<string>, k: string)
    requires KeysAmong(f, ks) && k !in ks
    ensures !HasKey(f, k)
  {
  }

  lemma {:induction false} TripleNotMainKey()
    ensures TripleDotField !in MainRowKeys
  {
    assert TripleDotField[0] == '_';
    assert forall k :: k in MainRowKeys ==> k != [] && k[0] != '_';
  }

  lemma {:induction false} FillIfKeys(raw: Fields, wanted: bool, found: Option<string>, k: string, ks: seq<string>)
    requires KeysAmong(raw, ks) && k in ks && raw != []
    ensures var r := FillIf(raw, wanted, found, k);
            KeysAmong(r, ks) && r != [] && (raw[0].0 != k ==> r[0] == raw[0])
  {
  }

  lemma {:induction false} FillKeys(raw: Fields, row: Row, cols: ColumnMap, ks: seq<string>)
    requires KeysAmong(raw, ks) && raw != [] && SpecCol in ks && UnitCol in ks && QtyCol in ks
    requires raw[0].0 != SpecCol && raw[0].0 != UnitCol && raw[0].0 != QtyCol
    ensures var r := FillHeuristics(raw, row, cols);
            KeysAmong(r, ks) && r != [] && r[0] == raw[0]
  {
    match DottedCell(row, 0)
    case None =>
    case Some(d) =>
      var withSpec := FillSpec(raw, row, d);
      FillIfKeys(raw, GetOrEmpty(raw, SpecCol) == [], CellTextOf(row, d + 1, SpecCell), SpecCol, ks);
      var withUnit := FillUnit(withSpec, row, cols, d);
      FillIfKeys(withSpec, !HasKey(cols, UnitCol) || GetOrEmpty(withSpec, UnitCol) == [], CellTextOf(row, d + 1, UnitCell), UnitCol, ks);
      FillIfKeys(withUnit, !HasKey(cols, QtyCol) || GetOrEmpty(withUnit, QtyCol) == [], CellTextOf(row, d + 1, QtyCell), QtyCol, ks);
  }

  lemma {:induction false} ColumnFieldsKeys(row: Row, cols: ColumnMap, name: string)
    ensures var r := ColumnFields(row, cols, name);
            KeysAmong(r, MainRowKeys) && r != [] && r[0] == (NouseiNameCol, DisplayName(name))
  {
    ColumnFieldsAmong(row, cols, name, MainRowKeys);
  }

  /** The column fields use only the name, 備考, 規格, 数量 keys and, when mapped, 単位. */
  lemma {:induction false} ColumnFieldsAmong(row: Row, cols: ColumnMap, name: string, ks: seq<string>)
    requires NouseiNameCol in ks && RemarksCol in ks && SpecCol in ks && QtyCol in ks
    requires HasKey(cols, UnitCol) ==> UnitCol in ks
    ensures KeysAmong(ColumnFields(row, cols, name), ks)
  {
    var a := [(NouseiNameCol, DisplayName(name))];
    var b := OptionalField(row, cols, RemarksCol);
    var c := OptionalField(row, cols, SpecCol);
    var d := OptionalField(row, cols, UnitCol);
    var e := OptionalField(row, cols, QtyCol);
    assert KeysAmong(a, ks) by { assert a[0].0 == NouseiNameCol; }
    OptionalFieldAmong(row, cols, RemarksCol, ks);
    OptionalFieldAmong(row, cols, SpecCol, ks);
    OptionalFieldAmong(row, cols, UnitCol, ks);
    OptionalFieldAmong(row, cols, QtyCol, ks);
    KeysAmongConcat(a, b, ks);
    KeysAmongConcat(a + b, c, ks);
    KeysAmongConcat(a + b + c, d, ks);
    KeysAmongConcat(a + b + c + d, e, ks);
    assert ColumnFields(row, cols, name) == a + b + c + d + e;
  }

  /** An optional field is written under its own key, and only when that column is mapped. */
  lemma {:induction false} OptionalFieldAmong(row: Row, cols: ColumnMap, k: string, ks: seq<string>)
    requires HasKey(cols, k) ==> k in ks
    ensures KeysAmong(OptionalField(row, cols, k), ks)
  {
    if HasKey(cols, k) {
      assert OptionalField(row, cols, k)[0].0 == k;
    }
  }

  lemma {:induction false} KeysAmongConcat(a: Fields, b: Fields, ks: seq<string>)
    requires KeysAmong(a, ks) && KeysAmong(b, ks)
    ensures KeysAmong(a + b, ks)
  {
    forall i | 0 <= i < |a + b| ensures (a + b)[i].0 in ks {
      if i >= |a| {
        assert (a + b)[i] == b[i - |a|];
      }
    }
  }

  lemma {:induction false} MainRowFieldKeys(row: Row, cols: ColumnMap)
    ensures var r := MainRowFields(row, cols);
            KeysAmong(r, MainRowKeys) && r != [] && r[0] == (NouseiNameCol, DisplayName(RowName(row, cols)))
  {
    var name := RowName(row, cols);
    ColumnFieldsKeys(row, cols, name);
    FillKeys(ColumnFields(row, cols, name), row, cols, MainRowKeys);
  }

  /** The built item keeps the first field, carries the flag exactly when asked, and has a unit exactly when 単位 is non-empty. */
  lemma {:induction false} MakeMainItemSpec(raw: Fields, triple: bool, page: nat)
    requires raw != [] && raw[0].0 != TripleDotField && !HasKey(raw, TripleDotField)
    ensures var item := MakeMainItem(raw, triple, page);
            && item.source == PDF && item.pageNumber == Some(page + 1)
            && item.rawFields != [] && item.rawFields[0] == raw[0]
            && (HasKey(item.rawFields, TripleDotField) <==> triple)
            && (item.unit.Some? <==> GetOrEmpty(item.rawFields, UnitCol) != [])
  {
    if triple {
      FlagAppended(raw, TripleDotField, "1", UnitCol);
    }
  }

  /** Setting a fresh key appends it and leaves the first field and every other key's value alone. */
  lemma {:induction false} FlagAppended(f: Fields, k: string, v: string, other: string)
    requires f != [] && !HasKey(f, k) && other != k
    ensures var g := Put(f, k, v);
            g != [] && g[0] == f[0] && HasKey(g, k) && GetOrEmpty(g, other) == GetOrEmpty(f, other)
  {
    var g := Put(f, k, v);
    assert g == f + [(k, v)];
    assert g[|f|].0 == k;
    GetSnoc(f, k, v, other);
  }

  /**
   * A main row's item: on its page, from the PDF, named by its marker text
   * without the dots, flagged `_is_triple_dot` exactly when the marker starts
   * with three dots of one kind, with a unit exactly when 単位 is non-empty.
   */
  lemma {:induction false} MainRowItemSpec(row: Row, cols: ColumnMap, page: nat)
    requires IsItemRow(row, cols)
    ensures var item := MainRowItem(row, cols, page);
            && item.source == PDF && item.pageNumber == Some(page + 1)
            && item.rawFields != [] && item.rawFields[0] == (NouseiNameCol, DisplayName(MarkerText(row, cols)))
            && (HasKey(item.rawFields, TripleDotField) <==> IsTriple(MarkerText(row, cols), FirstCellText(row)))
            && (item.unit.Some? <==> GetOrEmpty(item.rawFields, UnitCol) != [])
  {
    ItemRowMarker(row, cols);
    MainRowFieldKeys(row, cols);
    var raw := MainRowFields(row, cols);
    assert RowName(row, cols) == MarkerText(row, cols);
    TripleNotMainKey();
    NotAmong(raw, MainRowKeys, TripleDotField);
    MakeMainItemSpec(raw, IsTriple(MarkerText(row, cols), FirstCellText(row)), page);
  }

  /** A triple-dotted marker opens with at least three dots. */
  lemma {:induction false} TripleMarkerDots(marker: string)
    requires marker != [] && IsTriple(marker, [])
    ensures StartsDotted(marker) && LeadingDots(marker) >= 3
  {
    assert marker[..3][0] == marker[0] && marker[..3][1] == marker[1] && marker[..3][2] == marker[2];
    assert IsDot(marker[0]) && IsDot(marker[1]) && IsDot(marker[2]);
    assert marker[1..][1..][0] == marker[2];
  }

  /** With no 単位 yet, the fill-ins set 単位 to the first unit word right of the first dotted cell. */
  lemma {:induction false} FilledUnit(raw: Fields, row: Row, cols: ColumnMap, d: nat, u: string)
    requires Get(raw, UnitCol) == None
    requires DottedCell(row, 0) == Some(d) && CellTextOf(row, d + 1, UnitCell) == Some(u)
    ensures Get(FillHeuristics(raw, row, cols), UnitCol) == Some(u)
  {
    var withSpec := FillSpec(raw, row, d);
    FillIfOther(raw, GetOrEmpty(raw, SpecCol) == [], CellTextOf(row, d + 1, SpecCell), SpecCol, UnitCol);
    var withUnit := FillUnit(withSpec, row, cols, d);
    FillIfFresh(withSpec, !HasKey(cols, UnitCol) || GetOrEmpty(withSpec, UnitCol) == [], CellTextOf(row, d + 1, UnitCell), UnitCol, u);
    FillIfOther(withUnit, !HasKey(cols, QtyCol) || GetOrEmpty(withUnit, QtyCol) == [], CellTextOf(row, d + 1, QtyCell), QtyCol, UnitCol);
  }

  lemma {:induction false} FillIfFresh(raw: Fields, wanted: bool, found: Option<string>, k: string, v: string)
    requires wanted && found == Some(v) && Get(raw, k) == None
    ensures Get(FillIf(raw, wanted, found, k), k) == Some(v)
  {
    PutFresh(raw, k, v);
  }

  lemma {:induction false} FillIfOther(raw: Fields, wanted: bool, found: Option<string>, k: string, k2: string)
    requires k2 != k
    ensures Get(FillIf(raw, wanted, found, k), k2) == Get(raw, k2)
  {
    if wanted && found.Some? {
      PutOther(raw, k, found.value, k2);
    }
  }

  /** Without a 単位 column the column fields carry no 単位. */
  lemma {:induction false} ColumnFieldsNoUnit(row: Row, cols: ColumnMap, name: string)
    requires !HasKey(cols, UnitCol)
    ensures Get(ColumnFields(row, cols, name), UnitCol) == None
  {
    var ks := [NouseiNameCol, RemarksCol, SpecCol, QtyCol];
    ColumnFieldsAmong(row, cols, name, ks);
    assert UnitCol !in ks;
    NotAmong(ColumnFields(row, cols, name), ks, UnitCol);
  }

  lemma {:induction false} UnitWordNonEmpty(u: string)
    requires LooksLikeUnit(u)
    ensures u != []
  {
  }

  lemma {:induction false} MakeMainItemUnit(raw: Fields, triple: bool, page: nat, u: string)
    requires Get(raw, UnitCol) == Some(u) && u != []
    ensures MakeMainItem(raw, triple, page).unit == Some(u)
  {
  }

  /**
   * With no 単位 column, the unit of a main item is the first unit word right
   * of the first dotted cell.
   */
  lemma {:induction false} MainRowUnitFill(row: Row, cols: ColumnMap, page: nat, d: nat, u: string)
    requires !HasKey(cols, UnitCol)
    requires DottedCell(row, 0) == Some(d) && CellTextOf(row, d + 1, UnitCell) == Some(u)
    ensures MainRowItem(row, cols, page).unit == Some(u)
  {
    var name := RowName(row, cols);
    ColumnFieldsNoUnit(row, cols, name);
    FilledUnit(ColumnFields(row, cols, name), row, cols, d, u);
    FirstCellSpec(row, d + 1, UnitCell);
    UnitWordNonEmpty(u);
    MakeMainItemUnit(MainRowFields(row, cols), IsTriple(MarkerText(row, cols), FirstCellText(row)), page, u);
  }

  /** The main rows are exactly the table's rows that pass the marker test, in order. */
  lemma {:induction false} MainRowsSpec(rows: seq<Row>, cols: ColumnMap)
    ensures forall x :: x in MainRows(rows, cols) ==> x in rows && IsItemRow(x, cols)
    ensures forall x :: x in rows && IsItemRow(x, cols) ==> x in MainRows(rows, cols)
    decreases |rows|
  {
    if rows != [] {
      var init := rows[..|rows| - 1];
      MainRowsSpec(init, cols);
      assert rows == init + [rows[|rows| - 1]];
    }
  }

  lemma {:induction false} ItemsSnoc(items: seq<TenderItem>, main: seq<Row>, row: Row, cols: ColumnMap, page: nat)
    requires |items| == |main| && forall k :: 0 <= k < |items| ==> items[k] == MainRowItem(main[k], cols, page)
    ensures var items' := items + [MainRowItem(row, cols, page)];
            var main' := main + [row];
            |items'| == |main'| && forall k :: 0 <= k < |items'| ==> items'[k] == MainRowItem(main'[k], cols, page)
  {
    var items', main' := items + [MainRowItem(row, cols, page)], main + [row];
    forall k | 0 <= k < |items'|
      ensures items'[k] == MainRowItem(main'[k], cols, page)
    {
      if k < |items| {
        assert items'[k] == items[k] && main'[k] == main[k];
      }
    }
  }

  /** The items are the main rows' items, one for one. */
  lemma {:induction false} NouseiItemsRows(rows: seq<Row>, cols: ColumnMap, page: nat)
    ensures var items := NouseiItems(rows, cols, page);
            var main := MainRows(rows, cols);
            |items| == |main| && forall k :: 0 <= k < |items| ==> items[k] == MainRowItem(main[k], cols, page)
    decreases |rows|
  {
    if rows != [] {
      var init, last := rows[..|rows| - 1], rows[|rows| - 1];
      NouseiItemsRows(init, cols, page);
      var items, main := NouseiItems(rows, cols, page), MainRows(rows, cols);
      var items0, main0 := NouseiItems(init, cols, page), MainRows(init, cols);
      if IsItemRow(last, cols) {
        assert items == items0 + [MainRowItem(last, cols, page)];
        assert main == main0 + [last];
        ItemsSnoc(items0, main0, last, cols, page);
      } else {
        assert items == items0 && main == main0;
      }
    }
  }
}

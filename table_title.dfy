/**
 * `table_title_extractor.py`: the title items of a sub-table. A PDF
 * reference row carries them inline (`… 単位 <unit> 単位数量 <quantity> …`);
 * an Excel sheet gives only an item name, taken from the sentences around
 * the reference row, between the previous and the next table-number row
 * (a row whose only filled cell is a number).
 */
module TableTitles {
  import opened Wrappers
  import opened Text
  import opened Grid
  import opened RefNames

  // ------------------------------------------------------------- PDF rows

  /** `str(row[i]).strip()` for the filled cells at `lo <= i < hi`, in order. */
  function NameParts(row: Row, lo: nat, hi: nat): (parts: seq<string>)
    ensures |parts| <= if lo <= hi then hi - lo else 0
    ensures parts == [] <==> forall k :: lo <= k < hi && k < |row| ==> !Truthy(row[k])
    decreases hi - lo
  {
    if lo >= hi then []
    else
      var rest := NameParts(row, lo + 1, hi);
      if lo < |row| && Truthy(row[lo]) then [Strip(row[lo].value)] + rest else rest
  }

  /** `str(row[p + 1]).strip()` when that cell exists, else "" (a `None` cell reads "None"). */
  function FollowingText(row: Row, p: int): string {
    if 0 <= p + 1 < |row| then Strip(Str(row[p + 1])) else []
  }

  /**
   * `extract_pdf_table_title_items(table, reference_row_idx, header_row_idx)`:
   * a reference row of at least seven cells with a 単位 cell and a 単位数量
   * cell, in either order, each followed by a cell with text.
   */
  function PdfTableTitleItems(table: Table, r: nat): (t: Option<TitleItems>)
    ensures t.Some? <==> (r < |table| && |table[r]| >= 7
      && LastMarked(CellStrings(table[r]), UnitMark) >= 0
      && LastMarked(CellStrings(table[r]), QuantityMark) >= 0
      && FollowingText(table[r], LastMarked(CellStrings(table[r]), UnitMark)) != []
      && FollowingText(table[r], LastMarked(CellStrings(table[r]), QuantityMark)) != [])
    ensures t.Some? ==> t.value.itemName == Join(NameParts(table[r], 1, LastMarked(CellStrings(table[r]), UnitMark)), " ")
    ensures t.Some? ==> t.value.unit == FollowingText(table[r], LastMarked(CellStrings(table[r]), UnitMark))
    ensures t.Some? ==> t.value.unitQuantity == FollowingText(table[r], LastMarked(CellStrings(table[r]), QuantityMark))
  {
    if r >= |table| || |table[r]| < 7 then None
    else
      var row := table[r];
      var u := LastMarked(CellStrings(row), UnitMark);
      var q := LastMarked(CellStrings(row), QuantityMark);
      if u < 0 || q < 0 then None
      else
        var name := Join(NameParts(row, 1, u), " ");
        var unit := FollowingText(row, u);
        var quantity := FollowingText(row, q);
        if unit == [] || quantity == [] then None
        else Some(TitleItems(name, unit, quantity))
  }

  /** `x` is the non-empty stripped text of the cell after position `p`, which exists. */
  predicate TextAfter(row: Row, p: int, x: string) {
    0 <= p && p + 1 < |row| && x == Strip(Str(row[p + 1])) && x != []
  }

  /** The unit and the quantity are the non-empty texts of the cells after the two markers. */
  lemma {:induction false} PdfTitleTexts(table: Table, r: nat)
    requires PdfTableTitleItems(table, r).Some?
    ensures r < |table|
    ensures TextAfter(table[r], LastMarked(CellStrings(table[r]), UnitMark), PdfTableTitleItems(table, r).value.unit)
    ensures TextAfter(table[r], LastMarked(CellStrings(table[r]), QuantityMark), PdfTableTitleItems(table, r).value.unitQuantity)
  {
    var row := table[r];
    var t := PdfTableTitleItems(table, r).value;
    FollowingCell(row, LastMarked(CellStrings(row), UnitMark), t.unit);
    FollowingCell(row, LastMarked(CellStrings(row), QuantityMark), t.unitQuantity);
  }

  /** Non-empty text read after position `p` is the text of the next cell, which exists. */
  lemma {:induction false} FollowingCell(row: Row, p: int, x: string)
    requires 0 <= p && x == FollowingText(row, p) != []
    ensures TextAfter(row, p, x)
  {
  }

  /**
   * The last cell carrying a marker (単位 or 単位数量) is filled and carries it, and no cell
   * after it does: the unit and the quantity come from the cells after the last markers.
   */
  lemma {:induction false} LastMarkedCell(row: Row, mk: Marker)
    ensures var p := LastMarked(CellStrings(row), mk);
      && (p >= 0 ==> p < |row| && Truthy(row[p]) && Marks(mk, row[p].value))
      && (forall k :: p < k < |row| ==> !Marks(mk, OrEmpty(row[k])))
  {
    var cells := CellStrings(row);
    var p := LastMarked(cells, mk);
    if p >= 0 {
      MarkedCellFilled(row, p, mk);
    }
    forall k | p < k < |row| ensures !Marks(mk, OrEmpty(row[k])) {
      assert cells[k] == OrEmpty(row[k]);
    }
  }

  /** A cell carrying either marker is filled (`if cell and …`). */
  lemma {:induction false} MarkedCellFilled(row: Row, p: int, mk: Marker)
    requires 0 <= p < |row| && Marks(mk, CellStrings(row)[p])
    ensures Truthy(row[p]) && Marks(mk, row[p].value)
  {
    var s := OrEmpty(row[p]);
    assert CellStrings(row)[p] == s;
    var w := if mk == UnitMark then "単位" else "単位数量";
    assert Contains(s, w);
    ContainsShorter(s, w);
  }

  /** A `None` cell after a marker is read as the text "None", which passes the emptiness test. */
  lemma {:induction false} PdfTitleMissingCellReadsNone(row: Row, p: int)
    requires 0 <= p + 1 < |row| && row[p + 1].None?
    ensures FollowingText(row, p) == "None"
  {
    StripUnspaced("None");
  }

  /** Every filled cell of the range gives a name part. */
  lemma {:induction false} NamePartsHas(row: Row, lo: nat, hi: nat, k: nat)
    requires lo <= k < hi && k < |row| && Truthy(row[k])
    ensures Strip(row[k].value) in NameParts(row, lo, hi)
    decreases k - lo
  {
    var rest := NameParts(row, lo + 1, hi);
    if lo == k {
      assert NameParts(row, lo, hi)[0] == Strip(row[k].value);
    } else {
      NamePartsHas(row, lo + 1, hi, k);
      var i :| 0 <= i < |rest| && rest[i] == Strip(row[k].value);
      if Truthy(row[lo]) {
        assert NameParts(row, lo, hi)[i + 1] == rest[i];
      } else {
        assert NameParts(row, lo, hi) == rest;
      }
    }
  }

  /**
   * No order between the two markers is required: when the 単位数量 cell
   * comes before the 単位 cell, it is read as part of the item name.
   */
  lemma {:induction false} PdfTitleQuantityFirst(table: Table, r: nat)
    requires PdfTableTitleItems(table, r).Some?
    requires 1 <= LastMarked(CellStrings(table[r]), QuantityMark) < LastMarked(CellStrings(table[r]), UnitMark)
    ensures var q := LastMarked(CellStrings(table[r]), QuantityMark);
      Truthy(table[r][q]) && Strip(table[r][q].value) in NameParts(table[r], 1, LastMarked(CellStrings(table[r]), UnitMark))
  {
    var row := table[r];
    var q := LastMarked(CellStrings(row), QuantityMark);
    MarkedCellFilled(row, q, QuantityMark);
    NamePartsHas(row, 1, LastMarked(CellStrings(row), UnitMark), q);
  }

  // ----------------------------------------------------------- Excel rows

  /** The texts `str(cell).strip()` of the filled cells, one of them only, and all digits (`^\d+$`). */
  predicate TableNumberRow(row: Row) {
    var t := NonEmptyTexts(row);
    |t| == 1 && AllDigits(t[0])
  }

  /** The last table-number row above row `r`. */
  function LastNumberRowBefore(df: Table, r: nat): (e: Option<nat>)
    requires r <= |df|
    ensures e.Some? ==> e.value < r && TableNumberRow(df[e.value])
    ensures forall k :: (if e.Some? then e.value else -1) < k < r ==> !TableNumberRow(df[k])
    decreases r
  {
    if r == 0 then None
    else if TableNumberRow(df[r - 1]) then Some(r - 1)
    else LastNumberRowBefore(df, r - 1)
  }

  /**
   * `find_previous_table_end(df, current_reference_row)`: the last
   * table-number row above the reference row, else 0; 0 as well when the
   * reference row lies past the end of the sheet (the lookup raises and the
   * handler returns 0).
   */
  function PreviousTableEnd(df: Table, r: nat): (e: nat)
    ensures r > |df| ==> e == 0
    ensures r <= |df| ==> e == 0 || (e < r && TableNumberRow(df[e]))
    ensures r <= |df| ==> forall k :: e < k < r ==> !TableNumberRow(df[k])
  {
    if r > |df| then 0
    else match LastNumberRowBefore(df, r)
      case Some(e) => e
      case None => 0
  }

  /** When some row above the reference row is a table-number row, the result is one. */
  lemma {:induction false} PreviousTableEndFound(df: Table, r: nat, k: nat)
    requires k < r <= |df| && TableNumberRow(df[k])
    ensures PreviousTableEnd(df, r) < r && TableNumberRow(df[PreviousTableEnd(df, r)])
  {
  }

  /** The backward search of `find_previous_table_end`. */
  method FindPreviousTableEnd(df: Table, r: nat) returns (e: nat)
    ensures e == PreviousTableEnd(df, r)
  {
    if r > |df| {
      return 0;
    }
    var k: nat := r;
    while k > 0
      invariant k <= r
      invariant LastNumberRowBefore(df, k) == LastNumberRowBefore(df, r)
      decreases k
    {
      k := k - 1;
      if TableNumberRow(df[k]) {
        return k;
      }
    }
    return 0;
  }

  /** The first table-number row at or below row `s`. */
  function FirstNumberRowFrom(df: Table, s: nat): (e: Option<nat>)
    ensures e.Some? ==> s <= e.value < |df| && TableNumberRow(df[e.value])
    ensures forall k :: s <= k < (if e.Some? then e.value else |df|) ==> !TableNumberRow(df[k])
    decreases |df| - s
  {
    if s >= |df| then None
    else if TableNumberRow(df[s]) then Some(s)
    else FirstNumberRowFrom(df, s + 1)
  }

  /** `find_excel_table_end(df, start_row)`: the first table-number row from `start_row` on, else the last row. */
  function ExcelTableEnd(df: Table, s: nat): (e: int)
    ensures e == |df| - 1 || (s <= e < |df| && TableNumberRow(df[e]))
    ensures forall k :: s <= k < e ==> !TableNumberRow(df[k])
    ensures -1 <= e < |df|
  {
    match FirstNumberRowFrom(df, s)
    case Some(e) => e
    case None => |df| - 1
  }

  /** When some row from `start_row` on is a table-number row, the result is the first one. */
  lemma {:induction false} ExcelTableEndFound(df: Table, s: nat, k: nat)
    requires s <= k < |df| && TableNumberRow(df[k])
    ensures s <= ExcelTableEnd(df, s) <= k && TableNumberRow(df[ExcelTableEnd(df, s)])
  {
  }

  /** The forward search of `find_excel_table_end`. */
  method FindExcelTableEnd(df: Table, s: nat) returns (e: int)
    ensures e == ExcelTableEnd(df, s)
  {
    var k := s;
    while k < |df|
      invariant s <= k
      invariant FirstNumberRowFrom(df, k) == FirstNumberRowFrom(df, s)
      decreases |df| - k
    {
      if TableNumberRow(df[k]) {
        return k;
      }
      k := k + 1;
    }
    return |df| - 1;
  }

  /** `str(cell)` for the cells that are not NaN and not only whitespace, unstripped. */
  function RawTexts(row: Row): (r: seq<string>)
    ensures |r| <= |row|
    decreases |row|
  {
    if row == [] then []
    else (if HasText(row[0]) then [row[0].value] else []) + RawTexts(row[1..])
  }

  /** `" ".join(...)` of those texts: the row as one sentence. */
  function RowSentence(row: Row): string {
    Join(RawTexts(row), " ")
  }

  /** Hiragana, katakana, a CJK ideograph up to U+9FAF, an ASCII digit or a Latin letter. */
  predicate TitleChar(c: char) {
    ('\U{3040}' <= c <= '\U{30FF}') || ('\U{4E00}' <= c <= '\U{9FAF}')
    || IsAsciiDigit(c) || ('A' <= c <= 'Z') || ('a' <= c <= 'z')
  }

  /** `re.search` for a title character. */
  predicate HasTitleChar(t: string)
    decreases |t|
  {
    t != [] && (TitleChar(t[0]) || HasTitleChar(t[1..]))
  }

  /** `is_meaningful_text`, stripping leading whitespace one character at a time. */
  predicate IsMeaningful(text: string)
    decreases |text|
  {
    if text != [] && IsSpace(text[0]) then IsMeaningful(text[1..])
    else |RStrip(text)| >= 3 && HasTitleChar(RStrip(text))
  }

  /** At least three characters once stripped, one of them a title character. */
  lemma {:induction false} IsMeaningfulStripped(text: string)
    ensures IsMeaningful(text) <==> |Strip(text)| >= 3 && HasTitleChar(Strip(text))
    decreases |text|
  {
    if text != [] && IsSpace(text[0]) {
      IsMeaningfulStripped(text[1..]);
    }
  }

  /** The meaningful rows `lo <= row < hi`, stripped, in row order. */
  function Sentences(df: Table, lo: nat, hi: int): (s: seq<string>)
    requires hi <= |df|
    ensures |s| <= if lo <= hi then hi - lo else 0
    ensures forall i :: 0 <= i < |s| ==> |s[i]| >= 3
    decreases hi - lo
  {
    if hi <= lo then []
    else
      var text := RowSentence(df[hi - 1]);
      IsMeaningfulStripped(text);
      Sentences(df, lo, hi - 1) + if IsMeaningful(text) then [Strip(text)] else []
  }

  /** No sentence is collected exactly when no row of the range is meaningful. */
  lemma {:induction false} SentencesEmpty(df: Table, lo: nat, hi: int)
    requires hi <= |df|
    ensures Sentences(df, lo, hi) == [] <==> forall k :: lo <= k < hi ==> !IsMeaningful(RowSentence(df[k]))
    decreases hi - lo
  {
    if lo < hi {
      SentencesEmpty(df, lo, hi - 1);
      var text := RowSentence(df[hi - 1]);
      if IsMeaningful(text) {
        assert Sentences(df, lo, hi) == Sentences(df, lo, hi - 1) + [Strip(text)];
      } else {
        assert Sentences(df, lo, hi) == Sentences(df, lo, hi - 1);
        assert (forall k :: lo <= k < hi ==> !IsMeaningful(RowSentence(df[k])))
          <==> (forall k :: lo <= k < hi - 1 ==> !IsMeaningful(RowSentence(df[k])));
      }
    }
  }

  /** One of the three `for row_idx in range(lo, hi)` loops that append meaningful row texts. */
  method CollectSentences(df: Table, lo: nat, hi: int) returns (s: seq<string>)
    requires hi <= |df|
    ensures s == Sentences(df, lo, hi)
  {
    s := [];
    if hi <= lo {
      return;
    }
    var k := lo;
    while k < hi
      invariant lo <= k <= hi
      invariant s == Sentences(df, lo, k)
      decreases hi - k
    {
      var text := RowSentence(df[k]);
      if IsMeaningful(text) {
        s := s + [Strip(text)];
      }
      k := k + 1;
    }
  }

  function Min(a: int, b: int): int { if a <= b then a else b }

  /** The sentences of the three areas `extract_excel_table_title_items` collects. */
  datatype Areas = Areas(before: seq<string>, between: seq<string>, after: seq<string>)

  /** No collected sentence is empty. */
  predicate Filled(a: Areas) {
    && (forall i :: 0 <= i < |a.before| ==> a.before[i] != [])
    && (forall i :: 0 <= i < |a.between| ==> a.between[i] != [])
    && (forall i :: 0 <= i < |a.after| ==> a.after[i] != [])
  }

  /**
   * The sentences above the reference row, below the previous table end
   * `prev`; between the reference row and the table end `next`; and in the
   * nine rows after the table end.
   */
  function AreasAround(df: Table, r: nat, prev: nat, next: int): Areas
    requires r <= |df| && -1 <= next < |df|
  {
    Areas(Sentences(df, prev + 1, r), Sentences(df, r + 1, next),
          Sentences(df, next + 1, Min(next + 10, |df|)))
  }

  /** The areas around reference row `r`, between the previous and the next table ends. */
  function SentenceAreas(df: Table, r: nat): Areas
    requires r <= |df|
  {
    AreasAround(df, r, PreviousTableEnd(df, r), ExcelTableEnd(df, r))
  }

  /**
   * The selection as written: the second-last sentence above the reference
   * row (the only one when there is one), then, while nothing is selected,
   * the first between the reference row and the table end, then the first
   * after it.
   */
  function SelectTitle(a: Areas): Option<TitleItems> {
    var first := if |a.before| >= 2 then a.before[|a.before| - 2] else if a.before != [] then a.before[0] else [];
    var second := if first == [] && a.between != [] then a.between[0] else first;
    var third := if second == [] && a.after != [] then a.after[0] else second;
    if third != [] then Some(TitleItems(third, [], [])) else None
  }

  /** The title is taken from the first area with a sentence, in the priority order. */
  predicate ByPriority(a: Areas, t: Option<TitleItems>) {
    && (t.Some? <==> a.before != [] || a.between != [] || a.after != [])
    && (|a.before| >= 2 ==> t == Some(TitleItems(a.before[|a.before| - 2], [], [])))
    && (|a.before| == 1 ==> t == Some(TitleItems(a.before[0], [], [])))
    && (a.before == [] && a.between != [] ==> t == Some(TitleItems(a.between[0], [], [])))
    && (a.before == [] && a.between == [] && a.after != [] ==> t == Some(TitleItems(a.after[0], [], [])))
  }

  /** With no empty sentence, the selection follows the priority order. */
  lemma {:induction false} SelectTitlePriority(a: Areas)
    requires Filled(a)
    ensures ByPriority(a, SelectTitle(a))
  {
  }

  /**
   * `extract_excel_table_title_items(df, reference_row, header_row)` (the
   * header row is unused). A reference row past the end of the sheet makes a
   * row lookup raise, and the handler returns None.
   */
  function ExcelTableTitleItems(df: Table, r: nat): (t: Option<TitleItems>)
  {
    if r > |df| then None else SelectTitle(SentenceAreas(df, r))
  }

  /**
   * The title is the second-last meaningful row text above the reference
   * row (or the only one), else the first one below it up to the table end,
   * else the first one in the nine rows after the table end; it is at least
   * three characters long and never has a unit or a quantity.
   */
  lemma {:induction false} ExcelTitleChoice(df: Table, r: nat)
    requires r <= |df|
    ensures ByPriority(SentenceAreas(df, r), ExcelTableTitleItems(df, r))
    ensures var t := ExcelTableTitleItems(df, r);
      t.Some? ==> |t.value.itemName| >= 3 && t.value.unit == [] && t.value.unitQuantity == []
  {
    var a := SentenceAreas(df, r);
    assert Filled(a);
    SelectTitlePriority(a);
  }

  /** A reference row past the end of the sheet gives no title. */
  lemma {:induction false} ExcelTitlePastEnd(df: Table, r: nat)
    requires r > |df|
    ensures ExcelTableTitleItems(df, r).None?
  {
  }

  /** The three collecting loops of `extract_excel_table_title_items`. */
  method CollectAreas(df: Table, r: nat, prev: nat, next: int) returns (a: Areas)
    requires r <= |df| && -1 <= next < |df|
    ensures a == AreasAround(df, r, prev, next)
  {
    var before := CollectSentences(df, prev + 1, r);
    var between := CollectSentences(df, r + 1, next);
    var after := CollectSentences(df, next + 1, Min(next + 10, |df|));
    a := Areas(before, between, after);
  }

  /** `extract_excel_table_title_items`: the two searches, the three loops, the choice. */
  method ExtractExcelTableTitleItems(df: Table, r: nat) returns (t: Option<TitleItems>)
    ensures t == ExcelTableTitleItems(df, r)
  {
    if r > |df| {
      return None;
    }
    var prev := FindPreviousTableEnd(df, r);
    var next := FindExcelTableEnd(df, r);
    var areas := CollectAreas(df, r, prev, next);
    t := SelectTitle(areas);
  }
}

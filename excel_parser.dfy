/**
 * `server/services/excel_parser.py`: a 内訳書 sheet read as logical rows (a
 * named row together with the continuation rows below it whose name column is
 * blank), the logical rows nested by their ideographic-space indentation, and
 * the nesting flattened again into items with their depth.
 */
module ExcelParser {
  import opened Wrappers
  import opened Text
  import opened Grid
  import opened Numbers
  import Nesting

  /**
   * A sheet as `pd.read_excel(..., header=None)` hands it over: its column
   * count and its rows. A row shorter than the frame reads NaN in the missing
   * columns, as pandas pads a ragged sheet; entries beyond the width are not
   * cells of the frame.
   */
  datatype Frame = Frame(width: nat, rows: seq<Row>)

  /** `_get_cell_value`: NaN reads as "", any other cell as its text, stripped unless spaces are kept. */
  function CellValue(c: Cell, keepSpaces: bool): string {
    match c
    case None => []
    case Some(s) => if keepSpaces then s else Strip(s)
  }

  /**
   * The frame as the parser looks at it, cell by cell: whether the cell is
   * NaN (`pd.isna`), its text as written (`_get_cell_value(..., preserve_spaces=True)`,
   * which is also `str(cell)` for a present cell) and its stripped text
   * (`_get_cell_value(...)`). Row `r`, column `c`, for `r < height`, `c < width`.
   */
  datatype Sheet = Sheet(width: nat, height: nat, na: (nat, nat) -> bool, raw: (nat, nat) -> string,
                         text: (nat, nat) -> string)

  function SheetOf(df: Frame): Sheet {
    Sheet(df.width, |df.rows|,
          (r: nat, c: nat) => r < |df.rows| && At(df.rows[r], c).None?,
          (r: nat, c: nat) => if r < |df.rows| then CellValue(At(df.rows[r], c), true) else [],
          (r: nat, c: nat) => if r < |df.rows| then CellValue(At(df.rows[r], c), false) else [])
  }

  /** How the three readings of a cell agree: the text is the raw text stripped, and NaN reads as "". */
  predicate Readings(sh: Sheet) {
    forall r: nat, c: nat :: r < sh.height && c < sh.width ==>
      sh.text(r, c) == Strip(sh.raw(r, c)) && (sh.na(r, c) ==> sh.raw(r, c) == [])
  }

  /** A frame's sheet reads its cells consistently. */
  lemma {:induction false} SheetOfReadings(df: Frame)
    ensures Readings(SheetOf(df))
  {
    var sh := SheetOf(df);
    forall r: nat, c: nat | r < sh.height && c < sh.width
      ensures sh.text(r, c) == Strip(sh.raw(r, c)) && (sh.na(r, c) ==> sh.raw(r, c) == [])
    {
      var cell := At(df.rows[r], c);
      assert sh.raw(r, c) == CellValue(cell, true) && sh.text(r, c) == CellValue(cell, false);
      if cell.None? {
        assert Strip([]) == [];
      }
    }
  }

  // --------------------------------------------------------- hierarchy level

  function CountChar(s: string, ch: char): (n: nat)
    ensures n <= |s|
    decreases |s|
  {
    if s == [] then 0 else (if s[0] == ch then 1 else 0) + CountChar(s[1..], ch)
  }

  /** `_get_hierarchy_level`: the number of ideographic spaces in the name, wherever they stand. */
  function HierarchyLevel(name: string): nat {
    CountChar(name, IdeographicSpace)
  }

  lemma {:induction false} CountCharConcat(a: string, b: string, ch: char)
    ensures CountChar(a + b, ch) == CountChar(a, ch) + CountChar(b, ch)
    decreases |a|
  {
    if a != [] {
      assert (a + b)[1..] == a[1..] + b;
      CountCharConcat(a[1..], b, ch);
    } else {
      assert a + b == b;
    }
  }

  /**
   * Every ideographic space of a name adds one level, not only the leading
   * indentation: a space inside the name counts as much as one in front.
   */
  lemma {:induction false} LevelCountsEverySpace(a: string, b: string)
    ensures HierarchyLevel(a + [IdeographicSpace] + b) == HierarchyLevel(a) + 1 + HierarchyLevel(b)
  {
    CountCharConcat(a, [IdeographicSpace] + b, IdeographicSpace);
    assert a + [IdeographicSpace] + b == a + ([IdeographicSpace] + b);
    assert ([IdeographicSpace] + b)[1..] == b;
  }

  /** A name without ideographic spaces is at level 0. */
  lemma {:induction false} LevelZeroIffNoIndent(name: string)
    ensures HierarchyLevel(name) == 0 <==> IdeographicSpace !in name
    decreases |name|
  {
    if name != [] {
      LevelZeroIffNoIndent(name[1..]);
      assert name == [name[0]] + name[1..];
    }
  }

  // ---------------------------------------------------- one logical row

  /** `LogicalRow`; while a logical row is being read, `itemName` holds the name as written. */
  datatype LogicalRow = LogicalRow(itemName: string, unit: string, quantity: string, unitPrice: string,
                                   amount: string, notes: string, level: nat)

  /** The fields read from the start row; `notes` only when the frame has a column 7. */
  function Initial(sh: Sheet, r: nat): LogicalRow
    requires r < sh.height && 7 <= sh.width
  {
    LogicalRow(sh.raw(r, 1), sh.text(r, 3), sh.text(r, 4), sh.text(r, 5), sh.text(r, 6),
               if sh.width > 7 then sh.text(r, 7) else [], 0)
  }

  /** A row continues the logical row above it when its name column is blank (`next_item.strip() == ""`). */
  predicate Continues(sh: Sheet, r: nat)
    requires r < sh.height && 2 <= sh.width
  {
    Blank(sh.text(r, 1))
  }

  /** `if not field and value: field = value`: an empty field takes the row's value in column `c`. */
  function Keep(field: string, sh: Sheet, r: nat, c: nat): string
    requires r < sh.height && c < sh.width
  {
    if field == [] && sh.text(r, c) != [] then sh.text(r, c) else field
  }

  /** Merging one continuation row into the logical row read so far. */
  function Merge(acc: LogicalRow, sh: Sheet, r: nat): LogicalRow
    requires r < sh.height && 7 <= sh.width
  {
    var name := if !Blank(sh.raw(r, 1)) then acc.itemName + " " + sh.raw(r, 1) else acc.itemName;
    LogicalRow(name, Keep(acc.unit, sh, r, 3), Keep(acc.quantity, sh, r, 4), Keep(acc.unitPrice, sh, r, 5),
               Keep(acc.amount, sh, r, 6), if sh.width > 7 then Keep(acc.notes, sh, r, 7) else acc.notes, acc.level)
  }

  /** The first row from `from` on that has a name: where a logical row ends. */
  function BlockEnd(sh: Sheet, from: nat): (e: nat)
    requires from <= sh.height && 2 <= sh.width
    ensures from <= e <= sh.height
    decreases sh.height - from
  {
    if from < sh.height && Continues(sh, from) then BlockEnd(sh, from + 1) else from
  }

  /** Rows `lo` to `hi - 1` merged, in order, into the logical row `acc`. */
  function Absorb(sh: Sheet, lo: nat, hi: nat, acc: LogicalRow): LogicalRow
    requires lo <= hi <= sh.height && 7 <= sh.width
    decreases hi
  {
    if hi == lo then acc else Merge(Absorb(sh, lo, hi - 1, acc), sh, hi - 1)
  }

  /**
   * `_extract_single_logical_row`: `None` when the frame lacks one of the
   * columns 1 and 3 to 6 (the `KeyError` the method catches).
   */
  function SingleLogicalRow(sh: Sheet, start: nat): Option<LogicalRow>
    requires start < sh.height
  {
    if sh.width < 7 then None
    else
      var acc := Absorb(sh, start + 1, BlockEnd(sh, start + 1), Initial(sh, start));
      Some(acc.(itemName := Strip(acc.itemName), level := HierarchyLevel(acc.itemName)))
  }

  method ExtractSingleLogicalRow(sh: Sheet, start: nat) returns (lr: Option<LogicalRow>)
    requires start < sh.height
    ensures lr == SingleLogicalRow(sh, start)
  {
    if sh.width < 7 {
      return None;
    }
    var row := Initial(sh, start);
    var next := start + 1;
    while next < sh.height
      invariant start < next <= sh.height
      invariant BlockEnd(sh, next) == BlockEnd(sh, start + 1)
      invariant row == Absorb(sh, start + 1, next, Initial(sh, start))
      decreases sh.height - next
    {
      var nextItem := sh.text(next, 1);
      if Blank(nextItem) {
        row := Merge(row, sh, next);
        next := next + 1;
      } else {
        break;
      }
    }
    lr := Some(row.(itemName := Strip(row.itemName), level := HierarchyLevel(row.itemName)));
  }

  // ------------------------------------------- what a logical row holds

  /** A name cell that reads blank stripped is blank read with its spaces too. */
  predicate NamesRead(sh: Sheet) {
    forall r: nat :: r < sh.height && Blank(sh.text(r, 1)) ==> Blank(sh.raw(r, 1))
  }

  /** Consistent readings read blank names alike: a continuation row's name is blank however it is read. */
  lemma {:induction false} ReadingsNames(sh: Sheet)
    requires Readings(sh) && 2 <= sh.width
    ensures NamesRead(sh)
  {
    forall r: nat | r < sh.height && Blank(sh.text(r, 1))
      ensures Blank(sh.raw(r, 1))
    {
      assert sh.text(r, 1) == Strip(sh.raw(r, 1));
      StripEmptyIffBlank(sh.text(r, 1));
      StripTwice(sh.raw(r, 1));
      StripEmptyIffBlank(sh.raw(r, 1));
    }
  }

  /** Every row before the block end continues the logical row. */
  lemma {:induction false} BlockEndContinues(sh: Sheet, from: nat, k: nat)
    requires 2 <= sh.width && from <= sh.height && from <= k < BlockEnd(sh, from)
    ensures Continues(sh, k)
    decreases sh.height - from
  {
    if k > from {
      BlockEndContinues(sh, from + 1, k);
    }
  }

  /** Merging continuation rows never changes the name read so far. */
  lemma {:induction false} AbsorbKeepsName(sh: Sheet, lo: nat, hi: nat, acc: LogicalRow)
    requires NamesRead(sh) && 7 <= sh.width && lo <= sh.height && lo <= hi <= BlockEnd(sh, lo)
    ensures Absorb(sh, lo, hi, acc).itemName == acc.itemName
    decreases hi
  {
    if hi > lo {
      AbsorbKeepsName(sh, lo, hi - 1, acc);
      BlockEndContinues(sh, lo, hi - 1);
    }
  }

  /**
   * A logical row exists exactly when the frame has columns 1 to 6; its name
   * is the start row's name column stripped, and its level counts the
   * ideographic spaces of that column as written. The name extension for
   * continuation rows never applies: a continuation row's name is blank.
   */
  lemma {:induction false} LogicalRowName(sh: Sheet, start: nat)
    requires NamesRead(sh) && start < sh.height
    ensures SingleLogicalRow(sh, start).Some? <==> 7 <= sh.width
    ensures SingleLogicalRow(sh, start).Some? ==>
              SingleLogicalRow(sh, start).value.itemName == Strip(sh.raw(start, 1)) &&
              SingleLogicalRow(sh, start).value.level == HierarchyLevel(sh.raw(start, 1))
  {
    if 7 <= sh.width {
      var acc := Absorb(sh, start + 1, BlockEnd(sh, start + 1), Initial(sh, start));
      AbsorbKeepsName(sh, start + 1, BlockEnd(sh, start + 1), Initial(sh, start));
      assert acc.itemName == sh.raw(start, 1);
      assert SingleLogicalRow(sh, start) == Some(acc.(itemName := Strip(acc.itemName), level := HierarchyLevel(acc.itemName)));
    }
  }

  /** The first non-empty value of column `c` over rows `lo` to `hi - 1`, or "" when all are empty. */
  function FirstFilled(sh: Sheet, c: nat, lo: nat, hi: nat): string
    requires lo <= hi <= sh.height && c < sh.width
    decreases hi
  {
    if hi == lo then []
    else
      var f := FirstFilled(sh, c, lo, hi - 1);
      if f != [] then f else sh.text(hi - 1, c)
  }

  lemma {:induction false} AbsorbFields(sh: Sheet, start: nat, hi: nat)
    requires start < hi <= sh.height && 7 <= sh.width
    ensures var a := Absorb(sh, start + 1, hi, Initial(sh, start));
            a.unit == FirstFilled(sh, 3, start, hi) && a.quantity == FirstFilled(sh, 4, start, hi) &&
            a.unitPrice == FirstFilled(sh, 5, start, hi) && a.amount == FirstFilled(sh, 6, start, hi) &&
            a.notes == (if sh.width > 7 then FirstFilled(sh, 7, start, hi) else [])
    decreases hi
  {
    if hi > start + 1 {
      AbsorbFields(sh, start, hi - 1);
    }
  }

  /**
   * Each of unit, quantity, unit price, amount and notes is the first
   * non-empty value of its column over the start row and its continuation
   * rows; notes stay empty when the frame has no column 7.
   */
  lemma {:induction false} LogicalRowFields(sh: Sheet, start: nat)
    requires start < sh.height && 7 <= sh.width
    ensures var e := BlockEnd(sh, start + 1);
            var lr := SingleLogicalRow(sh, start).value;
            lr.unit == FirstFilled(sh, 3, start, e) && lr.quantity == FirstFilled(sh, 4, start, e) &&
            lr.unitPrice == FirstFilled(sh, 5, start, e) && lr.amount == FirstFilled(sh, 6, start, e) &&
            lr.notes == (if sh.width > 7 then FirstFilled(sh, 7, start, e) else [])
  {
    AbsorbFields(sh, start, BlockEnd(sh, start + 1));
  }

  // ------------------------------------------------- the logical rows

  const HeaderWords: seq<string> := ["項目", "単位", "数量", "単価", "金額"]
  const SkipWords: seq<string> := ["費内訳書", "費目", "工種", "種別", "細別", "規格"]

  /** `row_data.isna().all()` */
  predicate AllNaN(sh: Sheet, r: nat)
    requires r < sh.height
  {
    forall c: nat :: c < sh.width ==> sh.na(r, c)
  }

  /** A table-number row: the name column holds digits only. */
  predicate NumberRow(sh: Sheet, r: nat)
    requires r < sh.height && 2 <= sh.width
  {
    sh.text(r, 1) != [] && AllDigits(Strip(sh.text(r, 1)))
  }

  /**
   * A header row: some present cell contains 項目, 単位, 数量, 単価 or 金額.
   * (`lower()` is applied first; it leaves matches of these kanji words unchanged.)
   */
  predicate HeaderRow(sh: Sheet, r: nat)
    requires r < sh.height
  {
    exists c: nat :: c < sh.width && !sh.na(r, c) && ContainsAny(sh.raw(r, c), HeaderWords)
  }

  /** A logical row is kept when its name is not blank and holds none of the heading words. */
  predicate Kept(lr: LogicalRow) {
    !Blank(lr.itemName) && !ContainsAny(lr.itemName, SkipWords)
  }

  function Prepend<T>(x: T, rest: Option<seq<T>>): Option<seq<T>> {
    match rest
    case Some(s) => Some([x] + s)
    case None => None
  }

  /**
   * `_extract_logical_rows_with_spanning` from row `r` on. Every row that is
   * not skipped starts a logical row, continuation rows included; `None` is
   * the `KeyError` of a frame without a name column, which no caller catches
   * before `extract_hierarchical_data`.
   */
  function Scan(sh: Sheet, r: nat): Option<seq<LogicalRow>>
    requires r <= sh.height
    decreases sh.height - r
  {
    if r == sh.height then Some([])
    else if !AllNaN(sh, r) && sh.width < 2 then None
    else
      match RowStart(sh, r)
      case Some(lr) => Prepend(lr, Scan(sh, r + 1))
      case None => Scan(sh, r + 1)
  }

  /** What row `r` adds to the scan: nothing when it is skipped, else the logical row it starts if that is kept. */
  function RowStart(sh: Sheet, r: nat): (lr: Option<LogicalRow>)
    requires r < sh.height && (AllNaN(sh, r) || 2 <= sh.width)
    ensures lr.Some? ==> Kept(lr.value)
  {
    if AllNaN(sh, r) || NumberRow(sh, r) || HeaderRow(sh, r) then None
    else
      match SingleLogicalRow(sh, r)
      case Some(lr) => if Kept(lr) then Some(lr) else None
      case None => None
  }

  function Then<T>(done: seq<T>, rest: Option<seq<T>>): Option<seq<T>> {
    match rest
    case Some(s) => Some(done + s)
    case None => None
  }

  lemma {:induction false} ThenEmpty<T>(rest: Option<seq<T>>)
    ensures Then([], rest) == rest
  {
    if rest.Some? {
      assert [] + rest.value == rest.value;
    }
  }

  lemma {:induction false} ThenPrepend<T>(done: seq<T>, x: T, rest: Option<seq<T>>)
    ensures Then(done, Prepend(x, rest)) == Then(done + [x], rest)
  {
    if rest.Some? {
      assert done + ([x] + rest.value) == (done + [x]) + rest.value;
    }
  }

  method ExtractLogicalRows(sh: Sheet) returns (rows: Option<seq<LogicalRow>>)
    ensures rows == Scan(sh, 0)
  {
    var logicalRows: seq<LogicalRow> := [];
    var rowIndex := 0;
    ThenEmpty(Scan(sh, 0));
    while rowIndex < sh.height
      invariant rowIndex <= sh.height
      invariant Scan(sh, 0) == Then(logicalRows, Scan(sh, rowIndex))
      decreases sh.height - rowIndex
    {
      if AllNaN(sh, rowIndex) {
        rowIndex := rowIndex + 1;
        continue;
      }
      if sh.width < 2 {
        return None;
      }
      if NumberRow(sh, rowIndex) || HeaderRow(sh, rowIndex) {
        rowIndex := rowIndex + 1;
        continue;
      }
      var lr := ExtractSingleLogicalRow(sh, rowIndex);
      if lr.Some? && Kept(lr.value) {
        ThenPrepend(logicalRows, lr.value, Scan(sh, rowIndex + 1));
        logicalRows := logicalRows + [lr.value];
      }
      rowIndex := rowIndex + 1;
    }
    assert logicalRows + [] == logicalRows;
    rows := Some(logicalRows);
  }

  predicate AllKept(rows: seq<LogicalRow>) {
    forall i :: 0 <= i < |rows| ==> Kept(rows[i])
  }

  /**
   * The scan fails exactly when the frame has no name column and some row
   * is not all NaN; otherwise it yields at most one logical row per sheet
   * row, each with a non-blank name free of heading words.
   */
  lemma {:induction false} ScanSpec(sh: Sheet, r: nat)
    requires r <= sh.height
    ensures Scan(sh, r).None? <==> sh.width < 2 && exists k :: r <= k < sh.height && !AllNaN(sh, k)
    decreases sh.height - r
  {
    if r < sh.height {
      ScanSpec(sh, r + 1);
      if sh.width < 2 && exists k :: r <= k < sh.height && !AllNaN(sh, k) {
        var k :| r <= k < sh.height && !AllNaN(sh, k);
        if k != r {
          assert !AllNaN(sh, r) || Scan(sh, r) == Scan(sh, r + 1);
        }
      }
    }
  }

  /** The scan gives at most one logical row per sheet row. */
  lemma {:induction false} ScanLength(sh: Sheet, r: nat)
    requires r <= sh.height
    ensures Scan(sh, r).Some? ==> |Scan(sh, r).value| <= sh.height - r
    decreases sh.height - r
  {
    if r < sh.height {
      ScanLength(sh, r + 1);
      if AllNaN(sh, r) || 2 <= sh.width {
        var rest := Scan(sh, r + 1);
        match RowStart(sh, r)
        case None =>
          assert Scan(sh, r) == rest;
        case Some(lr) =>
          assert Scan(sh, r) == Prepend(lr, rest);
      }
    }
  }

  /** Every logical row of the scan is kept. */
  lemma {:induction false} ScanKept(sh: Sheet, r: nat)
    requires r <= sh.height
    ensures Scan(sh, r).Some? ==> AllKept(Scan(sh, r).value)
    decreases sh.height - r
  {
    if r < sh.height {
      ScanKept(sh, r + 1);
      if AllNaN(sh, r) || 2 <= sh.width {
        var rest := Scan(sh, r + 1);
        match RowStart(sh, r)
        case None =>
          assert Scan(sh, r) == rest;
        case Some(lr) =>
          assert Scan(sh, r) == Prepend(lr, rest);
          if rest.Some? {
            AllKeptCons(lr, rest.value);
          }
      }
    }
  }

  lemma {:induction false} AllKeptCons(x: LogicalRow, rest: seq<LogicalRow>)
    requires Kept(x) && AllKept(rest)
    ensures AllKept([x] + rest)
  {
    forall i | 0 <= i < |rest| + 1
      ensures Kept(([x] + rest)[i])
    {
      if i > 0 {
        assert ([x] + rest)[i] == rest[i - 1];
      }
    }
  }

  // ----------------------------------------------------------- hierarchy

  /** The indentation levels of the logical rows. */
  function Levels(rows: seq<LogicalRow>): (ls: seq<nat>)
    ensures |ls| == |rows| && forall i :: 0 <= i < |rows| ==> ls[i] == rows[i].level
  {
    seq(|rows|, i requires 0 <= i < |rows| => rows[i].level)
  }

  /** The row the stack offers as parent of row `i`: the nearest earlier row of a smaller level. */
  function ParentOf(rows: seq<LogicalRow>, i: nat): (p: Option<nat>)
    requires i < |rows|
    ensures p.Some? ==> p.value < i
  {
    Nesting.ParentOf(Levels(rows), i)
  }

  /**
   * A row's parent is an earlier row of a smaller level with no row of a
   * level at most its own in between; a row without parent has no earlier
   * row of a smaller level.
   */
  lemma {:induction false} ParentOfSpec(rows: seq<LogicalRow>, i: nat)
    requires i < |rows|
    ensures ParentOf(rows, i).Some? ==>
              rows[ParentOf(rows, i).value].level < rows[i].level &&
              forall k :: ParentOf(rows, i).value < k < i ==> rows[k].level >= rows[i].level
    ensures ParentOf(rows, i).None? ==> forall k :: 0 <= k < i ==> rows[k].level >= rows[i].level
  {
    Nesting.ParentOfSpec(Levels(rows), i);
  }

  /** Pops the stack down to the parent of a row at level `v`, as `_build_hierarchy`'s inner loop. */
  method PopToParent(rows: seq<LogicalRow>, i: nat, stack0: seq<nat>) returns (stack: seq<nat>)
    requires 0 < i < |rows| && stack0 == Nesting.Chain(Levels(rows), i - 1)
    ensures stack == [] <==> ParentOf(rows, i).None?
    ensures stack != [] ==> stack == Nesting.Chain(Levels(rows), ParentOf(rows, i).value)
  {
    stack := stack0;
    while stack != [] && rows[stack[|stack| - 1]].level >= rows[i].level
      invariant stack != [] ==> stack[|stack| - 1] < i && stack == Nesting.Chain(Levels(rows), stack[|stack| - 1])
      invariant ParentOf(rows, i) == if stack == [] then None else Nesting.NearestBelow(Levels(rows), rows[i].level, stack[|stack| - 1] + 1)
      decreases |stack|
    {
      Nesting.PopJump(Levels(rows), rows[i].level, stack[|stack| - 1]);
      stack := stack[..|stack| - 1];
    }
  }

  /**
   * `_build_hierarchy`. The stack holds row positions; attaching row `i` to
   * the children of the stack top is recorded as `parents[i] == Some(top)`,
   * appending it to the top level as `None`.
   */
  method BuildHierarchy(rows: seq<LogicalRow>) returns (parents: seq<Option<nat>>)
    ensures |parents| == |rows|
    ensures forall i :: 0 <= i < |rows| ==> parents[i] == ParentOf(rows, i)
  {
    parents := [];
    var stack: seq<nat> := [];
    for i := 0 to |rows|
      invariant |parents| == i
      invariant forall j :: 0 <= j < i ==> parents[j] == ParentOf(rows, j)
      invariant i == 0 ==> stack == []
      invariant i > 0 ==> stack == Nesting.Chain(Levels(rows), i - 1)
    {
      if i > 0 {
        stack := PopToParent(rows, i, stack);
      }
      if stack != [] {
        parents := parents + [Some(stack[|stack| - 1])];
      } else {
        parents := parents + [None];
      }
      stack := stack + [i];
    }
  }

  // ---------------------------------------------------- the nested items

  /** An item of the hierarchy: a logical row and its children. */
  datatype Node = Node(row: LogicalRow, children: seq<Node>)

  /** Row `i` with its children: the rows whose parent it is, in sheet order. */
  function Tree(rows: seq<LogicalRow>, parents: seq<Option<nat>>, i: nat): Node
    requires |parents| == |rows| && i < |rows|
    decreases |rows| - i, 1, 0
  {
    Node(rows[i], Subtrees(rows, parents, i, i + 1))
  }

  /** The trees of the children of row `i` from row `from` on. */
  function Subtrees(rows: seq<LogicalRow>, parents: seq<Option<nat>>, i: nat, from: nat): seq<Node>
    requires |parents| == |rows| && i < from <= |rows|
    decreases |rows| - i, 0, |rows| - from
  {
    if from == |rows| then []
    else if parents[from] == Some(i) then [Tree(rows, parents, from)] + Subtrees(rows, parents, i, from + 1)
    else Subtrees(rows, parents, i, from + 1)
  }

  /** The top-level trees from row `from` on. */
  function Roots(rows: seq<LogicalRow>, parents: seq<Option<nat>>, from: nat): seq<Node>
    requires |parents| == |rows| && from <= |rows|
    decreases |rows| - from
  {
    if from == |rows| then []
    else if parents[from].None? then [Tree(rows, parents, from)] + Roots(rows, parents, from + 1)
    else Roots(rows, parents, from + 1)
  }

  function Parents(rows: seq<LogicalRow>): (ps: seq<Option<nat>>)
    ensures |ps| == |rows|
  {
    seq(|rows|, i requires 0 <= i < |rows| => ParentOf(rows, i))
  }

  /** `extract_hierarchical_data` on a frame already read. */
  function HierarchicalData(sh: Sheet): Option<seq<Node>> {
    match Scan(sh, 0)
    case None => None
    case Some(rows) => Some(Roots(rows, Parents(rows), 0))
  }

  method ExtractHierarchicalData(sh: Sheet) returns (h: Option<seq<Node>>)
    ensures h == HierarchicalData(sh)
  {
    var rows := ExtractLogicalRows(sh);
    if rows.None? {
      return None;
    }
    var parents := BuildHierarchy(rows.value);
    assert parents == Parents(rows.value);
    h := Some(Roots(rows.value, parents, 0));
  }

  // ----------------------------------------------------------- flattening

  /** A flattened item (`source` is always "Excel"). */
  datatype FlatItem = FlatItem(itemKey: string, quantity: real, unit: string, unitPrice: string,
                               amount: string, notes: string, level: nat)

  /** The flat item of one row at depth `level`; `None` when a non-empty quantity is not a number. */
  function FlatOf(row: LogicalRow, level: nat): Option<FlatItem> {
    if row.quantity == [] then Some(FlatItem(row.itemName, 0.0, row.unit, row.unitPrice, row.amount, row.notes, level))
    else
      match ParseFloat(row.quantity)
      case Some(q) => Some(FlatItem(row.itemName, q, row.unit, row.unitPrice, row.amount, row.notes, level))
      case None => None
  }

  function Cat<T>(a: Option<seq<T>>, b: Option<seq<T>>): Option<seq<T>> {
    match a
    case None => None
    case Some(x) => Then(x, b)
  }

  /** `_flatten_hierarchy`: the item, then its children's items one level deeper. */
  function Flatten(n: Node, level: nat): Option<seq<FlatItem>>
    decreases n, 1
  {
    match FlatOf(n.row, level)
    case None => None
    case Some(f) => Then([f], FlattenAll(n.children, level + 1))
  }

  function FlattenAll(ns: seq<Node>, level: nat): Option<seq<FlatItem>>
    decreases ns, 0
  {
    if ns == [] then Some([]) else Cat(Flatten(ns[0], level), FlattenAll(ns[1..], level))
  }

  /** `extract_items_from_buffer_with_sheet` on a frame already read: any failure gives no items. */
  function SheetItems(sh: Sheet): seq<FlatItem> {
    match HierarchicalData(sh)
    case None => []
    case Some(h) => FlattenAll(h, 0).GetOr([])
  }

  lemma {:induction false} ThenCat<T>(done: seq<T>, xs: seq<T>, rest: Option<seq<T>>)
    ensures Then(done, Cat(Some(xs), rest)) == Then(done + xs, rest)
  {
    if rest.Some? {
      assert done + (xs + rest.value) == (done + xs) + rest.value;
    }
  }

  /** The flattening loop of `extract_items_from_buffer_with_sheet`: a failed quantity drops every item. */
  method FlattenRoots(roots: seq<Node>) returns (items: seq<FlatItem>)
    ensures items == FlattenAll(roots, 0).GetOr([])
  {
    items := [];
    ThenEmpty(FlattenAll(roots, 0));
    for k := 0 to |roots|
      invariant FlattenAll(roots, 0) == Then(items, FlattenAll(roots[k..], 0))
    {
      assert roots[k..][0] == roots[k] && roots[k..][1..] == roots[k + 1..];
      var part := Flatten(roots[k], 0);
      if part.None? {
        return [];
      }
      ThenCat(items, part.value, FlattenAll(roots[k + 1..], 0));
      items := items + part.value;
    }
    assert roots[|roots|..] == [];
    assert items + [] == items;
  }

  method ExtractItemsFromSheet(sh: Sheet) returns (items: seq<FlatItem>)
    ensures items == SheetItems(sh)
  {
    var h := ExtractHierarchicalData(sh);
    if h.None? {
      return [];
    }
    items := FlattenRoots(h.value);
  }
}

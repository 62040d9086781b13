/**
 * The corrected border-driven sheet reader (excel_table_extractor_corrected.py): cell text
 * cleaning, solid and dotted border styles, the end of a logical row, the six-column content
 * of a logical row, the logical-row scan with its fourteen-row split, and the split itself.
 *
 * A sheet is given as its dimensions and four readers indexed by 1-based (row, column): the
 * raw cell text (`str(cell.value)`, "" for an empty cell), the cleaned value `get_cell_value`
 * returns, and the top and bottom border style names ("none" when a side has no style).
 */
module ExcelBorders {
  import opened Wrappers
  import opened Text

  // ------------------------------------------------------------------ clean_text

  /** `clean_text`: strip, map U+3000 and U+00A0 to a space, delete U+200B, collapse whitespace runs, strip. */
  function CleanText(s: string): string {
    if s == [] then []
    else
      var t1 := ReplaceAll(Strip(s), [IdeographicSpace], " ");
      var t2 := ReplaceAll(t1, [NoBreakSpace], " ");
      var t3 := ReplaceAll(t2, [ZeroWidthSpace], "");
      Strip(CollapseSpaces(t3))
  }

  /** Every whitespace character is a plain space and no two of them are adjacent. */
  ghost predicate SingleSpaced(t: string)
    decreases |t|
  {
    t == [] || ((IsSpace(t[0]) ==> t[0] == ' ' && (|t| > 1 ==> !IsSpace(t[1]))) && SingleSpaced(t[1..]))
  }

  /** What `clean_text` guarantees of its result. */
  ghost predicate Cleaned(t: string) {
    SingleSpaced(t) && ZeroWidthSpace !in t && (t == [] || (!IsSpace(t[0]) && !IsSpace(t[|t| - 1])))
  }

  /** `re.sub(r'\s+', ' ', s)` leaves single plain spaces, keeps U+200B out and starts like its input. */
  lemma {:induction false} CollapseSingleSpaced(s: string)
    ensures SingleSpaced(CollapseSpaces(s))
    ensures ZeroWidthSpace !in s ==> ZeroWidthSpace !in CollapseSpaces(s)
    ensures CollapseSpaces(s) != [] ==> s != [] && (IsSpace(CollapseSpaces(s)[0]) <==> IsSpace(s[0]))
    decreases |s|
  {
    var r := CollapseSpaces(s);
    if s == [] {
    } else if IsSpace(s[0]) {
      var l := LStrip(s);
      assert l == LStrip(s[1..]);
      var rest := CollapseSpaces(l);
      CollapseSingleSpaced(l);
      assert r == " " + rest && r[1..] == rest;
      assert ZeroWidthSpace in l ==> ZeroWidthSpace in s;
    } else {
      var rest := CollapseSpaces(s[1..]);
      CollapseSingleSpaced(s[1..]);
      assert r == [s[0]] + rest && r[1..] == rest;
    }
  }

  /** A string that does not start with whitespace is its own `LStrip`. */
  lemma {:induction false} LStripUnspaced(x: string)
    requires x == [] || !IsSpace(x[0])
    ensures LStrip(x) == x
  {
  }

  /** Collapsing a single-spaced string changes nothing. */
  lemma {:induction false} CollapseSingleSpacedFixed(t: string)
    requires SingleSpaced(t)
    ensures CollapseSpaces(t) == t
    decreases |t|
  {
    if t != [] {
      var rest := t[1..];
      assert SingleSpaced(rest);
      CollapseSingleSpacedFixed(rest);
      if IsSpace(t[0]) {
        assert t[0] == ' ' && (rest == [] || !IsSpace(rest[0]));
        LStripUnspaced(rest);
        assert LStrip(t) == rest;
        assert CollapseSpaces(t) == " " + CollapseSpaces(rest);
      } else {
        assert CollapseSpaces(t) == [t[0]] + CollapseSpaces(rest);
      }
    }
  }

  /** A single-spaced string holds no whitespace other than the plain space. */
  lemma {:induction false} SingleSpacedOnlySpace(t: string, c: char)
    requires SingleSpaced(t) && IsSpace(c) && c != ' '
    ensures c !in t
    decreases |t|
  {
    if t != [] {
      SingleSpacedOnlySpace(t[1..], c);
    }
  }

  /** Replacing one character by at most one other leaves none of it behind and invents nothing. */
  lemma {:induction false} ReplaceCharChars(s: string, c: char, d: string)
    requires |d| <= 1 && c !in d
    ensures forall x :: x in ReplaceAll(s, [c], d) ==> x != c && (x in s || x in d)
    decreases |s|
  {
    if s != [] {
      ReplaceCharChars(s[1..], c, d);
      if StartsWith(s, [c]) {
        assert s[|[c]|..] == s[1..];
      }
    }
  }

  /** Suffixes of a single-spaced string are single-spaced. */
  lemma {:induction false} SingleSpacedSuffix(t: string, a: nat)
    requires a <= |t| && SingleSpaced(t)
    ensures SingleSpaced(t[a..])
    decreases a
  {
    if a > 0 {
      SingleSpacedSuffix(t[1..], a - 1);
      assert t[1..][a - 1..] == t[a..];
    }
  }

  /** Prefixes of a single-spaced string are single-spaced. */
  lemma {:induction false} SingleSpacedPrefix(t: string, b: nat)
    requires b <= |t| && SingleSpaced(t)
    ensures SingleSpaced(t[..b])
    decreases b
  {
    if b > 0 {
      SingleSpacedPrefix(t[1..], b - 1);
      assert t[..b][1..] == t[1..][..b - 1];
    }
  }

  /** Stripping keeps a single-spaced text single-spaced, and adds no character. */
  lemma {:induction false} StripSingleSpaced(x: string)
    requires SingleSpaced(x)
    ensures SingleSpaced(Strip(x))
    ensures forall c :: c in Strip(x) ==> c in x
  {
    var l := LStrip(x);
    SingleSpacedSuffix(x, |x| - |l|);
    var r := RStrip(l);
    SingleSpacedPrefix(l, |r|);
    assert forall c :: c in r ==> c in l;
    assert forall c :: c in l ==> c in x;
  }

  /** Stripping a single-spaced text without U+200B leaves a cleaned text. */
  lemma {:induction false} StripCleaned(x: string)
    requires SingleSpaced(x) && ZeroWidthSpace !in x
    ensures Cleaned(Strip(x))
  {
    StripSingleSpaced(x);
    StripShape(x);
  }

  /** `clean_text` yields a stripped, single-spaced text without zero-width spaces. */
  lemma {:induction false} CleanTextCleaned(s: string)
    ensures Cleaned(CleanText(s))
  {
    if s != [] {
      var t2 := ReplaceAll(ReplaceAll(Strip(s), [IdeographicSpace], " "), [NoBreakSpace], " ");
      var t3 := ReplaceAll(t2, [ZeroWidthSpace], "");
      ReplaceCharChars(t2, ZeroWidthSpace, "");
      CollapseSingleSpaced(t3);
      StripCleaned(CollapseSpaces(t3));
    }
  }

  /** A cleaned text is left as it is: `clean_text` is idempotent. */
  lemma {:induction false} CleanTextFixed(t: string)
    requires Cleaned(t)
    ensures CleanText(t) == t
  {
    if t != [] {
      StripUnspaced(t);
      SingleSpacedOnlySpace(t, IdeographicSpace);
      ContainsChar(t, IdeographicSpace);
      SingleSpacedOnlySpace(t, NoBreakSpace);
      ContainsChar(t, NoBreakSpace);
      ContainsChar(t, ZeroWidthSpace);
      CollapseSingleSpacedFixed(t);
    }
  }

  lemma {:induction false} CleanTextIdempotent(s: string)
    ensures CleanText(CleanText(s)) == CleanText(s)
  {
    CleanTextCleaned(s);
    CleanTextFixed(CleanText(s));
  }

  /** On a cleaned text `.strip()` is the identity and "blank" means "empty". */
  lemma {:induction false} CleanedStrip(t: string)
    requires Cleaned(t)
    ensures Strip(t) == t
    ensures Blank(t) <==> t == []
  {
    StripUnspaced(t);
    StripEmptyIffBlank(t);
  }

  // ------------------------------------------------------------------ the sheet

  /** A worksheet: its dimensions, the cleaned cell values and the top and bottom border style names. */
  datatype Sheet = Sheet(maxRow: int, maxCol: int,
                         value: (int, int) -> string,
                         top: (int, int) -> string,
                         bottom: (int, int) -> string)

  /** The sheet `get_cell_value` reads from raw cell texts: every value is cleaned. */
  function SheetOf(maxRow: int, maxCol: int, raw: (int, int) -> string,
                   top: (int, int) -> string, bottom: (int, int) -> string): (sh: Sheet)
    ensures sh.maxRow == maxRow && sh.maxCol == maxCol && sh.top == top && sh.bottom == bottom
    ensures forall r, c :: Cleaned(sh.value(r, c))
  {
    forall r, c ensures Cleaned(CleanText(raw(r, c))) {
      CleanTextCleaned(raw(r, c));
    }
    Sheet(maxRow, maxCol, (r, c) => CleanText(raw(r, c)), top, bottom)
  }

  // -------------------------------------------------------------------- borders

  /** `is_solid_border`: thin, medium, thick or double. */
  predicate IsSolid(style: string) {
    style == "thin" || style == "medium" || style == "thick" || style == "double"
  }

  /** `is_dotted_border`: hair, dotted, dashed, dashDot or dashDotDot. */
  predicate IsDotted(style: string) {
    style == "hair" || style == "dotted" || style == "dashed" || style == "dashDot" || style == "dashDotDot"
  }

  /** No style is both solid and dotted. */
  lemma {:induction false} SolidNotDotted(style: string)
    ensures !(IsSolid(style) && IsDotted(style))
  {
  }

  /** Some column from `col` up to `maxCol` has a solid top or bottom border in `row`. */
  predicate SolidFrom(sh: Sheet, row: int, col: int)
    decreases sh.maxCol + 1 - col
  {
    col <= sh.maxCol
    && (IsSolid(sh.top(row, col)) || IsSolid(sh.bottom(row, col)) || SolidFrom(sh, row, col + 1))
  }

  /** `has_solid_border`: the row is a table separator. */
  predicate SolidRow(sh: Sheet, row: int) {
    SolidFrom(sh, row, 1)
  }

  /** Some column from `col` up to `maxCol` has a dotted top border in `row`. */
  predicate DottedFrom(sh: Sheet, row: int, col: int)
    decreases sh.maxCol + 1 - col
  {
    col <= sh.maxCol && (IsDotted(sh.top(row, col)) || DottedFrom(sh, row, col + 1))
  }

  /** A dotted top border somewhere in the row: a new logical row starts here. */
  predicate DottedRow(sh: Sheet, row: int) {
    DottedFrom(sh, row, 1)
  }

  lemma {:induction false} SolidFromIff(sh: Sheet, row: int, col: int)
    ensures SolidFrom(sh, row, col)
        <==> exists c :: col <= c <= sh.maxCol && (IsSolid(sh.top(row, c)) || IsSolid(sh.bottom(row, c)))
    decreases sh.maxCol + 1 - col
  {
    if col <= sh.maxCol {
      SolidFromIff(sh, row, col + 1);
    }
  }

  /** A row is solid exactly when one of its columns `1..maxCol` has a solid top or bottom. */
  lemma {:induction false} SolidRowIff(sh: Sheet, row: int)
    ensures SolidRow(sh, row)
        <==> exists c :: 1 <= c <= sh.maxCol && (IsSolid(sh.top(row, c)) || IsSolid(sh.bottom(row, c)))
  {
    SolidFromIff(sh, row, 1);
  }

  lemma {:induction false} DottedFromIff(sh: Sheet, row: int, col: int)
    ensures DottedFrom(sh, row, col) <==> exists c :: col <= c <= sh.maxCol && IsDotted(sh.top(row, c))
    decreases sh.maxCol + 1 - col
  {
    if col <= sh.maxCol {
      DottedFromIff(sh, row, col + 1);
    }
  }

  /** A row starts a logical row exactly when one of its columns `1..maxCol` has a dotted top. */
  lemma {:induction false} DottedRowIff(sh: Sheet, row: int)
    ensures DottedRow(sh, row) <==> exists c :: 1 <= c <= sh.maxCol && IsDotted(sh.top(row, c))
  {
    DottedFromIff(sh, row, 1);
  }

  /** `has_solid_border`, scanning the columns left to right. */
  method HasSolidBorder(sh: Sheet, row: int) returns (b: bool)
    ensures b == SolidRow(sh, row)
  {
    var col := 1;
    while col <= sh.maxCol
      invariant SolidFrom(sh, row, col) == SolidRow(sh, row)
      decreases sh.maxCol + 1 - col
    {
      if IsSolid(sh.top(row, col)) || IsSolid(sh.bottom(row, col)) {
        return true;
      }
      col := col + 1;
    }
    return false;
  }

  /** The column scan inside `find_logical_row_end`: does some top border in `row` look dotted? */
  method HasDottedTop(sh: Sheet, row: int) returns (b: bool)
    ensures b == DottedRow(sh, row)
  {
    var col := 1;
    while col <= sh.maxCol
      invariant DottedFrom(sh, row, col) == DottedRow(sh, row)
      decreases sh.maxCol + 1 - col
    {
      if IsDotted(sh.top(row, col)) {
        return true;
      }
      col := col + 1;
    }
    return false;
  }

  // ------------------------------------------------------------ logical row end

  /** The first solid row in `lo..hi`. */
  function FirstSolid(sh: Sheet, lo: int, hi: int): (r: Option<int>)
    ensures r.Some? ==> lo <= r.value <= hi && SolidRow(sh, r.value)
    decreases hi - lo + 1
  {
    if lo > hi then None
    else if SolidRow(sh, lo) then Some(lo)
    else FirstSolid(sh, lo + 1, hi)
  }

  /** The first row in `lo..hi` with a dotted top border. */
  function FirstDotted(sh: Sheet, lo: int, hi: int): (r: Option<int>)
    ensures r.Some? ==> lo <= r.value <= hi && DottedRow(sh, r.value)
    decreases hi - lo + 1
  {
    if lo > hi then None
    else if DottedRow(sh, lo) then Some(lo)
    else FirstDotted(sh, lo + 1, hi)
  }

  /** No row before the one `FirstSolid` finds, or in the whole range when it finds none, is solid. */
  lemma {:induction false} FirstSolidFirst(sh: Sheet, lo: int, hi: int)
    ensures forall k :: lo <= k <= hi && (FirstSolid(sh, lo, hi).None? || k < FirstSolid(sh, lo, hi).value) ==> !SolidRow(sh, k)
    decreases hi - lo + 1
  {
    if lo <= hi && !SolidRow(sh, lo) {
      FirstSolidFirst(sh, lo + 1, hi);
    }
  }

  /** No row before the one `FirstDotted` finds, or in the whole range when it finds none, is dotted. */
  lemma {:induction false} FirstDottedFirst(sh: Sheet, lo: int, hi: int)
    ensures forall k :: lo <= k <= hi && (FirstDotted(sh, lo, hi).None? || k < FirstDotted(sh, lo, hi).value) ==> !DottedRow(sh, k)
    decreases hi - lo + 1
  {
    if lo <= hi && !DottedRow(sh, lo) {
      FirstDottedFirst(sh, lo + 1, hi);
    }
  }

  /**
   * `find_logical_row_end(start, max)`: with a solid row ahead, the row before the first dotted
   * row that precedes it, or else the row before the solid one; with none, the row before the
   * first dotted row, or else `max`.
   */
  function LogicalRowEnd(sh: Sheet, start: int, max: int): (r: int)
    ensures start <= max ==> start <= r <= max
  {
    match FirstSolid(sh, start + 1, max)
    case Some(solid) =>
      (match FirstDotted(sh, start + 1, solid - 1)
       case Some(dotted) => dotted - 1
       case None => solid - 1)
    case None =>
      (match FirstDotted(sh, start + 1, max)
       case Some(dotted) => dotted - 1
       case None => max)
  }

  /**
   * Whichever branch the source takes, a logical row runs from `start` to the row before
   * the first later row that is solid or dotted, or to `max` when there is none.
   */
  lemma {:induction false} LogicalRowEndBoundary(sh: Sheet, start: int, max: int)
    requires start <= max
    ensures var r := LogicalRowEnd(sh, start, max);
            (forall k :: start < k <= r ==> !SolidRow(sh, k) && !DottedRow(sh, k))
            && (r == max || SolidRow(sh, r + 1) || DottedRow(sh, r + 1))
  {
    var r := LogicalRowEnd(sh, start, max);
    FirstSolidFirst(sh, start + 1, max);
    FirstDottedFirst(sh, start + 1, max);
    match FirstSolid(sh, start + 1, max)
    case Some(solid) => {
      FirstDottedFirst(sh, start + 1, solid - 1);
      match FirstDotted(sh, start + 1, solid - 1)
      case Some(dotted) =>
        assert r == dotted - 1;
      case None =>
        assert r == solid - 1;
    }
    case None => {
      match FirstDotted(sh, start + 1, max)
      case Some(dotted) =>
        assert r == dotted - 1;
      case None =>
        assert r == max;
    }
  }

  /** The first solid row from `lo` on, as the first loop of `find_logical_row_end` finds it. */
  method FindSolidAhead(sh: Sheet, lo: int, max: int) returns (solid: Option<int>)
    ensures solid == FirstSolid(sh, lo, max)
  {
    var row := lo;
    while row <= max
      invariant FirstSolid(sh, row, max) == FirstSolid(sh, lo, max)
      decreases max + 1 - row
    {
      var b := HasSolidBorder(sh, row);
      if b {
        return Some(row);
      }
      row := row + 1;
    }
    return None;
  }

  /** The first row with a dotted top in `lo..hi`, as the other loops of `find_logical_row_end` find it. */
  method FindDottedAhead(sh: Sheet, lo: int, hi: int) returns (dotted: Option<int>)
    ensures dotted == FirstDotted(sh, lo, hi)
  {
    var row := lo;
    while row <= hi
      invariant FirstDotted(sh, row, hi) == FirstDotted(sh, lo, hi)
      decreases hi + 1 - row
    {
      var b := HasDottedTop(sh, row);
      if b {
        return Some(row);
      }
      row := row + 1;
    }
    return None;
  }

  /** `find_logical_row_end` */
  method FindLogicalRowEnd(sh: Sheet, start: int, max: int) returns (r: int)
    ensures r == LogicalRowEnd(sh, start, max)
  {
    var solid := FindSolidAhead(sh, start + 1, max);
    if solid.Some? {
      var dotted := FindDottedAhead(sh, start + 1, solid.value - 1);
      if dotted.Some? {
        return dotted.value - 1;
      }
      return solid.value - 1;
    }
    var dotted := FindDottedAhead(sh, start + 1, max);
    if dotted.Some? {
      return dotted.value - 1;
    }
    return max;
  }

  // ---------------------------------------------------------------- row content

  /** The six columns a logical row reads: item name, unit, quantity, unit price, amount, remarks. */
  const ContentColumns: seq<int> := [2, 4, 5, 6, 7, 8]

  /** The non-empty values of column `col` over rows `lo..hi`, top to bottom. */
  function ColumnValues(sh: Sheet, col: int, lo: int, hi: int): seq<string>
    decreases hi - lo + 1
  {
    if lo > hi then []
    else (if sh.value(lo, col) != [] then [sh.value(lo, col)] else []) + ColumnValues(sh, col, lo + 1, hi)
  }

  /** One entry of `extract_row_content`: those values joined by single spaces. */
  function ColumnText(sh: Sheet, col: int, lo: int, hi: int): string {
    Join(ColumnValues(sh, col, lo, hi), " ")
  }

  /** `extract_row_content(lo, hi)`: one entry per content column, in the order of `ContentColumns`. */
  function RowContent(sh: Sheet, lo: int, hi: int): (c: seq<string>)
    ensures |c| == 6
  {
    [ColumnText(sh, 2, lo, hi), ColumnText(sh, 4, lo, hi), ColumnText(sh, 5, lo, hi),
     ColumnText(sh, 6, lo, hi), ColumnText(sh, 7, lo, hi), ColumnText(sh, 8, lo, hi)]
  }

  /** `any(content.strip() for content in row_content)` (the entries are cleaned, so `.strip()` changes nothing). */
  predicate AnyContent(c: seq<string>) {
    exists k :: 0 <= k < |c| && c[k] != []
  }

  /** Only non-empty values are collected, each from a row of the range, and every non-empty value is. */
  lemma {:induction false} ColumnValuesMembers(sh: Sheet, col: int, lo: int, hi: int)
    ensures forall x :: x in ColumnValues(sh, col, lo, hi) ==>
              x != [] && exists r :: lo <= r <= hi && sh.value(r, col) == x
    ensures forall r :: lo <= r <= hi && sh.value(r, col) != [] ==> sh.value(r, col) in ColumnValues(sh, col, lo, hi)
    decreases hi - lo + 1
  {
    if lo <= hi {
      ColumnValuesMembers(sh, col, lo + 1, hi);
    }
  }

  /** The values keep row order: the range may be cut anywhere. */
  lemma {:induction false} ColumnValuesSplit(sh: Sheet, col: int, lo: int, m: int, hi: int)
    requires lo <= m <= hi + 1
    ensures ColumnValues(sh, col, lo, hi) == ColumnValues(sh, col, lo, m - 1) + ColumnValues(sh, col, m, hi)
    decreases m - lo
  {
    if lo < m {
      ColumnValuesSplit(sh, col, lo + 1, m, hi);
      var head := if sh.value(lo, col) != [] then [sh.value(lo, col)] else [];
      assert ColumnValues(sh, col, lo, m - 1) == head + ColumnValues(sh, col, lo + 1, m - 1);
    }
  }

  /** A column entry is empty exactly when every cell of the column in the range is. */
  lemma {:induction false} ColumnTextEmpty(sh: Sheet, col: int, lo: int, hi: int)
    ensures ColumnText(sh, col, lo, hi) == [] <==> forall r :: lo <= r <= hi ==> sh.value(r, col) == []
  {
    var vs := ColumnValues(sh, col, lo, hi);
    ColumnValuesMembers(sh, col, lo, hi);
    if vs != [] {
      assert vs[0] in vs;
      assert Join(vs, " ") == vs[0] || Join(vs, " ") == vs[0] + " " + Join(vs[1..], " ");
    }
  }

  /** A logical row has content exactly when one of its six columns has a non-empty cell somewhere in its range. */
  lemma {:induction false} RowContentAny(sh: Sheet, lo: int, hi: int)
    ensures AnyContent(RowContent(sh, lo, hi))
        <==> exists k, r :: 0 <= k < 6 && lo <= r <= hi && sh.value(r, ContentColumns[k]) != []
  {
    var c := RowContent(sh, lo, hi);
    forall k | 0 <= k < 6
      ensures c[k] != [] <==> exists r :: lo <= r <= hi && sh.value(r, ContentColumns[k]) != []
    {
      ColumnTextEmpty(sh, ContentColumns[k], lo, hi);
    }
  }

  /** The inner loop of `extract_row_content`: the non-empty values of one column. */
  method CollectColumn(sh: Sheet, col: int, lo: int, hi: int) returns (vals: seq<string>)
    ensures vals == ColumnValues(sh, col, lo, hi)
  {
    vals := [];
    var row := lo;
    while row <= hi
      invariant vals + ColumnValues(sh, col, row, hi) == ColumnValues(sh, col, lo, hi)
      decreases hi + 1 - row
    {
      var v := sh.value(row, col);
      if v != [] {
        assert ColumnValues(sh, col, row, hi) == [v] + ColumnValues(sh, col, row + 1, hi);
        vals := vals + [v];
      } else {
        assert ColumnValues(sh, col, row, hi) == ColumnValues(sh, col, row + 1, hi);
      }
      row := row + 1;
    }
  }

  /** `extract_row_content` */
  method ExtractRowContent(sh: Sheet, lo: int, hi: int) returns (content: seq<string>)
    ensures content == RowContent(sh, lo, hi)
  {
    ghost var rc := RowContent(sh, lo, hi);
    content := ["", "", "", "", "", ""];
    for k := 0 to 6
      invariant |content| == 6
      invariant forall j :: 0 <= j < k ==> content[j] == rc[j]
    {
      var vals := CollectColumn(sh, ContentColumns[k], lo, hi);
      RowContentAt(sh, lo, hi, k);
      content := content[k := Join(vals, " ")];
    }
  }

  /** Entry `k` of a row's content is the joined text of content column `k`. */
  lemma {:induction false} RowContentAt(sh: Sheet, lo: int, hi: int, k: nat)
    requires k < 6
    ensures RowContent(sh, lo, hi)[k] == ColumnText(sh, ContentColumns[k], lo, hi)
  {
  }

  // --------------------------------------------------------------- logical rows

  /** One logical row: its physical row range and its six content entries. */
  datatype LogicalRow = LogicalRow(startRow: int, endRow: int, content: seq<string>)

  /**
   * The scan of `extract_logical_rows_with_hair_borders` from the cursor `cur`: stop past `end`
   * or at a row with a solid border; otherwise take the logical row up to its end, keep it
   * when it has content, and go on after it.
   */
  function RowsFrom(sh: Sheet, cur: int, end: int): seq<LogicalRow>
    decreases end - cur + 1
  {
    if cur > end || SolidRow(sh, cur) then []
    else
      var e := LogicalRowEnd(sh, cur, end);
      var c := RowContent(sh, cur, e);
      (if AnyContent(c) then [LogicalRow(cur, e, c)] else []) + RowsFrom(sh, e + 1, end)
  }

  /** A row of the scan over `lo..hi`: a full logical row with content, starting at no solid border. */
  predicate RowIn(sh: Sheet, row: LogicalRow, lo: int, hi: int) {
    lo <= row.startRow <= row.endRow <= hi
    && !SolidRow(sh, row.startRow)
    && row.endRow == LogicalRowEnd(sh, row.startRow, hi)
    && row.content == RowContent(sh, row.startRow, row.endRow)
    && AnyContent(row.content)
  }

  /** Each row is a row of the scan starting after the one before it, the first at `lo` or later. */
  predicate Chain(sh: Sheet, rows: seq<LogicalRow>, lo: int, hi: int)
    decreases |rows|
  {
    rows == [] || (RowIn(sh, rows[0], lo, hi) && Chain(sh, rows[1..], rows[0].endRow + 1, hi))
  }

  lemma {:induction false} ChainWiden(sh: Sheet, rows: seq<LogicalRow>, lo: int, lo': int, hi: int)
    requires lo' <= lo && Chain(sh, rows, lo, hi)
    ensures Chain(sh, rows, lo', hi)
  {
  }

  lemma {:induction false} ChainCons(sh: Sheet, row: LogicalRow, rest: seq<LogicalRow>, lo: int, hi: int)
    requires RowIn(sh, row, lo, hi) && Chain(sh, rest, row.endRow + 1, hi)
    ensures Chain(sh, [row] + rest, lo, hi)
  {
    assert ([row] + rest)[1..] == rest;
  }

  /** Every row the scan emits is a logical row of `cur..end` with content, each after the one before. */
  lemma {:induction false} RowsFromSound(sh: Sheet, cur: int, end: int)
    ensures Chain(sh, RowsFrom(sh, cur, end), cur, end)
    decreases end - cur + 1
  {
    if cur <= end && !SolidRow(sh, cur) {
      var e := LogicalRowEnd(sh, cur, end);
      var c := RowContent(sh, cur, e);
      var rest := RowsFrom(sh, e + 1, end);
      RowsFromSound(sh, e + 1, end);
      if AnyContent(c) {
        RowInAt(sh, cur, end);
        ChainCons(sh, LogicalRow(cur, e, c), rest, cur, end);
        assert RowsFrom(sh, cur, end) == [LogicalRow(cur, e, c)] + rest;
      } else {
        assert RowsFrom(sh, cur, end) == rest;
        ChainWiden(sh, rest, e + 1, cur, end);
      }
    }
  }

  /** A logical row with content, read where the scan stands, is a row of the scan. */
  lemma {:induction false} RowInAt(sh: Sheet, cur: int, end: int)
    requires cur <= end && !SolidRow(sh, cur)
    requires AnyContent(RowContent(sh, cur, LogicalRowEnd(sh, cur, end)))
    ensures RowIn(sh, LogicalRow(cur, LogicalRowEnd(sh, cur, end), RowContent(sh, cur, LogicalRowEnd(sh, cur, end))), cur, end)
  {
  }

  /** Every row of a chain is a row of the scan over `lo..hi`. */
  lemma {:induction false} ChainRowsIn(sh: Sheet, rows: seq<LogicalRow>, lo: int, hi: int)
    requires Chain(sh, rows, lo, hi)
    ensures forall i :: 0 <= i < |rows| ==> RowIn(sh, rows[i], lo, hi)
    decreases |rows|
  {
    if rows != [] {
      var rest := rows[1..];
      ChainRowsIn(sh, rest, rows[0].endRow + 1, hi);
      forall i | 0 < i < |rows| ensures RowIn(sh, rows[i], lo, hi) {
        assert rows[i] == rest[i - 1] && RowIn(sh, rest[i - 1], rows[0].endRow + 1, hi);
      }
    }
  }

  /** The row ranges of a chain follow each other without overlapping. */
  lemma {:induction false} ChainAscending(sh: Sheet, rows: seq<LogicalRow>, lo: int, hi: int)
    requires Chain(sh, rows, lo, hi)
    ensures forall i, j :: 0 <= i < j < |rows| ==> rows[i].endRow < rows[j].startRow
    decreases |rows|
  {
    if rows != [] {
      var rest := rows[1..];
      ChainAscending(sh, rest, rows[0].endRow + 1, hi);
      ChainRowsIn(sh, rest, rows[0].endRow + 1, hi);
      forall i, j | 0 <= i < j < |rows| ensures rows[i].endRow < rows[j].startRow {
        assert rows[j] == rest[j - 1];
        if i > 0 { assert rows[i] == rest[i - 1]; }
      }
    }
  }

  /** `extract_logical_rows_with_hair_borders`: the scan, with the last of exactly fourteen rows split in two when it can be. */
  function LogicalRows(sh: Sheet, start: int, end: int, tax: string, price: string): seq<LogicalRow> {
    var rows := RowsFrom(sh, start, end);
    if |rows| == 14 then
      RowsFromSound(sh, start, end);
      ChainRowsIn(sh, rows, start, end);
      match SplitLast(sh, rows[13], tax, price)
      case Some(pair) => rows[..13] + [pair.0, pair.1]
      case None => rows
    else rows
  }

  /** The result differs from the scan only when it holds exactly fourteen rows and the last one splits. */
  lemma {:induction false} LogicalRowsSplitOnlyAtFourteen(sh: Sheet, start: int, end: int, tax: string, price: string)
    ensures var rows := RowsFrom(sh, start, end);
            var out := LogicalRows(sh, start, end, tax, price);
            out == rows
            || (|rows| == 14 && |out| == 15 && out[..13] == rows[..13]
                && out[13].startRow == out[13].endRow == rows[13].startRow
                && rows[13].startRow <= out[14].startRow == out[14].endRow <= rows[13].endRow)
  {
    var rows := RowsFrom(sh, start, end);
    if |rows| == 14 {
      RowsFromSound(sh, start, end);
      ChainRowsIn(sh, rows, start, end);
      SplitLastRows(sh, rows[13], tax, price);
      var out := LogicalRows(sh, start, end, tax, price);
      match SplitLast(sh, rows[13], tax, price)
      case Some(pair) =>
        assert out == rows[..13] + [pair.0, pair.1];
        assert out[..13] == rows[..13];
      case None =>
    }
  }

  // ------------------------------------------------------------------- the split

  /** The six content cells of one physical row. */
  function RowValues(sh: Sheet, r: int): (v: seq<string>)
    ensures |v| == 6
  {
    [sh.value(r, 2), sh.value(r, 4), sh.value(r, 5), sh.value(r, 6), sh.value(r, 7), sh.value(r, 8)]
  }

  /** `any(data[1:5])`: a unit, quantity, unit price or amount is present. */
  predicate HasFigures(v: seq<string>)
    requires |v| == 6
  {
    v[1] != [] || v[2] != [] || v[3] != [] || v[4] != []
  }

  /** `a if a.strip() else b` on cleaned values. */
  function Pick(a: string, b: string): string {
    if a != [] then a else b
  }

  /** The item name column joined over rows `lo..hi`, figures from `data`, remarks from `own` or else `data`. */
  function SplitContent(sh: Sheet, lo: int, hi: int, data: seq<string>, own: seq<string>): (c: seq<string>)
    requires |data| == 6 && |own| == 6
    ensures |c| == 6
  {
    [ColumnText(sh, 2, lo, hi), data[1], data[2], data[3], data[4], Pick(own[5], data[5])]
  }

  /**
   * The two words the tax split looks for, as the source spells them (mis-decoded Japanese for
   * consumption tax and construction price); the split takes them as parameters.
   */
  const TaxWord: string := "\U{00CA}\U{2202}\U{00E0}\U{00CB}\U{2264}\U{00AA}\U{00C1}\U{00AE}\U{00E9}\U{00C8}\U{00B0}\U{00E7}"
  const PriceWord: string := "\U{00C2}\U{2211}\U{2022}\U{2030}\U{222B}\U{00E3}\U{2030}\U{00E6}\U{00B0}\U{00CA}\U{2020}\U{00BA}"

  /** The source's tax word neither starts nor ends with whitespace. */
  lemma {:induction false} TaxWordUnspaced()
    ensures TaxWord != [] && !IsSpace(TaxWord[0]) && !IsSpace(TaxWord[|TaxWord| - 1])
  {
  }

  /** The last path of `split_last_logical_row`: cut the name before the tax word when both parts keep three characters. */
  function TaxSplit(last: LogicalRow, tax: string, price: string): (r: Option<(LogicalRow, LogicalRow)>)
    requires |last.content| == 6
    ensures r.Some? ==> r.value.0.startRow == r.value.0.endRow == last.startRow
    ensures r.Some? ==> r.value.1.startRow == r.value.1.endRow == last.endRow
    ensures r.Some? ==> |r.value.0.content| == 6 && |r.value.1.content| == 6
  {
    var main := Strip(last.content[0]);
    if Contains(main, tax) && Contains(main, price) then
      var pos := Find(main, tax).value;
      var part1 := Strip(main[..pos]);
      var part2 := Strip(main[pos..]);
      if |part1| >= 3 && |part2| >= 3 then
        Some((LogicalRow(last.startRow, last.startRow, last.content[0 := part1]),
              LogicalRow(last.endRow, last.endRow, last.content[0 := part2][5 := ""])))
      else None
    else None
  }

  /**
   * `split_last_logical_row`: a three-row logical row whose next row has figures becomes two
   * items with their own figures; one whose middle row has the figures and whose outer rows
   * name items becomes two items sharing them; otherwise the tax split is tried.
   */
  function SplitLast(sh: Sheet, last: LogicalRow, tax: string, price: string): Option<(LogicalRow, LogicalRow)>
    requires |last.content| == 6
  {
    var s := last.startRow;
    var e := last.endRow;
    var r1 := RowValues(sh, s);
    var r2 := RowValues(sh, s + 1);
    var r3 := RowValues(sh, s + 2);
    if e - s == 2 && e + 1 <= sh.maxRow && HasFigures(RowValues(sh, e + 1)) then
      var r4 := RowValues(sh, e + 1);
      Some((LogicalRow(s, s, SplitContent(sh, s, s + 1, r2, r1)),
            LogicalRow(s + 2, s + 2, SplitContent(sh, s + 2, s + 3, r4, r3))))
    else if e - s == 2 && r1[0] != [] && r3[0] != [] && HasFigures(r2) then
      Some((LogicalRow(s, s, SplitContent(sh, s, s + 1, r2, r1)),
            LogicalRow(s + 2, s + 2, SplitContent(sh, s + 2, s + 2, r2, r3))))
    else TaxSplit(last, tax, price)
  }

  /** Each half of a split is a single physical row inside the original range, the first at its start. */
  lemma {:induction false} SplitLastRows(sh: Sheet, last: LogicalRow, tax: string, price: string)
    requires |last.content| == 6 && last.startRow <= last.endRow
    ensures SplitLast(sh, last, tax, price).Some? ==>
              var (a, b) := SplitLast(sh, last, tax, price).value;
              a.startRow == a.endRow == last.startRow
              && last.startRow <= b.startRow == b.endRow <= last.endRow
              && |a.content| == 6 && |b.content| == 6
  {
  }

  /** Stripping keeps a leading word that neither starts nor ends with whitespace. */
  lemma {:induction false} StripKeepsLead(x: string, w: string)
    requires w != [] && StartsWith(x, w) && !IsSpace(w[0]) && !IsSpace(w[|w| - 1])
    ensures StartsWith(Strip(x), w)
  {
    assert x[0] == w[0];
    assert LStrip(x) == x;
    var r := RStrip(x);
    RStripRemovesSpaces(x);
    assert x[|w| - 1] == w[|w| - 1];
    assert |w| <= |r|;
    assert r[..|w|] == x[..|w|];
  }

  /** Replacing the name, and clearing the remarks, leaves the figures as they were. */
  lemma {:induction false} NameUpdates(c: seq<string>, p1: string, p2: string)
    requires |c| == 6
    ensures c[0 := p1][1..] == c[1..]
    ensures c[0 := p2][5 := ""][1..5] == c[1..5]
  {
    assert forall k :: 1 <= k < 6 ==> c[0 := p1][k] == c[k];
    assert forall k :: 1 <= k < 5 ==> c[0 := p2][5 := ""][k] == c[k];
  }

  /** The text from the first tax word on still starts with it once stripped. */
  lemma {:induction false} FromTaxWord(main: string, tax: string)
    requires Contains(main, tax)
    requires tax != [] && !IsSpace(tax[0]) && !IsSpace(tax[|tax| - 1])
    ensures StartsWith(Strip(main[Find(main, tax).value..]), tax)
  {
    var pos := Find(main, tax).value;
    assert main[pos..][..|tax|] == tax;
    StripKeepsLead(main[pos..], tax);
  }

  /** The tax split keeps the figures, and leaves the second item without remarks. */
  lemma {:induction false} TaxSplitFigures(last: LogicalRow, tax: string, price: string)
    requires |last.content| == 6 && TaxSplit(last, tax, price).Some?
    ensures TaxSplit(last, tax, price).value.0.content[1..] == last.content[1..]
    ensures TaxSplit(last, tax, price).value.1.content[1..5] == last.content[1..5]
    ensures TaxSplit(last, tax, price).value.1.content[5] == []
  {
    var main := Strip(last.content[0]);
    var pos := Find(main, tax).value;
    var part1 := Strip(main[..pos]);
    var part2 := Strip(main[pos..]);
    NameUpdates(last.content, part1, part2);
    assert TaxSplit(last, tax, price).value.0.content == last.content[0 := part1];
    assert TaxSplit(last, tax, price).value.1.content == last.content[0 := part2][5 := ""];
  }

  /** The second item's name starts with the tax word; the first keeps at least three characters. */
  lemma {:induction false} TaxSplitNames(last: LogicalRow, tax: string, price: string)
    requires |last.content| == 6 && TaxSplit(last, tax, price).Some?
    requires tax != [] && !IsSpace(tax[0]) && !IsSpace(tax[|tax| - 1])
    ensures StartsWith(TaxSplit(last, tax, price).value.1.content[0], tax)
    ensures |TaxSplit(last, tax, price).value.0.content[0]| >= 3
  {
    var main := Strip(last.content[0]);
    var pos := Find(main, tax).value;
    var part2 := Strip(main[pos..]);
    FromTaxWord(main, tax);
    assert TaxSplit(last, tax, price).value.1.content == last.content[0 := part2][5 := ""];
  }

  /** The loop over `[2, 4, 5, 6, 7, 8]` that reads one physical row's cells. */
  method ReadRowValues(sh: Sheet, r: int) returns (v: seq<string>)
    ensures v == RowValues(sh, r)
  {
    v := [];
    for k := 0 to 6
      invariant v == RowValues(sh, r)[..k]
    {
      v := v + [sh.value(r, ContentColumns[k])];
    }
  }

  /** `split_last_logical_row` */
  method SplitLastRow(sh: Sheet, last: LogicalRow, tax: string, price: string) returns (split: Option<(LogicalRow, LogicalRow)>)
    requires |last.content| == 6
    ensures split == SplitLast(sh, last, tax, price)
  {
    var s := last.startRow;
    var e := last.endRow;
    if e - s == 2 && e + 1 <= sh.maxRow {
      var r4 := ReadRowValues(sh, e + 1);
      if HasFigures(r4) {
        var r1 := ReadRowValues(sh, s);
        var r2 := ReadRowValues(sh, s + 1);
        var r3 := ReadRowValues(sh, s + 2);
        var a := MergeRows(sh, s, s + 1, r2, r1);
        var b := MergeRows(sh, s + 2, s + 3, r4, r3);
        SplitLastFour(sh, last, tax, price);
        return Some((LogicalRow(s, s, a), LogicalRow(s + 2, s + 2, b)));
      }
    }
    if e - s == 2 {
      var r1 := ReadRowValues(sh, s);
      var r2 := ReadRowValues(sh, s + 1);
      var r3 := ReadRowValues(sh, s + 2);
      if r1[0] != [] && r3[0] != [] && HasFigures(r2) {
        var a := MergeRows(sh, s, s + 1, r2, r1);
        var b := MergeRows(sh, s + 2, s + 2, r2, r3);
        SplitLastThree(sh, last, tax, price);
        return Some((LogicalRow(s, s, a), LogicalRow(s + 2, s + 2, b)));
      }
    }
    SplitLastTax(sh, last, tax, price);
    split := TaxSplit(last, tax, price);
  }

  /** Whether the row below a three-row range carries the figures (the first case of `SplitLast`). */
  predicate FourRowSplit(sh: Sheet, last: LogicalRow) {
    last.endRow - last.startRow == 2 && last.endRow + 1 <= sh.maxRow && HasFigures(RowValues(sh, last.endRow + 1))
  }

  /** Whether the middle row carries the figures between two named rows (the second case). */
  predicate ThreeRowSplit(sh: Sheet, last: LogicalRow) {
    last.endRow - last.startRow == 2 && RowValues(sh, last.startRow)[0] != [] && RowValues(sh, last.startRow + 2)[0] != []
    && HasFigures(RowValues(sh, last.startRow + 1))
  }

  lemma {:induction false} SplitLastFour(sh: Sheet, last: LogicalRow, tax: string, price: string)
    requires |last.content| == 6 && FourRowSplit(sh, last)
    ensures var s := last.startRow;
      SplitLast(sh, last, tax, price) ==
        Some((LogicalRow(s, s, SplitContent(sh, s, s + 1, RowValues(sh, s + 1), RowValues(sh, s))),
              LogicalRow(s + 2, s + 2, SplitContent(sh, s + 2, s + 3, RowValues(sh, s + 3), RowValues(sh, s + 2)))))
  {
  }

  lemma {:induction false} SplitLastThree(sh: Sheet, last: LogicalRow, tax: string, price: string)
    requires |last.content| == 6 && !FourRowSplit(sh, last) && ThreeRowSplit(sh, last)
    ensures var s := last.startRow;
      SplitLast(sh, last, tax, price) ==
        Some((LogicalRow(s, s, SplitContent(sh, s, s + 1, RowValues(sh, s + 1), RowValues(sh, s))),
              LogicalRow(s + 2, s + 2, SplitContent(sh, s + 2, s + 2, RowValues(sh, s + 1), RowValues(sh, s + 2)))))
  {
  }

  lemma {:induction false} SplitLastTax(sh: Sheet, last: LogicalRow, tax: string, price: string)
    requires |last.content| == 6 && !FourRowSplit(sh, last) && !ThreeRowSplit(sh, last)
    ensures SplitLast(sh, last, tax, price) == TaxSplit(last, tax, price)
  {
  }

  /** The content of one half of a split: the name column joined over `lo..hi`, figures from `data`. */
  method MergeRows(sh: Sheet, lo: int, hi: int, data: seq<string>, own: seq<string>) returns (c: seq<string>)
    requires |data| == 6 && |own| == 6
    ensures c == SplitContent(sh, lo, hi, data, own)
  {
    var names := CollectColumn(sh, 2, lo, hi);
    c := [Join(names, " "), data[1], data[2], data[3], data[4], Pick(own[5], data[5])];
  }

  /** One step of the scan: the row starting at `cur`, if it has content, and the cursor after it. */
  method ScanStep(sh: Sheet, cur: int, end: int) returns (emitted: seq<LogicalRow>, next: int)
    requires cur <= end && !SolidRow(sh, cur)
    ensures cur < next
    ensures RowsFrom(sh, cur, end) == emitted + RowsFrom(sh, next, end)
  {
    var e := FindLogicalRowEnd(sh, cur, end);
    var c := ExtractRowContent(sh, cur, e);
    emitted := if AnyContent(c) then [LogicalRow(cur, e, c)] else [];
    next := e + 1;
  }

  /** The loop of `extract_logical_rows_with_hair_borders`, before the split. */
  method ScanRows(sh: Sheet, start: int, end: int) returns (rows: seq<LogicalRow>)
    ensures rows == RowsFrom(sh, start, end)
  {
    rows := [];
    var cur := start;
    while cur <= end
      invariant rows + RowsFrom(sh, cur, end) == RowsFrom(sh, start, end)
      decreases end - cur + 1
    {
      var solid := HasSolidBorder(sh, cur);
      if solid {
        RowsFromStop(sh, cur, end);
        break;
      }
      var emitted, next := ScanStep(sh, cur, end);
      assert rows + emitted + RowsFrom(sh, next, end) == rows + RowsFrom(sh, cur, end);
      rows := rows + emitted;
      cur := next;
    }
    if cur > end {
      RowsFromStop(sh, cur, end);
    }
    assert rows + [] == rows;
  }

  /** The scan yields nothing past `end` or from a row with a solid border. */
  lemma {:induction false} RowsFromStop(sh: Sheet, cur: int, end: int)
    requires cur > end || SolidRow(sh, cur)
    ensures RowsFrom(sh, cur, end) == []
  {
  }

  /** `extract_logical_rows_with_hair_borders` */
  method ExtractLogicalRows(sh: Sheet, start: int, end: int, tax: string, price: string) returns (rows: seq<LogicalRow>)
    ensures rows == LogicalRows(sh, start, end, tax, price)
  {
    rows := ScanRows(sh, start, end);
    if |rows| == 14 {
      RowsFromSound(sh, start, end);
      ChainRowsIn(sh, rows, start, end);
      var split := SplitLastRow(sh, rows[13], tax, price);
      if split.Some? {
        rows := rows[..13] + [split.value.0, split.value.1];
      }
    }
  }
}

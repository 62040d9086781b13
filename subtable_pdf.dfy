/**
 * `subtable_pdf_extractor.py`: the sub-tables of the PDF estimate pages. The
 * page text names references such as `内7号`; a table row that shows one of
 * them, written with a space before the number, opens a sub-table whose
 * columns come from a header row within the next three rows; its items are
 * then read with a look-ahead that fills missing unit, quantity and remarks
 * from the rows below.
 */
module SubtablePdf {
  import opened Wrappers
  import opened Text
  import opened Grid
  import opened RefSearch
  import opened RefNames
  import opened Distinct
  import Numbers

  // ----------------------------------------------------------- references

  /** The cleaned references of the matches of `([一-龯々]+)\s*(\d+)\s*号` in the page text from `i` on, in order (`re.findall`). */
  function PageRefs(text: string, i: nat): seq<string>
    requires i <= |text|
    decreases |text| - i
  {
    match Search(text, i, Loose)
    case None => []
    case Some(m) => [CleanRef(text, m)] + PageRefs(text, m.end)
  }

  /** `_find_reference_numbers(text)`: the cleaned references, each once, in order of first appearance. */
  method FindReferenceNumbers(text: string) returns (refs: seq<string>)
    ensures refs == Dedup(PageRefs(text, 0))
  {
    var names := PageRefs(text, 0);
    refs := [];
    var k := 0;
    while k < |names|
      invariant k <= |names|
      invariant refs == Dedup(names[..k])
    {
      assert names[..k + 1][..k] == names[..k];
      if names[k] !in refs {
        refs := refs + [names[k]];
      }
      k := k + 1;
    }
    assert names[..k] == names;
  }

  /** A reference in the written-out form: kanji (or 々), then digits, then 号, and no whitespace. */
  predicate RefShaped(r: string) {
    |r| >= 3 && IsHan(r[0], Loose) && IsDigit(r[|r| - 2]) && r[|r| - 1] == RefMark && NoSpace(r)
  }

  lemma {:induction false} PageRefsShaped(text: string, i: nat)
    requires i <= |text|
    ensures forall k :: 0 <= k < |PageRefs(text, i)| ==> RefShaped(PageRefs(text, i)[k])
    decreases |text| - i
  {
    match Search(text, i, Loose)
    case None =>
    case Some(m) =>
      CleanRefShape(text, m, Loose);
      PageRefsShaped(text, m.end);
      var rest := PageRefs(text, m.end);
      var all := [CleanRef(text, m)] + rest;
      assert PageRefs(text, i) == all;
      forall k | 0 <= k < |all| ensures RefShaped(all[k]) {
        if k > 0 { assert all[k] == rest[k - 1]; }
      }
  }

  /**
   * The references found are written out without their whitespace, each
   * appears once, and they are exactly the cleaned references of the page
   * text's matches.
   */
  lemma {:induction false} ReferenceNumbersShape(text: string)
    ensures NoDuplicates(Dedup(PageRefs(text, 0)))
    ensures forall r :: r in Dedup(PageRefs(text, 0)) <==> r in PageRefs(text, 0)
    ensures forall r :: r in Dedup(PageRefs(text, 0)) ==> RefShaped(r)
  {
    DedupSpec(PageRefs(text, 0));
    PageRefsShaped(text, 0);
  }

  // --------------------------------------------------------- finding rows

  /** `re.match(r'([一-龯々]+)(\d+)号', ref)`: kanji, digits and 号 at the start, no gaps. */
  const Anchored := Pattern(true, false)

  /** The kanji part and the number part of a reference, when it begins with the shape of one. */
  function RefParts(reference: string): (r: Option<(string, string)>)
    ensures r.Some? ==> r.value.0 != [] && r.value.1 != []
    ensures r.Some? ==> forall i :: 0 <= i < |r.value.1| ==> IsDigit(r.value.1[i])
  {
    match MatchAt(reference, 0, Anchored)
    case None => None
    case Some(m) => Some((reference[m.start..m.hanEnd], reference[m.digitStart..m.digitEnd]))
  }

  /** `{kanji}\s+{number}\s*号` anchored at `i`: the kanji, at least one whitespace, the number, optional whitespace, 号. */
  predicate SpacedAt(s: string, i: nat, kanji: string, number: string) {
    var a := i + |kanji|;
    a <= |s| && s[i..a] == kanji
    && var b := SpaceEnd(s, a);
    b > a && b + |number| <= |s| && s[b..b + |number|] == number
    && var c := SpaceEnd(s, b + |number|);
    c < |s| && s[c] == RefMark
  }

  /** `re.search` of that pattern from `i` on. */
  predicate SpacedIn(s: string, i: nat, kanji: string, number: string)
    decreases |s| - i
  {
    i <= |s| && (SpacedAt(s, i, kanji, number) || SpacedIn(s, i + 1, kanji, number))
  }

  /** Whether `reference` counts as shown in the row text. */
  predicate ShowsRef(rowText: string, reference: string) {
    match RefParts(reference)
    case None => false
    case Some((kanji, number)) => SpacedIn(rowText, 0, kanji, number)
  }

  /** `_find_reference_in_row(row_text, reference_numbers)`: the first reference, in list order, the row shows. */
  function FindRefInRow(rowText: string, refs: seq<string>): (r: Option<string>)
    ensures r.Some? ==> r.value in refs && ShowsRef(rowText, r.value)
    ensures r.None? <==> forall k :: 0 <= k < |refs| ==> !ShowsRef(rowText, refs[k])
    decreases |refs|
  {
    if refs == [] then None
    else if ShowsRef(rowText, refs[0]) then Some(refs[0])
    else
      var r := FindRefInRow(rowText, refs[1..]);
      assert forall k :: 1 <= k < |refs| ==> refs[k] == refs[1..][k - 1];
      r
  }

  /** A match needs whitespace inside it, so a row text without whitespace shows no reference. */
  lemma {:induction false} SpacedNeedsSpace(s: string, i: nat, kanji: string, number: string)
    requires SpacedIn(s, i, kanji, number)
    ensures !NoSpace(s)
    decreases |s| - i
  {
    if SpacedAt(s, i, kanji, number) {
      var a := i + |kanji|;
      assert IsSpace(s[a]);
    } else {
      SpacedNeedsSpace(s, i + 1, kanji, number);
    }
  }

  /** `内7号` written without the space is not found: the row needs whitespace for any reference to match. */
  lemma {:induction false} UnspacedRowShowsNothing(rowText: string, refs: seq<string>)
    requires NoSpace(rowText)
    ensures FindRefInRow(rowText, refs) == None
  {
    forall k | 0 <= k < |refs| ensures !ShowsRef(rowText, refs[k]) {
      match RefParts(refs[k])
      case None =>
      case Some((kanji, number)) =>
        if SpacedIn(rowText, 0, kanji, number) {
          SpacedNeedsSpace(rowText, 0, kanji, number);
        }
    }
  }

  /** The parts of `内N号` are 内 and the digits of N. */
  lemma {:induction false} RefNameParts(n: nat)
    ensures RefParts(RefName(n)) == Some(("内", Numbers.DecimalString(n)))
  {
    var t := RefName(n);
    var d := Numbers.DecimalString(n);
    Numbers.DecimalStringAscii(n);
    assert t == "内" + d + "号";
    var m := Match(0, 1, 1, |t| - 1, |t|);
    forall i | 1 <= i < |t| - 1 ensures IsDigit(t[i]) {
      assert t[i] == d[i - 1];
    }
    assert Shaped(t, m, Anchored);
    MatchIsUnique(t, m, Anchored);
    assert t[0..1] == "内";
    assert t[1..|t| - 1] == d;
  }

  /** `内 N号`, with any whitespace run between 内 and N, inside any row text, shows the reference `内N号`. */
  lemma {:induction false} SpacedRefShown(x: string, gap: string, n: nat, y: string)
    requires gap != [] && forall i :: 0 <= i < |gap| ==> IsSpace(gap[i])
    ensures ShowsRef(x + "内" + gap + Numbers.DecimalString(n) + "号" + y, RefName(n))
  {
    var d := Numbers.DecimalString(n);
    RefNameParts(n);
    Numbers.DecimalStringAscii(n);
    assert IsAsciiDigit(d[0]);
    SpacedRefAt(x, gap, d, y);
    SpacedFrom(x + "内" + gap + d + "号" + y, 0, |x|, "内", d);
  }

  /** `内`, a whitespace run, a number not starting with whitespace, then `号`: a match at the `内`. */
  lemma {:induction false} SpacedRefAt(x: string, gap: string, d: string, y: string)
    requires gap != [] && forall i :: 0 <= i < |gap| ==> IsSpace(gap[i])
    requires d != [] && !IsSpace(d[0])
    ensures SpacedAt(x + "内" + gap + d + "号" + y, |x|, "内", d)
  {
    var s := x + "内" + gap + d + "号" + y;
    var a := |x| + 1;
    var b := a + |gap|;
    assert s[|x|..a] == "内";
    forall k | a <= k < b ensures IsSpace(s[k]) { assert s[k] == gap[k - a]; }
    assert !IsSpace(s[b]) by { assert s[b] == d[0]; }
    SpaceEndAt(s, a, b);
    assert s[b..b + |d|] == d;
    assert s[b + |d|] == RefMark;
    SpaceEndAt(s, b + |d|, b + |d|);
  }

  lemma {:induction false} SpacedFrom(s: string, i: nat, j: nat, kanji: string, number: string)
    requires i <= j <= |s| && SpacedAt(s, j, kanji, number)
    ensures SpacedIn(s, i, kanji, number)
    decreases j - i
  {
    if i < j { SpacedFrom(s, i + 1, j, kanji, number); }
  }

  // ----------------------------------------------------------- total rows

  /** `_is_total_row(row)`: 合計 occurs in the space-joined row. */
  predicate IsTotalRow(row: Row) {
    Contains(RowText(row), "合計")
  }

  /** The joining space cannot be part of 合計, so a row is a total row exactly when one of its cells contains 合計. */
  lemma {:induction false} TotalRowCell(row: Row)
    ensures IsTotalRow(row) <==> exists i :: 0 <= i < |row| && Contains(OrEmpty(row[i]), "合計")
  {
    var parts := CellStrings(row);
    JoinContains(parts, ' ', "合計");
    assert " " == [' '];
    if exists i :: 0 <= i < |row| && Contains(OrEmpty(row[i]), "合計") {
      var i :| 0 <= i < |row| && Contains(OrEmpty(row[i]), "合計");
      assert parts[i] == OrEmpty(row[i]);
    }
  }

  // --------------------------------------------------------- column headers

  /** The four columns a sub-table needs, in the order the patterns are tried. */
  datatype Role = Name | Unit | Quantity | Remarks

  const Roles: seq<Role> := [Name, Unit, Quantity, Remarks]

  /** The header spellings accepted for each role. */
  function Patterns(role: Role): (ps: seq<string>)
    ensures ps != []
  {
    match role
    case Name => ["名称・規格", "名称規格", "名\U{3000}称\U{3000}・\U{3000}規\U{3000}格", "名称\U{3000}規格",
                  "名称・規格\U{3000}格", "名称・規格格", "名称", "規格", "項目", "品名"]
    case Unit => ["単位", "単\U{3000}位", "単 位", "たんい", "たんい"]
    case Quantity => ["数量", "数\U{3000}量", "数 量", "すうりょう"]
    case Remarks => ["摘要", "摘\U{3000}要", "摘 要", "備考", "てきよう"]
  }

  /** `re.sub(r'[\s　・]', '', text)` */
  function Clean(text: string): (r: string)
    ensures NoSpace(r) && '・' !in r
  {
    Filter(text, c => !IsSpace(c) && c != '・')
  }

  /** One pattern against a stripped cell: equal, or one cleaned text inside the other. */
  predicate PatternHit(pattern: string, text: string) {
    pattern == text || Contains(Clean(text), Clean(pattern)) || Contains(Clean(pattern), Clean(text))
  }

  predicate AnyPattern(patterns: seq<string>, text: string)
    decreases |patterns|
  {
    patterns != [] && (PatternHit(patterns[0], text) || AnyPattern(patterns[1..], text))
  }

  /** The role a stripped cell text takes: the first, in pattern order, that is still free and one of whose patterns hits. */
  function CellRole(m: map<Role, nat>, text: string, roles: seq<Role>): (r: Option<Role>)
    ensures r.Some? ==> r.value in roles && r.value !in m && AnyPattern(Patterns(r.value), text)
    decreases |roles|
  {
    if roles == [] then None
    else if roles[0] !in m && AnyPattern(Patterns(roles[0]), text) then Some(roles[0])
    else CellRole(m, text, roles[1..])
  }

  /** The role map after the cells from column `c` on have been read. */
  function HeadersFrom(row: Row, c: nat, m: map<Role, nat>): map<Role, nat>
    decreases |row| - c
  {
    if c >= |row| then m else HeadersFrom(row, c + 1, HeadersAfter(row, c, m))
  }

  /** The map after reading column `c`: a filled cell takes its role, if any. */
  function HeadersAfter(row: Row, c: nat, m: map<Role, nat>): map<Role, nat>
    requires c < |row|
  {
    if !Truthy(row[c]) then m
    else
      match CellRole(m, Strip(row[c].value), Roles)
      case None => m
      case Some(role) => m[role := c]
  }

  /** `_find_column_headers(row)`: the role map, when at least two roles were found. */
  function ColumnHeaders(row: Row): (r: Option<map<Role, nat>>)
    ensures r.Some? ==> |r.value| >= 2
  {
    var m := HeadersFrom(row, 0, map[]);
    if |m| >= 2 then Some(m) else None
  }

  /** `_find_column_headers`, as the loop over the row's cells. */
  method FindColumnHeaders(row: Row) returns (found: Option<map<Role, nat>>)
    ensures found == ColumnHeaders(row)
  {
    var m: map<Role, nat> := map[];
    var c := 0;
    while c < |row|
      invariant c <= |row|
      invariant HeadersFrom(row, c, m) == HeadersFrom(row, 0, map[])
    {
      if Truthy(row[c]) {
        var role := CellRole(m, Strip(row[c].value), Roles);
        if role.Some? {
          m := m[role.value := c];
        }
      }
      c := c + 1;
    }
    if |m| >= 2 {
      found := Some(m);
    } else {
      found := None;
    }
  }

  /** Every mapped column is a filled cell one of whose role's patterns hits, and no column has two roles. */
  predicate HeadersSound(row: Row, m: map<Role, nat>, c: nat) {
    (forall r :: r in m ==> m[r] < c && m[r] < |row| && Truthy(row[m[r]]) && AnyPattern(Patterns(r), Strip(row[m[r]].value)))
    && (forall r1, r2 :: r1 in m && r2 in m && r1 != r2 ==> m[r1] != m[r2])
  }

  lemma {:induction false} HeadersStep(row: Row, c: nat, m: map<Role, nat>, role: Role)
    requires c < |row| && HeadersSound(row, m, c) && role !in m
    requires Truthy(row[c]) && AnyPattern(Patterns(role), Strip(row[c].value))
    ensures HeadersSound(row, m[role := c], c + 1)
  {
    var m' := m[role := c];
    forall r | r in m'
      ensures m'[r] < c + 1 && m'[r] < |row| && Truthy(row[m'[r]]) && AnyPattern(Patterns(r), Strip(row[m'[r]].value))
    {
      if r != role {
        assert m'[r] == m[r];
      }
    }
    forall r1, r2 | r1 in m' && r2 in m' && r1 != r2
      ensures m'[r1] != m'[r2]
    {
      if r1 != role && r2 != role {
        assert m'[r1] == m[r1] && m'[r2] == m[r2];
      } else if r1 == role {
        assert m'[r2] == m[r2] < c;
      } else {
        assert m'[r1] == m[r1] < c;
      }
    }
  }

  lemma {:induction false} HeadersWiden(row: Row, c: nat, m: map<Role, nat>)
    requires HeadersSound(row, m, c)
    ensures HeadersSound(row, m, c + 1)
  {
  }

  lemma {:induction false} HeadersAfterSound(row: Row, c: nat, m: map<Role, nat>)
    requires c < |row| && HeadersSound(row, m, c)
    ensures HeadersSound(row, HeadersAfter(row, c, m), c + 1)
  {
    if Truthy(row[c]) && CellRole(m, Strip(row[c].value), Roles).Some? {
      HeadersStep(row, c, m, CellRole(m, Strip(row[c].value), Roles).value);
    } else {
      HeadersWiden(row, c, m);
    }
  }

  lemma {:induction false} HeadersFromSound(row: Row, c: nat, m: map<Role, nat>)
    requires c <= |row| && HeadersSound(row, m, c)
    ensures HeadersSound(row, HeadersFrom(row, c, m), |row|)
    decreases |row| - c
  {
    if c < |row| {
      HeadersAfterSound(row, c, m);
      HeadersFromSound(row, c + 1, HeadersAfter(row, c, m));
    }
  }

  /** A header map names each role at most once, gives each column at most one role, and each column it names is a header cell of that role. */
  lemma {:induction false} ColumnHeadersSound(row: Row)
    requires ColumnHeaders(row).Some?
    ensures HeadersSound(row, ColumnHeaders(row).value, |row|)
  {
    HeadersFromSound(row, 0, map[]);
  }

  /** The first role of `roles` not yet in the map. */
  function FirstFree(m: map<Role, nat>, roles: seq<Role>): Option<Role>
    decreases |roles|
  {
    if roles == [] then None
    else if roles[0] !in m then Some(roles[0])
    else FirstFree(m, roles[1..])
  }

  lemma {:induction false} BlankHitsAll(patterns: seq<string>, text: string)
    requires patterns != [] && Clean(text) == []
    ensures AnyPattern(patterns, text)
  {
    ContainsEmpty(Clean(patterns[0]));
  }

  /** A cell that cleans to nothing (a lone ・, say) hits every pattern, so it takes the first free role. */
  lemma {:induction false} CleanBlankTakesFirstFree(m: map<Role, nat>, text: string, roles: seq<Role>)
    requires Clean(text) == []
    ensures CellRole(m, text, roles) == FirstFree(m, roles)
    decreases |roles|
  {
    if roles != [] {
      BlankHitsAll(Patterns(roles[0]), text);
      CleanBlankTakesFirstFree(m, text, roles[1..]);
    }
  }

  /** Two cells of a lone ・ make a header row: they take the name and unit roles. */
  lemma HeaderOfDots()
    ensures ColumnHeaders([Some("・"), Some("・")]) == Some(map[Name := 0, Unit := 1])
  {
    assert Clean("・") == [];
    assert Strip("・") == "・";
    var row: Row := [Some("・"), Some("・")];
    CleanBlankTakesFirstFree(map[], "・", Roles);
    CleanBlankTakesFirstFree(map[Name := 0], "・", Roles);
    assert HeadersFrom(row, 0, map[]) == HeadersFrom(row, 1, map[Name := 0]);
    assert HeadersFrom(row, 1, map[Name := 0]) == HeadersFrom(row, 2, map[Name := 0, Unit := 1]);
  }

  // ------------------------------------------------------- multi-row items

  /** One logical row of a sub-table: the reference and the four columns' texts. */
  datatype PdfRow = PdfRow(reference: string, name: string, unit: string, quantity: string, remarks: string)

  /** The header labels a data cell may not hold. */
  const Labels: seq<string> := ["名称・規格", "単位", "数量", "摘要"]

  /** `str(row[col]).strip()` when the column exists and the cell is truthy, else "". */
  function CellAt(row: Row, col: nat): string {
    if col < |row| && Truthy(row[col]) then Strip(row[col].value) else []
  }

  /** A table together with its cells read as `CellAt` gives them. */
  datatype PdfSheet = PdfSheet(rows: Table, text: (nat, nat) -> string)

  function SheetOf(table: Table): PdfSheet {
    PdfSheet(table, (r: nat, c: nat) => if r < |table| then CellAt(table[r], c) else [])
  }

  ghost predicate TextsRead(sh: PdfSheet) {
    forall r: nat, c: nat :: r < |sh.rows| ==> sh.text(r, c) == CellAt(sh.rows[r], c)
  }

  lemma {:induction false} SheetOfTextsRead(table: Table)
    ensures TextsRead(SheetOf(table))
  {
  }

  /** A cell text that may fill a field: non-empty and not a header label. */
  predicate Usable(v: string) {
    v != [] && !Listed(v, Labels)
  }

  /** `column_mapping.get('名称・規格', 0)` */
  function NameCol(m: map<Role, nat>): nat {
    if Name in m then m[Name] else 0
  }

  /** The item name row `r` carries, or "". */
  function ItemName(sh: PdfSheet, r: nat, m: map<Role, nat>): (v: string)
    ensures v == [] || Usable(v)
  {
    var v := sh.text(r, NameCol(m));
    if Usable(v) then v else []
  }

  function Field(d: PdfRow, role: Role): string {
    match role
    case Name => d.name
    case Unit => d.unit
    case Quantity => d.quantity
    case Remarks => d.remarks
  }

  function SetField(d: PdfRow, role: Role, v: string): PdfRow {
    match role
    case Name => d.(name := v)
    case Unit => d.(unit := v)
    case Quantity => d.(quantity := v)
    case Remarks => d.(remarks := v)
  }

  /** The value a mapped column of the item's own row gives a field, or "". */
  function SameRowField(sh: PdfSheet, r: nat, m: map<Role, nat>, role: Role): string {
    if role in m && Usable(sh.text(r, m[role])) then sh.text(r, m[role]) else []
  }

  /** The row an item name opens, with what its own row holds in the other mapped columns. */
  function OpenItem(sh: PdfSheet, r: nat, m: map<Role, nat>, reference: string, name: string): PdfRow {
    PdfRow(reference, name, SameRowField(sh, r, m, Unit), SameRowField(sh, r, m, Quantity), SameRowField(sh, r, m, Remarks))
  }

  /** A look-ahead row whose first cell is 合計 or a different item name ends the look-ahead. */
  predicate StopsLookAhead(sh: PdfSheet, r: nat, name: string) {
    var t := sh.text(r, 0);
    Contains(t, "合計") || (|t| > 2 && t != name && !Listed(t, [""] + Labels))
  }

  /** An item together with the indices of the rows it was read from (`item_processed_indices`). */
  datatype Item = Item(row: PdfRow, used: seq<nat>)

  /** `e` keeps the reference and the name of `d`, and every field `d` had filled. */
  predicate Keeps(d: PdfRow, e: PdfRow) {
    e.reference == d.reference && e.name == d.name
    && (d.unit != [] ==> e.unit == d.unit)
    && (d.quantity != [] ==> e.quantity == d.quantity)
    && (d.remarks != [] ==> e.remarks == d.remarks)
  }

  /** The used rows are the ones before, then row indices in `[lo, hi]` of the table. */
  predicate Extends(before: seq<nat>, after: seq<nat>, lo: nat, hi: nat, n: nat) {
    |before| <= |after|
    && (forall k :: 0 <= k < |before| ==> after[k] == before[k])
    && (forall k :: |before| <= k < |after| ==> lo <= after[k] <= hi && after[k] < n)
  }

  lemma {:induction false} KeepsTrans(a: PdfRow, b: PdfRow, c: PdfRow)
    requires Keeps(a, b) && Keeps(b, c)
    ensures Keeps(a, c)
  {
  }

  lemma {:induction false} ExtendsTrans(a: seq<nat>, b: seq<nat>, c: seq<nat>, lo: nat, hi: nat, n: nat)
    requires Extends(a, b, lo, hi, n) && Extends(b, c, lo, hi, n)
    ensures Extends(a, c, lo, hi, n)
  {
    forall k | |a| <= k < |c| ensures lo <= c[k] <= hi && c[k] < n {
      if k < |b| { assert c[k] == b[k]; }
    }
  }

  lemma {:induction false} ExtendsWiden(a: seq<nat>, b: seq<nat>, j: nat, lo: nat, hi: nat, n: nat)
    requires Extends(a, b, j, j, n) && lo <= j <= hi
    ensures Extends(a, b, lo, hi, n)
  {
  }

  /** Look-ahead row `j` fills one still-empty field from a usable mapped cell, and is then counted as used. */
  function FillOne(sh: PdfSheet, j: nat, m: map<Role, nat>, it: Item, role: Role): (r: Item)
    requires role != Name && j < |sh.rows|
    ensures Keeps(it.row, r.row)
    ensures Extends(it.used, r.used, j, j, |sh.rows|)
  {
    if role in m && Field(it.row, role) == [] && Usable(sh.text(j, m[role]))
    then Item(SetField(it.row, role, sh.text(j, m[role])), it.used + [j])
    else it
  }

  /** The fields a look-ahead row may fill, in the order it is tried against them. */
  const FillOrder: seq<Role> := [Unit, Quantity, Remarks]

  /** Look-ahead row `j` against the given fields, in order: it only fills empty fields, and only counts row `j` as used. */
  function FillFrom(sh: PdfSheet, j: nat, m: map<Role, nat>, it: Item, roles: seq<Role>): (r: Item)
    requires Name !in roles && j < |sh.rows|
    ensures Keeps(it.row, r.row)
    ensures Extends(it.used, r.used, j, j, |sh.rows|)
    decreases |roles|
  {
    if roles == [] then it
    else
      var a := FillOne(sh, j, m, it, roles[0]);
      var r := FillFrom(sh, j, m, a, roles[1..]);
      KeepsTrans(it.row, a.row, r.row);
      ExtendsTrans(it.used, a.used, r.used, j, j, |sh.rows|);
      r
  }

  /**
   * The look-ahead over the rows `start + la` for `la` from the given one up
   * to 4: it only fills fields that are still empty, and counts only rows 1
   * to 4 below the item as used.
   */
  function LookAhead(sh: PdfSheet, start: nat, la: nat, m: map<Role, nat>, it: Item): (r: Item)
    requires 1 <= la
    ensures Keeps(it.row, r.row)
    ensures Extends(it.used, r.used, start + 1, start + 4, |sh.rows|)
    decreases 5 - la
  {
    if la > 4 || start + la >= |sh.rows| then it
    else if StopsLookAhead(sh, start + la, it.row.name) then it
    else
      var next := FillFrom(sh, start + la, m, it, FillOrder);
      var r := LookAhead(sh, start, la + 1, m, next);
      KeepsTrans(it.row, next.row, r.row);
      ExtendsWiden(it.used, next.used, start + la, start + 1, start + 4, |sh.rows|);
      ExtendsTrans(it.used, next.used, r.used, start + 1, start + 4, |sh.rows|);
      r
  }

  /** The largest index of a non-empty list. */
  function MaxOf(xs: seq<nat>): (x: nat)
    requires xs != []
    ensures x in xs && forall k :: 0 <= k < |xs| ==> xs[k] <= x
    decreases |xs|
  {
    if |xs| == 1 then xs[0] else var y := MaxOf(xs[1..]); if xs[0] >= y then xs[0] else y
  }

  /** Whether row `r`'s first cell mentions 合計 (`'合計' in str(row[0])`). */
  predicate FirstCellTotal(sh: PdfSheet, r: nat) {
    Contains(sh.text(r, 0), "合計")
  }

  /**
   * The item a row with a name opens, after its own row and the look-ahead:
   * it keeps what its own row gave it, and was read from its own row and
   * from rows 1 to 4 below it.
   */
  function ReadItem(sh: PdfSheet, i: nat, m: map<Role, nat>, reference: string): (it: Item)
    ensures Keeps(OpenItem(sh, i, m, reference, ItemName(sh, i, m)), it.row)
    ensures Extends([i], it.used, i + 1, i + 4, |sh.rows|)
  {
    LookAhead(sh, i, 1, m, Item(OpenItem(sh, i, m, reference, ItemName(sh, i, m)), [i]))
  }

  function Max(a: nat, b: nat): nat { if a >= b then a else b }

  /** `_extract_multirow_data` from row `i` on: the items, in order; the cursor moves past the rows an item used. */
  function Items(sh: PdfSheet, i: nat, m: map<Role, nat>, reference: string): seq<Item>
    decreases |sh.rows| - i
  {
    if i >= |sh.rows| || FirstCellTotal(sh, i) then []
    else if ItemName(sh, i, m) == [] then Items(sh, i + 1, m, reference)
    else
      [ReadItem(sh, i, m, reference)] + Items(sh, After(sh, i, m, reference), m, reference)
  }

  function RowsOf(items: seq<Item>): (rows: seq<PdfRow>)
    ensures |rows| == |items|
    ensures forall k :: 0 <= k < |items| ==> rows[k] == items[k].row
  {
    seq(|items|, k requires 0 <= k < |items| => items[k].row)
  }

  /** `processed_indices`: the rows each item used, item after item. */
  function UsedOf(items: seq<Item>): seq<nat>
    decreases |items|
  {
    if items == [] then [] else UsedOf(items[..|items| - 1]) + items[|items| - 1].used
  }

  /**
   * An item read from row `lo` on: it starts at a row whose name cell holds a
   * usable name, carries the sub-table's reference, and keeps every field
   * its own row filled.
   */
  predicate ItemGood(sh: PdfSheet, m: map<Role, nat>, reference: string, it: Item, lo: nat) {
    it.used != [] && lo <= it.used[0] < |sh.rows|
    && it.row.name == ItemName(sh, it.used[0], m) && Usable(it.row.name)
    && Keeps(OpenItem(sh, it.used[0], m, reference, it.row.name), it.row)
  }

  predicate AllGood(sh: PdfSheet, m: map<Role, nat>, reference: string, items: seq<Item>, lo: nat) {
    forall k :: 0 <= k < |items| ==> ItemGood(sh, m, reference, items[k], lo)
  }

  /** Item `a` used only rows before the one item `b` starts at. */
  predicate Before(a: Item, b: Item) {
    a.used != [] && b.used != [] && MaxOf(a.used) < b.used[0]
  }

  predicate InOrder(items: seq<Item>) {
    forall k :: 1 <= k < |items| ==> Before(items[k - 1], items[k])
  }

  /** Where reading goes on after the item a named row opens. */
  function After(sh: PdfSheet, i: nat, m: map<Role, nat>, reference: string): nat
    requires i < |sh.rows|
  {
    Max(i + 1, MaxOf(ReadItem(sh, i, m, reference).used) + 1)
  }

  lemma {:induction false} ItemsStep(sh: PdfSheet, i: nat, m: map<Role, nat>, reference: string)
    requires i < |sh.rows| && !FirstCellTotal(sh, i) && ItemName(sh, i, m) != []
    ensures Items(sh, i, m, reference) == [ReadItem(sh, i, m, reference)] + Items(sh, After(sh, i, m, reference), m, reference)
  {
  }

  lemma {:induction false} ReadItemGood(sh: PdfSheet, i: nat, m: map<Role, nat>, reference: string)
    requires i < |sh.rows| && ItemName(sh, i, m) != []
    ensures ItemGood(sh, m, reference, ReadItem(sh, i, m, reference), i)
    ensures After(sh, i, m, reference) > i
  {
  }

  lemma {:induction false} AllGoodCons(sh: PdfSheet, m: map<Role, nat>, reference: string, it: Item, rest: seq<Item>, lo: nat, j: nat)
    requires ItemGood(sh, m, reference, it, lo) && AllGood(sh, m, reference, rest, j) && lo <= j
    ensures AllGood(sh, m, reference, [it] + rest, lo)
  {
    var all := [it] + rest;
    forall k | 0 <= k < |all| ensures ItemGood(sh, m, reference, all[k], lo) {
      if k > 0 { assert all[k] == rest[k - 1]; }
    }
  }

  lemma {:induction false} AllGoodWiden(sh: PdfSheet, m: map<Role, nat>, reference: string, items: seq<Item>, lo: nat, j: nat)
    requires AllGood(sh, m, reference, items, j) && lo <= j
    ensures AllGood(sh, m, reference, items, lo)
  {
  }

  lemma {:induction false} InOrderCons(it: Item, rest: seq<Item>, lo: nat)
    requires InOrder(rest) && it.used != [] && MaxOf(it.used) < lo
    requires forall k :: 0 <= k < |rest| ==> rest[k].used != [] && lo <= rest[k].used[0]
    ensures InOrder([it] + rest)
  {
    var all := [it] + rest;
    forall k | 1 <= k < |all| ensures Before(all[k - 1], all[k]) {
      assert all[k] == rest[k - 1];
      if k > 1 { assert all[k - 1] == rest[k - 2]; }
    }
  }

  /** Every item starts at a row holding a usable name, and keeps what that row gave it. */
  lemma {:induction false} ItemsSound(sh: PdfSheet, i: nat, m: map<Role, nat>, reference: string)
    ensures AllGood(sh, m, reference, Items(sh, i, m, reference), i)
    decreases |sh.rows| - i
  {
    if !(i >= |sh.rows| || FirstCellTotal(sh, i)) {
      if ItemName(sh, i, m) == [] {
        ItemsSound(sh, i + 1, m, reference);
        AllGoodWiden(sh, m, reference, Items(sh, i + 1, m, reference), i, i + 1);
      } else {
        ReadItemGood(sh, i, m, reference);
        ItemsStep(sh, i, m, reference);
        var j := After(sh, i, m, reference);
        ItemsSound(sh, j, m, reference);
        AllGoodCons(sh, m, reference, ReadItem(sh, i, m, reference), Items(sh, j, m, reference), i, j);
      }
    }
  }

  /** Each item starts after every row the item before it used: the cursor only moves forward. */
  lemma {:induction false} ItemsOrdered(sh: PdfSheet, i: nat, m: map<Role, nat>, reference: string)
    ensures InOrder(Items(sh, i, m, reference))
    decreases |sh.rows| - i
  {
    if !(i >= |sh.rows| || FirstCellTotal(sh, i)) {
      if ItemName(sh, i, m) == [] {
        ItemsOrdered(sh, i + 1, m, reference);
      } else {
        ReadItemGood(sh, i, m, reference);
        ItemsStep(sh, i, m, reference);
        var j := After(sh, i, m, reference);
        var it, rest := ReadItem(sh, i, m, reference), Items(sh, j, m, reference);
        ItemsOrdered(sh, j, m, reference);
        ItemsStartFrom(sh, j, m, reference);
        InOrderCons(it, rest, j);
        assert Items(sh, i, m, reference) == [it] + rest;
      }
    }
  }

  /** Every item read from row `j` on starts at row `j` or later. */
  lemma {:induction false} ItemsStartFrom(sh: PdfSheet, j: nat, m: map<Role, nat>, reference: string)
    ensures var rest := Items(sh, j, m, reference);
      forall k :: 0 <= k < |rest| ==> rest[k].used != [] && j <= rest[k].used[0]
  {
    ItemsSound(sh, j, m, reference);
    var rest := Items(sh, j, m, reference);
    forall k | 0 <= k < |rest| ensures rest[k].used != [] && j <= rest[k].used[0] {
      assert ItemGood(sh, m, reference, rest[k], j);
    }
  }

  /** Reading stops at a row whose first cell mentions 合計: nothing from it on is read. */
  lemma {:induction false} ItemsStopAtTotal(sh: PdfSheet, i: nat, m: map<Role, nat>, reference: string)
    requires i < |sh.rows| && FirstCellTotal(sh, i)
    ensures Items(sh, i, m, reference) == []
  {
  }

  /** The look-ahead loop for the item row `i` opens: the item `ReadItem` describes. */
  method ReadItemAt(sh: PdfSheet, i: nat, m: map<Role, nat>, reference: string) returns (it: Item)
    ensures it == ReadItem(sh, i, m, reference)
  {
    it := Item(OpenItem(sh, i, m, reference, ItemName(sh, i, m)), [i]);
    var la := 1;
    while la <= 4 && i + la < |sh.rows| && !StopsLookAhead(sh, i + la, it.row.name)
      invariant 1 <= la <= 5
      invariant LookAhead(sh, i, la, m, it) == ReadItem(sh, i, m, reference)
      decreases 5 - la
    {
      it := FillFrom(sh, i + la, m, it, FillOrder);
      la := la + 1;
    }
  }

  lemma {:induction false} SnocOf(done: seq<Item>, it: Item)
    ensures RowsOf(done + [it]) == RowsOf(done) + [it.row]
    ensures UsedOf(done + [it]) == UsedOf(done) + it.used
  {
    assert (done + [it])[..|done|] == done;
  }

  lemma {:induction false} ItemsSkip(sh: PdfSheet, i: nat, m: map<Role, nat>, reference: string, done: seq<Item>, all: seq<Item>)
    requires i < |sh.rows| && !FirstCellTotal(sh, i) && ItemName(sh, i, m) == []
    requires done + Items(sh, i, m, reference) == all
    ensures done + Items(sh, i + 1, m, reference) == all
  {
  }

  lemma {:induction false} ItemsTake(sh: PdfSheet, i: nat, m: map<Role, nat>, reference: string, done: seq<Item>, all: seq<Item>)
    requires i < |sh.rows| && !FirstCellTotal(sh, i) && ItemName(sh, i, m) != []
    requires done + Items(sh, i, m, reference) == all
    ensures (done + [ReadItem(sh, i, m, reference)]) + Items(sh, After(sh, i, m, reference), m, reference) == all
  {
    ItemsStep(sh, i, m, reference);
    var rest := Items(sh, After(sh, i, m, reference), m, reference);
    assert done + ([ReadItem(sh, i, m, reference)] + rest) == (done + [ReadItem(sh, i, m, reference)]) + rest;
  }

  /**
   * One step of the cursor loop at row `current`: the reading stops at a
   * 合計 row, skips a row without an item name, or reads the item the row
   * opens and moves past the rows it used.
   */
  method StepAt(sh: PdfSheet, current: nat, m: map<Role, nat>, reference: string, ghost done: seq<Item>, ghost all: seq<Item>)
    returns (stop: bool, taken: seq<Item>, next: nat)
    requires current < |sh.rows| && done + Items(sh, current, m, reference) == all
    ensures stop ==> done == all
    ensures !stop ==> next > current && |taken| <= 1 && (done + taken) + Items(sh, next, m, reference) == all
  {
    if FirstCellTotal(sh, current) {
      ItemsStopAtTotal(sh, current, m, reference);
      assert done + [] == done;
      return true, [], current;
    }
    var name := ItemName(sh, current, m);
    if name != [] {
      var it := ReadItemAt(sh, current, m, reference);
      ItemsTake(sh, current, m, reference, done, all);
      ReadItemGood(sh, current, m, reference);
      next := Max(current + 1, MaxOf(it.used) + 1);
      assert next == After(sh, current, m, reference);
      return false, [it], next;
    } else {
      ItemsSkip(sh, current, m, reference, done, all);
      assert done + [] == done;
      return false, [], current + 1;
    }
  }

  /**
   * `_extract_multirow_data(table, start_row_idx, column_mapping,
   * reference_number)`: the logical rows read from `start` on, and the
   * indices of the rows they were read from.
   */
  method ExtractMultirowData(sh: PdfSheet, start: nat, m: map<Role, nat>, reference: string)
    returns (rows: seq<PdfRow>, processed: seq<nat>)
    ensures rows == RowsOf(Items(sh, start, m, reference))
    ensures processed == UsedOf(Items(sh, start, m, reference))
  {
    rows, processed := [], [];
    ghost var done: seq<Item> := [];
    ghost var all := Items(sh, start, m, reference);
    var current := start;
    while current < |sh.rows|
      invariant done + Items(sh, current, m, reference) == all
      invariant rows == RowsOf(done) && processed == UsedOf(done)
      decreases |sh.rows| - current
    {
      var stop, taken, next := StepAt(sh, current, m, reference, done, all);
      if stop {
        break;
      }
      if taken != [] {
        SnocOf(done, taken[0]);
        assert taken == [taken[0]];
        rows := rows + [taken[0].row];
        processed := processed + taken[0].used;
      } else {
        assert done + [] == done;
      }
      done := done + taken;
      current := next;
    }
    assert done + [] == done;
  }
}

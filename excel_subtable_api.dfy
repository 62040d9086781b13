/**
 * `excel_subtable_api.py`: the sub-tables of every sheet of a workbook but the
 * first, with per-sheet and overall counts. Opening the workbook and reading a
 * sheet are I/O: the workbook is given as its sheet names or the message of the
 * exception opening it raised, and the extractor as a function from a sheet name
 * to what `extract_subtables_from_excel` returns for it or the error it raises.
 */
module ExcelSubtableApi {
  import opened Wrappers
  import opened Text
  import RefNames
  import ExcelSubtables

  type Subtable = ExcelSubtables.Subtable

  /** What opening the workbook gives: its sheet names in order, or the message of the exception raised. */
  datatype Workbook = Opened(sheetNames: seq<string>) | Unreadable(error: string)

  /** What extracting one sheet gives: its sub-tables, or the message of the exception raised. */
  datatype Outcome = Extracted(subtables: seq<Subtable>) | Failed(error: string)

  // --------------------------------------------------------- reference patterns

  /**
   * The four prefixes the source tests, exactly as written there: the UTF-8
   * bytes of 内, 単, 代 and 施 read back as Windows-1252 text.
   */
  const UchiPrefix: string := "\U{E5}\U{2020}\U{2026}"
  const TanPrefix: string := "\U{E5}\U{2DC}"
  const DaiPrefix: string := "\U{E4}\U{BB}\U{A3}"
  const SePrefix: string := "\U{E6}\U{2013}\U{BD}"

  datatype Pattern = Uchi | Tan | Dai | Se | Other

  /** The pattern a reference number is counted under. */
  function PatternOf(reference: string): Pattern {
    if StartsWith(reference, UchiPrefix) then Uchi
    else if StartsWith(reference, TanPrefix) then Tan
    else if StartsWith(reference, DaiPrefix) then Dai
    else if StartsWith(reference, SePrefix) then Se
    else Other
  }

  /** A reference that does not begin with one of the three Latin-1 letters of the prefixes is counted as `Other`. */
  lemma {:induction false} PlainReferenceIsOther(reference: string)
    requires reference == [] || !('\U{E4}' <= reference[0] <= '\U{E6}')
    ensures PatternOf(reference) == Other
  {
    if reference != [] {
      assert !StartsWith(reference, UchiPrefix) by { assert UchiPrefix[0] == '\U{E5}'; }
      assert !StartsWith(reference, TanPrefix) by { assert TanPrefix[0] == '\U{E5}'; }
      assert !StartsWith(reference, DaiPrefix) by { assert DaiPrefix[0] == '\U{E4}'; }
      assert !StartsWith(reference, SePrefix) by { assert SePrefix[0] == '\U{E6}'; }
    }
  }

  /** So every real reference `内N号` the extractor finds lands in `Other`. */
  lemma {:induction false} RefNameIsOther(n: nat)
    ensures PatternOf(RefNames.RefName(n)) == Other
  {
    PlainReferenceIsOther(RefNames.RefName(n));
  }

  /** A `reference_patterns` dict: how many references fell under each pattern (an absent key is a zero count). */
  datatype PatternCounts = PatternCounts(uchi: nat, tan: nat, dai: nat, se: nat, other: nat) {
    function Total(): nat {
      uchi + tan + dai + se + other
    }

    /** `counts[p] = counts.get(p, 0) + 1` */
    function Count(p: Pattern): (r: PatternCounts)
      ensures r.Total() == Total() + 1
    {
      match p
      case Uchi => this.(uchi := uchi + 1)
      case Tan => this.(tan := tan + 1)
      case Dai => this.(dai := dai + 1)
      case Se => this.(se := se + 1)
      case Other => this.(other := other + 1)
    }

    function Plus(that: PatternCounts): (r: PatternCounts)
      ensures r.Total() == Total() + that.Total()
    {
      PatternCounts(uchi + that.uchi, tan + that.tan, dai + that.dai, se + that.se, other + that.other)
    }
  }

  const NoPatterns := PatternCounts(0, 0, 0, 0, 0)

  /** `sheet_patterns`: the pattern counts of a sheet's sub-tables, counted from the first. */
  function SheetPatterns(subtables: seq<Subtable>): PatternCounts
    decreases |subtables|
  {
    if subtables == [] then NoPatterns
    else SheetPatterns(subtables[..|subtables| - 1]).Count(PatternOf(subtables[|subtables| - 1].reference))
  }

  /** Each sub-table is counted under exactly one pattern, so the per-sheet counts add up to the number of sub-tables. */
  lemma {:induction false} SheetPatternsTotal(subtables: seq<Subtable>)
    ensures SheetPatterns(subtables).Total() == |subtables|
    decreases |subtables|
  {
    if subtables != [] {
      SheetPatternsTotal(subtables[..|subtables| - 1]);
    }
  }

  /** Real references only: a sheet whose references all read `内N号` has every sub-table under `Other`. */
  lemma {:induction false} RefNamesAllOther(subtables: seq<Subtable>)
    requires forall k :: 0 <= k < |subtables| ==> exists n: nat :: subtables[k].reference == RefNames.RefName(n)
    ensures SheetPatterns(subtables) == NoPatterns.(other := |subtables|)
    decreases |subtables|
  {
    if subtables != [] {
      var last := subtables[|subtables| - 1];
      RefNamesAllOther(subtables[..|subtables| - 1]);
      var n: nat :| last.reference == RefNames.RefName(n);
      RefNameIsOther(n);
    }
  }

  // ------------------------------------------------------------ sheet results

  /** A sub-table with the sheet name and 1-based sheet index the loop writes into it. */
  datatype PlacedSubtable = PlacedSubtable(subtable: Subtable, sheetIndex: nat)

  function Placed(subtables: seq<Subtable>, name: string, index: nat): (r: seq<PlacedSubtable>)
    ensures |r| == |subtables|
    ensures forall k :: 0 <= k < |r| ==> r[k] == PlacedSubtable(subtables[k].(sheet := name), index)
  {
    seq(|subtables|, k requires 0 <= k < |subtables| => PlacedSubtable(subtables[k].(sheet := name), index))
  }

  /** `sum(st['total_rows'] for st in subtables)` */
  function DataRowCount(subtables: seq<Subtable>): nat
    decreases |subtables|
  {
    if subtables == [] then 0
    else DataRowCount(subtables[..|subtables| - 1]) + |subtables[|subtables| - 1].rows|
  }

  /** One entry of `sheets`. */
  datatype SheetResult = SheetResult(
    sheetName: string,
    sheetIndex: nat,
    subtablesCount: nat,
    dataRowsCount: nat,
    patterns: PatternCounts,
    subtables: seq<PlacedSubtable>,
    success: bool,
    message: string)

  /** The result recorded for the sheet `name` at 1-based position `index`. */
  function SheetResultOf(name: string, index: nat, outcome: Outcome): (r: SheetResult)
    ensures r.sheetName == name && r.sheetIndex == index
    ensures r.success <==> outcome.Extracted?
  {
    match outcome
    case Extracted(ts) =>
      SheetResult(name, index, |ts|, DataRowCount(ts), SheetPatterns(ts), Placed(ts, name, index), true, [])
    case Failed(e) =>
      SheetResult(name, index, 0, 0, NoPatterns, [], false, "Error processing sheet: " + e)
  }

  /** A sheet result is consistent: its count is its number of sub-tables and its patterns add up to that count. */
  lemma {:induction false} SheetResultConsistent(name: string, index: nat, outcome: Outcome)
    ensures var r := SheetResultOf(name, index, outcome);
            r.subtablesCount == |r.subtables| && r.patterns.Total() == r.subtablesCount
            && (!r.success ==> r.subtablesCount == 0 && r.dataRowsCount == 0 && r.subtables == [])
  {
    if outcome.Extracted? {
      SheetPatternsTotal(outcome.subtables);
    }
  }

  /** The results of the first `n` remaining sheets, in order, each indexed from 1. */
  function Processed(rest: seq<string>, extract: string -> Outcome, n: nat): (r: seq<SheetResult>)
    requires n <= |rest|
    ensures |r| == n
    decreases n
  {
    if n == 0 then []
    else Processed(rest, extract, n - 1) + [SheetResultOf(rest[n - 1], n, extract(rest[n - 1]))]
  }

  lemma {:induction false} ProcessedAt(rest: seq<string>, extract: string -> Outcome, n: nat, k: nat)
    requires k < n <= |rest|
    ensures Processed(rest, extract, n)[k] == SheetResultOf(rest[k], k + 1, extract(rest[k]))
    decreases n
  {
    if k < n - 1 {
      ProcessedAt(rest, extract, n - 1, k);
    }
  }

  function SumSubtables(sheets: seq<SheetResult>): nat
    decreases |sheets|
  {
    if sheets == [] then 0 else SumSubtables(sheets[..|sheets| - 1]) + sheets[|sheets| - 1].subtablesCount
  }

  function SumDataRows(sheets: seq<SheetResult>): nat
    decreases |sheets|
  {
    if sheets == [] then 0 else SumDataRows(sheets[..|sheets| - 1]) + sheets[|sheets| - 1].dataRowsCount
  }

  function SumPatterns(sheets: seq<SheetResult>): PatternCounts
    decreases |sheets|
  {
    if sheets == [] then NoPatterns else SumPatterns(sheets[..|sheets| - 1]).Plus(sheets[|sheets| - 1].patterns)
  }

  /** `all_subtables_combined`: the sub-tables of the sheets, one sheet after another. */
  function Combined(sheets: seq<SheetResult>): seq<PlacedSubtable>
    decreases |sheets|
  {
    if sheets == [] then [] else Combined(sheets[..|sheets| - 1]) + sheets[|sheets| - 1].subtables
  }

  // ------------------------------------------------------------- the response

  datatype Response = Response(
    success: bool,
    message: string,
    excelFile: Option<string>,
    mainSheetSkipped: Option<string>,
    totalSheetsProcessed: nat,
    totalSubtables: nat,
    totalDataRows: nat,
    referencePatterns: PatternCounts,
    sheets: seq<SheetResult>,
    allSubtables: seq<PlacedSubtable>)

  const TooFewSheets := "Excel file must contain at least 2 sheets (main sheet + remaining sheets)"

  function Failure(message: string, path: Option<string>): Response {
    Response(false, message, path, None, 0, 0, 0, NoPatterns, [], [])
  }

  /**
   * What `extract_all_subtables_api` returns for the workbook at `path`: the
   * counts of a successful response are the sums over its sheet results. The
   * formatted success message is not modelled (left empty).
   */
  function ApiResponse(path: string, workbook: Workbook, extract: string -> Outcome): Response {
    match workbook
    case Unreadable(e) => Failure("Failed to process Excel file: " + e, Some(path))
    case Opened(names) =>
      if |names| < 2 then Failure(TooFewSheets, None)
      else
        var rest := names[1..];
        var sheets := Processed(rest, extract, |rest|);
        Response(true, [], Some(path), Some(names[0]), |rest|, SumSubtables(sheets), SumDataRows(sheets),
          SumPatterns(sheets), sheets, Combined(sheets))
  }

  /** Appending one sheet result advances every running total by that sheet's share. */
  lemma {:induction false} SumsAppend(sheets: seq<SheetResult>, result: SheetResult)
    ensures var all := sheets + [result];
            SumSubtables(all) == SumSubtables(sheets) + result.subtablesCount
            && SumDataRows(all) == SumDataRows(sheets) + result.dataRowsCount
            && SumPatterns(all) == SumPatterns(sheets).Plus(result.patterns)
            && Combined(all) == Combined(sheets) + result.subtables
  {
    var all := sheets + [result];
    assert all[..|all| - 1] == sheets;
  }

  /** Counting one more sub-table of a sheet. */
  lemma {:induction false} CountStep(ts: seq<Subtable>, k: nat)
    requires k < |ts|
    ensures SheetPatterns(ts[..k + 1]) == SheetPatterns(ts[..k]).Count(PatternOf(ts[k].reference))
    ensures DataRowCount(ts[..k + 1]) == DataRowCount(ts[..k]) + |ts[k].rows|
  {
    assert ts[..k + 1][..k] == ts[..k];
  }

  /** The inner loop over one sheet's sub-tables: its pattern counts and its number of data rows. */
  method CountSheet(ts: seq<Subtable>) returns (patterns: PatternCounts, rows: nat)
    ensures patterns == SheetPatterns(ts) && rows == DataRowCount(ts)
  {
    patterns, rows := NoPatterns, 0;
    var k := 0;
    while k < |ts|
      invariant k <= |ts|
      invariant patterns == SheetPatterns(ts[..k]) && rows == DataRowCount(ts[..k])
      decreases |ts| - k
    {
      patterns, rows := CountNext(ts, k, patterns, rows);
      k := k + 1;
    }
    assert ts[..k] == ts;
  }

  /** One iteration of `CountSheet`: sub-table `k` counted under its pattern and its rows added. */
  method CountNext(ts: seq<Subtable>, k: nat, patterns: PatternCounts, rows: nat) returns (patterns': PatternCounts, rows': nat)
    requires k < |ts| && patterns == SheetPatterns(ts[..k]) && rows == DataRowCount(ts[..k])
    ensures patterns' == SheetPatterns(ts[..k + 1]) && rows' == DataRowCount(ts[..k + 1])
  {
    CountStep(ts, k);
    patterns' := patterns.Count(PatternOf(ts[k].reference));
    rows' := rows + |ts[k].rows|;
  }

  /** One sheet of the loop: what the try block (or its except branch) records for it. */
  method ProcessSheet(name: string, index: nat, outcome: Outcome) returns (result: SheetResult)
    ensures result == SheetResultOf(name, index, outcome)
  {
    match outcome {
      case Extracted(ts) =>
        var sheetPatterns, rows := CountSheet(ts);
        result := SheetResult(name, index, |ts|, rows, sheetPatterns, Placed(ts, name, index), true, []);
      case Failed(e) =>
        result := SheetResult(name, index, 0, 0, NoPatterns, [], false, "Error processing sheet: " + e);
    }
  }

  /** `extract_all_subtables_api`: skips the first sheet and accumulates the results of the others in order. */
  method ExtractAllSubtables(path: string, workbook: Workbook, extract: string -> Outcome) returns (response: Response)
    ensures response == ApiResponse(path, workbook, extract)
  {
    if workbook.Unreadable? {
      return Failure("Failed to process Excel file: " + workbook.error, Some(path));
    }
    var names := workbook.sheetNames;
    if |names| < 2 {
      return Failure(TooFewSheets, None);
    }
    var rest := names[1..];
    var sheets: seq<SheetResult> := [];
    var combined: seq<PlacedSubtable> := [];
    var totalSubtables: nat, totalDataRows: nat := 0, 0;
    var patterns := NoPatterns;
    var i := 0;
    while i < |rest|
      invariant i <= |rest|
      invariant sheets == Processed(rest, extract, i) && combined == Combined(sheets)
      invariant totalSubtables == SumSubtables(sheets) && totalDataRows == SumDataRows(sheets) && patterns == SumPatterns(sheets)
      decreases |rest| - i
    {
      var result := ProcessSheet(rest[i], i + 1, extract(rest[i]));
      SumsAppend(sheets, result);
      sheets := sheets + [result];
      combined := combined + result.subtables;
      totalSubtables := totalSubtables + result.subtablesCount;
      totalDataRows := totalDataRows + result.dataRowsCount;
      patterns := patterns.Plus(result.patterns);
      i := i + 1;
    }
    response := Response(true, [], Some(path), Some(names[0]), |rest|, totalSubtables, totalDataRows, patterns, sheets, combined);
  }

  // ------------------------------------------------------------- properties

  /** A workbook with fewer than two sheets fails with every count zero and nothing listed. */
  lemma {:induction false} TooFewSheetsFails(path: string, names: seq<string>, extract: string -> Outcome)
    requires |names| < 2
    ensures var r := ApiResponse(path, Opened(names), extract);
            !r.success && r.message == TooFewSheets && r.totalSheetsProcessed == 0 && r.totalSubtables == 0
            && r.totalDataRows == 0 && r.sheets == [] && r.allSubtables == [] && r.referencePatterns.Total() == 0
  {
  }

  /** The first sheet is skipped: sheet result k describes sheet k + 1 of the workbook, in order, with index k + 1. */
  lemma {:induction false} SheetsInOrder(path: string, names: seq<string>, extract: string -> Outcome, k: nat)
    requires |names| >= 2 && k < |names| - 1
    ensures var r := ApiResponse(path, Opened(names), extract);
            r.success && |r.sheets| == |names| - 1 && r.totalSheetsProcessed == |names| - 1
            && r.mainSheetSkipped == Some(names[0])
            && r.sheets[k] == SheetResultOf(names[k + 1], k + 1, extract(names[k + 1]))
  {
    ProcessedAt(names[1..], extract, |names| - 1, k);
  }

  /** The totals over a prefix of the sheet results: the successful sheets' counts, with a failed sheet adding nothing. */
  lemma {:induction false} TotalsOfPrefix(rest: seq<string>, extract: string -> Outcome, n: nat)
    requires n <= |rest|
    ensures var sheets := Processed(rest, extract, n);
            SumSubtables(sheets) == |Combined(sheets)| && SumPatterns(sheets).Total() == SumSubtables(sheets)
    decreases n
  {
    if n > 0 {
      var sheets := Processed(rest, extract, n);
      TotalsOfPrefix(rest, extract, n - 1);
      assert sheets[..n - 1] == Processed(rest, extract, n - 1);
      SheetResultConsistent(rest[n - 1], n, extract(rest[n - 1]));
    }
  }

  /** A failed sheet changes no total: appending its result leaves every sum as it was. */
  lemma {:induction false} FailedSheetAddsNothing(sheets: seq<SheetResult>, name: string, index: nat, error: string)
    ensures var x := SheetResultOf(name, index, Failed(error));
            SumSubtables(sheets + [x]) == SumSubtables(sheets) && SumDataRows(sheets + [x]) == SumDataRows(sheets)
            && SumPatterns(sheets + [x]) == SumPatterns(sheets) && Combined(sheets + [x]) == Combined(sheets)
  {
    var x := SheetResultOf(name, index, Failed(error));
    SumsAppend(sheets, x);
    assert Combined(sheets) + [] == Combined(sheets);
  }

  /** In a successful response every sub-table is listed once, and the pattern counts add up to the sub-table total. */
  lemma {:induction false} ResponseTotals(path: string, names: seq<string>, extract: string -> Outcome)
    requires |names| >= 2
    ensures var r := ApiResponse(path, Opened(names), extract);
            r.totalSubtables == |r.allSubtables| && r.referencePatterns.Total() == r.totalSubtables
  {
    TotalsOfPrefix(names[1..], extract, |names| - 1);
  }

  // -------------------------------------------------------------- summary

  datatype SheetSummary = SheetSummary(sheetName: string, subtables: nat, dataRows: nat, patterns: PatternCounts)

  datatype Summary =
    | FailureSummary(message: string)
    | SuccessSummary(excelFile: string, totalSheets: nat, totalSubtables: nat, totalDataRows: nat,
                     referencePatterns: PatternCounts, sheetSummaries: seq<SheetSummary>)

  /** The summaries of the successful sheets, in order. */
  function Summaries(sheets: seq<SheetResult>): (r: seq<SheetSummary>)
    ensures |r| <= |sheets|
    decreases |sheets|
  {
    if sheets == [] then []
    else
      var s := sheets[0];
      (if s.success then [SheetSummary(s.sheetName, s.subtablesCount, s.dataRowsCount, s.patterns)] else [])
      + Summaries(sheets[1..])
  }

  /** `get_subtables_summary`: a failure passes its message through; a success lists only the successful sheets. */
  function SubtablesSummary(response: Response): (r: Summary)
    ensures !response.success ==> r == FailureSummary(response.message)
    ensures response.success ==> r.SuccessSummary? && r.totalSubtables == response.totalSubtables
  {
    if !response.success then FailureSummary(response.message)
    else SuccessSummary(response.excelFile.GetOr([]), response.totalSheetsProcessed, response.totalSubtables,
      response.totalDataRows, response.referencePatterns, Summaries(response.sheets))
  }

  /** A sheet appears in the summary exactly when it succeeded, with its counts and patterns unchanged. */
  lemma {:induction false} SummariesSpec(sheets: seq<SheetResult>, s: SheetSummary)
    ensures s in Summaries(sheets) <==>
              exists k :: 0 <= k < |sheets| && sheets[k].success
                && s == SheetSummary(sheets[k].sheetName, sheets[k].subtablesCount, sheets[k].dataRowsCount, sheets[k].patterns)
    decreases |sheets|
  {
    if sheets != [] {
      SummariesSpec(sheets[1..], s);
      if exists k :: 0 <= k < |sheets| && sheets[k].success
           && s == SheetSummary(sheets[k].sheetName, sheets[k].subtablesCount, sheets[k].dataRowsCount, sheets[k].patterns) {
        var k :| 0 <= k < |sheets| && sheets[k].success
           && s == SheetSummary(sheets[k].sheetName, sheets[k].subtablesCount, sheets[k].dataRowsCount, sheets[k].patterns);
        if k > 0 {
          assert sheets[1..][k - 1] == sheets[k];
        }
      }
      if s in Summaries(sheets[1..]) {
        var k :| 0 <= k < |sheets[1..]| && sheets[1..][k].success
           && s == SheetSummary(sheets[1..][k].sheetName, sheets[1..][k].subtablesCount, sheets[1..][k].dataRowsCount, sheets[1..][k].patterns);
        assert sheets[k + 1] == sheets[1..][k];
      }
    }
  }
}

/**
 * The request checks and result filters of the upload endpoints in
 * `server/api/tender.py`: the supported project areas, the page-range checks,
 * the unit- and quantity-mismatch filters, the Category 2 / Category 3
 * name-mismatch test and the 摘要 reference filter. The HTTP plumbing around
 * them is left out; a rejected request is a `Rejected` value carrying the
 * status code and detail of the `HTTPException` the source raises.
 */
module TenderApi {
  import opened Wrappers
  import opened Text
  import TenderSchema
  import Normalizer

  /** The outcome of a request check: it passes, or the endpoint raises `HTTPException(status, detail)`. */
  datatype Check = Accepted | Rejected(status: nat, detail: string)

  // ------------------------------------------------------------ project area

  const SupportedAreas: seq<string> := ["岩手", "北上市", "農政"]

  /** `validate_project_area`: only the three supported areas pass, compared as whole strings. */
  function ValidateProjectArea(area: string): (r: Check)
    ensures r.Accepted? <==> area == "岩手" || area == "北上市" || area == "農政"
    ensures r.Rejected? ==> r.status == 400 && r.detail == "サポートされていない地域です。選択された地域: " + area
  {
    if area in SupportedAreas then Accepted
    else Rejected(400, "サポートされていない地域です。選択された地域: " + area)
  }

  /** The test is exact: a supported area with anything appended (岩手県, 北上市内) is rejected. */
  lemma {:induction false} ExtendedAreaRejected(area: string, more: string)
    requires ValidateProjectArea(area).Accepted? && more != []
    ensures ValidateProjectArea(area + more).Rejected?
  {
    assert (area + more)[0] == area[0];
  }

  // -------------------------------------------------------------- page ranges

  /** The rule the checks enforce on one optional range: pages are 1-based and the start does not pass the end. */
  predicate RangeValid(start: Option<int>, end: Option<int>) {
    (start.Some? ==> start.value >= 1)
    && (end.Some? ==> end.value >= 1)
    && (start.Some? && end.Some? ==> start.value <= end.value)
  }

  /** The first failed check of one range, in the order the source tests them. */
  function CheckRange(start: Option<int>, end: Option<int>, startMsg: string, endMsg: string, orderMsg: string): (r: Check)
    ensures r.Accepted? <==> RangeValid(start, end)
    ensures r.Rejected? ==> r.status == 400 && (r.detail == startMsg || r.detail == endMsg || r.detail == orderMsg)
    ensures start.Some? && start.value < 1 ==> r == Rejected(400, startMsg)
  {
    if start.Some? && start.value < 1 then Rejected(400, startMsg)
    else if end.Some? && end.value < 1 then Rejected(400, endMsg)
    else if start.Some? && end.Some? && start.value > end.value then Rejected(400, orderMsg)
    else Accepted
  }

  /** The page-range checks of the comparison endpoint: the main range first, then the sub-table range. */
  function CheckPageRanges(startPage: Option<int>, endPage: Option<int>,
                           subStart: Option<int>, subEnd: Option<int>): (r: Check)
    ensures r.Accepted? <==> RangeValid(startPage, endPage) && RangeValid(subStart, subEnd)
    ensures r.Rejected? ==> r.status == 400
    ensures !RangeValid(startPage, endPage) ==> r == CheckRange(startPage, endPage, StartMsg, EndMsg, OrderMsg)
  {
    var main := CheckRange(startPage, endPage, StartMsg, EndMsg, OrderMsg);
    if main.Rejected? then main
    else CheckRange(subStart, subEnd, SubStartMsg, SubEndMsg, SubOrderMsg)
  }

  const StartMsg := "Start page must be >= 1"
  const EndMsg := "End page must be >= 1"
  const OrderMsg := "Start page cannot be greater than end page"
  const SubStartMsg := "Subtable start page must be >= 1"
  const SubEndMsg := "Subtable end page must be >= 1"
  const SubOrderMsg := "Subtable start page cannot be greater than end page"

  /** An accepted request whose two bounds are both given names a non-empty range of pages counted from 1. */
  lemma {:induction false} AcceptedRangeNonEmpty(startPage: int, endPage: int, subStart: Option<int>, subEnd: Option<int>)
    requires CheckPageRanges(Some(startPage), Some(endPage), subStart, subEnd).Accepted?
    ensures 1 <= startPage <= endPage
  {
    assert RangeValid(Some(startPage), Some(endPage));
  }

  /** A bad main range is reported before anything about the sub-table range. */
  lemma {:induction false} MainRangeFirst(startPage: Option<int>, endPage: Option<int>, subStart: Option<int>, subEnd: Option<int>)
    requires !RangeValid(startPage, endPage)
    ensures var r := CheckPageRanges(startPage, endPage, subStart, subEnd);
            r.Rejected? && (r.detail == StartMsg || r.detail == EndMsg || r.detail == OrderMsg)
  {
    var main := CheckRange(startPage, endPage, StartMsg, EndMsg, OrderMsg);
    assert main.Rejected?;
  }

  // ------------------------------------------------------- comparison results

  /** The statuses the endpoint's filters test; every other status string is `OtherStatus`. */
  datatype ResultStatus = QuantityMismatch | UnitMismatch | NameMismatch | OtherStatus(name: string)

  /**
   * The attributes of one comparison result the filters read: `kind` is `r.type`
   * (`None` when the attribute is absent), `unitMismatch` is
   * `getattr(r, 'unit_mismatch', False)`, and the keys are the item_key of
   * `r.pdf_item` / `r.excel_item` (`None` when the item is `None`).
   */
  datatype Result = Result(
    status: ResultStatus,
    unitMismatch: bool,
    kind: Option<string>,
    pdfKey: Option<string>,
    excelKey: Option<string>)

  const MainTable := "Main Table"

  /** The item whose quantity mismatches in sub-tables are ignored. */
  const MiscExpenses := "諸雑費(率+まるめ)"

  /** `r.type == 'Main Table' or not hasattr(r, 'type')` */
  predicate OnMainTable(r: Result) {
    r.kind.None? || r.kind == Some(MainTable)
  }

  /** A unit difference, reported alone or together with a quantity difference. */
  predicate UnitDiffers(r: Result) {
    r.status == UnitMismatch || (r.status == QuantityMismatch && r.unitMismatch)
  }

  /** Either side of the result is the 諸雑費(率+まるめ) item. */
  predicate IsMiscExpenses(r: Result) {
    r.pdfKey == Some(MiscExpenses) || r.excelKey == Some(MiscExpenses)
  }

  /** `main_unit_mismatches`: the main-table results with a unit difference, in order. */
  function MainUnitMismatches(results: seq<Result>): (out: seq<Result>)
    ensures forall r :: r in out <==> r in results && UnitDiffers(r) && OnMainTable(r)
    ensures |out| <= |results|
    decreases |results|
  {
    if results == [] then []
    else
      var rest := MainUnitMismatches(results[1..]);
      assert forall r :: r in results <==> r == results[0] || r in results[1..];
      if UnitDiffers(results[0]) && OnMainTable(results[0]) then [results[0]] + rest else rest
  }

  /** `subtable_unit_mismatches`: every sub-table result with a unit difference, in order. */
  function SubtableUnitMismatches(results: seq<Result>): (out: seq<Result>)
    ensures forall r :: r in out <==> r in results && UnitDiffers(r)
    ensures |out| <= |results|
    decreases |results|
  {
    if results == [] then []
    else
      var rest := SubtableUnitMismatches(results[1..]);
      assert forall r :: r in results <==> r == results[0] || r in results[1..];
      if UnitDiffers(results[0]) then [results[0]] + rest else rest
  }

  /** `subtable_quantity_mismatches` after both comprehensions: quantity mismatches not about 諸雑費(率+まるめ). */
  function SubtableQuantityMismatches(results: seq<Result>): (out: seq<Result>)
    ensures forall r :: r in out <==> r in results && r.status == QuantityMismatch && !IsMiscExpenses(r)
    ensures |out| <= |results|
    decreases |results|
  {
    if results == [] then []
    else
      var rest := SubtableQuantityMismatches(results[1..]);
      assert forall r :: r in results <==> r == results[0] || r in results[1..];
      if results[0].status == QuantityMismatch && !IsMiscExpenses(results[0]) then [results[0]] + rest else rest
  }

  /** A result that carries a unit difference is reported as a unit mismatch even when its status is a quantity mismatch. */
  lemma {:induction false} QuantityMismatchWithUnitIsReported(results: seq<Result>, r: Result)
    requires r in results && r.status == QuantityMismatch && r.unitMismatch && !IsMiscExpenses(r)
    ensures r in SubtableUnitMismatches(results) && r in SubtableQuantityMismatches(results)
  {
  }

  // ------------------------------------------------------ name-mismatch test

  /** `all(t in name for t in tokens if t)`, written out token by token. */
  predicate AllTokensIn(tokens: seq<string>, name: string)
    decreases |tokens|
  {
    tokens == [] || ((tokens[0] == [] || Contains(name, tokens[0])) && AllTokensIn(tokens[1..], name))
  }

  /** `any(t and t in name for t in tokens)`, written out token by token. */
  predicate AnyTokenIn(tokens: seq<string>, name: string)
    decreases |tokens|
  {
    tokens != [] && ((tokens[0] != [] && Contains(name, tokens[0])) || AnyTokenIn(tokens[1..], name))
  }

  lemma {:induction false} AllTokensInIff(tokens: seq<string>, name: string)
    ensures AllTokensIn(tokens, name) <==> forall i :: 0 <= i < |tokens| && tokens[i] != [] ==> Contains(name, tokens[i])
    decreases |tokens|
  {
    if tokens != [] {
      AllTokensInIff(tokens[1..], name);
      assert forall i :: 1 <= i < |tokens| ==> tokens[i] == tokens[1..][i - 1];
    }
  }

  lemma {:induction false} AnyTokenInIff(tokens: seq<string>, name: string)
    ensures AnyTokenIn(tokens, name) <==> exists i :: 0 <= i < |tokens| && tokens[i] != [] && Contains(name, tokens[i])
    decreases |tokens|
  {
    if tokens != [] {
      AnyTokenInIff(tokens[1..], name);
      assert forall i :: 1 <= i < |tokens| ==> tokens[i] == tokens[1..][i - 1];
      if exists i :: 0 <= i < |tokens| && tokens[i] != [] && Contains(name, tokens[i]) {
        var i :| 0 <= i < |tokens| && tokens[i] != [] && Contains(name, tokens[i]);
        if i > 0 {
          assert tokens[1..][i - 1] == tokens[i];
        }
      }
    }
  }

  /** The category of a name mismatch: 2 when every PDF token occurs in the Excel name, 3 when only some do, 0 otherwise. */
  function Category(tokens: seq<string>, excelName: string): (c: nat)
    ensures c == 0 || c == 2 || c == 3
  {
    if AllTokensIn(tokens, excelName) then 2
    else if AnyTokenIn(tokens, excelName) then 3
    else 0
  }

  /**
   * Category 2 holds exactly when every non-empty token occurs in the Excel name (so it holds
   * vacuously when there is none), Category 3 exactly when some token occurs but not all do;
   * the two never hold together.
   */
  lemma {:induction false} CategorySpec(tokens: seq<string>, excelName: string)
    ensures Category(tokens, excelName) == 2 <==> forall i :: 0 <= i < |tokens| && tokens[i] != [] ==> Contains(excelName, tokens[i])
    ensures Category(tokens, excelName) == 3 <==>
              (exists i :: 0 <= i < |tokens| && tokens[i] != [] && Contains(excelName, tokens[i]))
              && !(forall i :: 0 <= i < |tokens| && tokens[i] != [] ==> Contains(excelName, tokens[i]))
  {
    AllTokensInIff(tokens, excelName);
    AnyTokenInIff(tokens, excelName);
  }

  /** With no non-empty PDF token the test reports Category 2 whatever the Excel name is. */
  lemma {:induction false} NoTokensIsCategoryTwo(tokens: seq<string>, excelName: string)
    requires forall i :: 0 <= i < |tokens| ==> tokens[i] == []
    ensures Category(tokens, excelName) == 2
  {
    AllTokensInIff(tokens, excelName);
  }

  /** One entry of `main_name_mismatches`: the two item names and the category. */
  datatype NameMismatchEntry = NameMismatchEntry(pdfName: string, excelName: string, category: nat)

  /** A result the loop examines: a main-table name mismatch with both items present. */
  predicate Examined(r: Result) {
    r.status == NameMismatch && r.pdfKey.Some? && r.excelKey.Some? && OnMainTable(r)
  }

  /** The category of an examined result; the tokenizer is a parameter (see the README). */
  function CategoryOf(r: Result, tokenize: string -> seq<string>): nat
    requires Examined(r)
  {
    Category(tokenize(r.pdfKey.value), Normalizer.NormalizeItem(r.excelKey.value))
  }

  function EntryOf(r: Result, tokenize: string -> seq<string>): NameMismatchEntry
    requires Examined(r)
  {
    NameMismatchEntry(r.pdfKey.value, r.excelKey.value, CategoryOf(r, tokenize))
  }

  /** `main_name_mismatches`: the examined results of Category 2 or 3, in order. */
  function MainNameMismatches(results: seq<Result>, tokenize: string -> seq<string>): (out: seq<NameMismatchEntry>)
    ensures forall e :: e in out ==> e.category == 2 || e.category == 3
    ensures forall e :: e in out <==> exists r :: r in results && Examined(r) && CategoryOf(r, tokenize) != 0 && e == EntryOf(r, tokenize)
    ensures |out| <= |results|
    decreases |results|
  {
    if results == [] then []
    else
      var rest := MainNameMismatches(results[1..], tokenize);
      assert forall r :: r in results <==> r == results[0] || r in results[1..];
      var r := results[0];
      if Examined(r) && CategoryOf(r, tokenize) != 0 then [EntryOf(r, tokenize)] + rest else rest
  }

  // ---------------------------------------------------------- reference filter

  const RemarksKey := "摘要"

  /** `item.raw_fields.get('摘要', '')` */
  function RemarksOf(item: TenderSchema.TenderItem): string {
    TenderSchema.GetOrEmpty(item.rawFields, RemarksKey)
  }

  /** The stripped 摘要 of an item, or `None` when `remarks and remarks.strip()` fails. */
  function ReferenceOf(item: TenderSchema.TenderItem): Option<string> {
    var remarks := RemarksOf(item);
    if Blank(remarks) then None else Some(Strip(remarks))
  }

  /** The reference each item gives, item by item. */
  function References(items: seq<TenderSchema.TenderItem>): (r: seq<Option<string>>)
    ensures |r| == |items|
    decreases |items|
  {
    if items == [] then [] else [ReferenceOf(items[0])] + References(items[1..])
  }

  lemma {:induction false} ReferencesAt(items: seq<TenderSchema.TenderItem>, i: nat)
    requires i < |items|
    ensures References(items)[i] == ReferenceOf(items[i])
    decreases i
  {
    if i > 0 {
      ReferencesAt(items[1..], i - 1);
    }
  }

  /** The values that are present, in order. */
  function Present(opts: seq<Option<string>>): (r: seq<string>)
    ensures |r| <= |opts|
    decreases |opts|
  {
    if opts == [] then [] else (if opts[0].None? then [] else [opts[0].value]) + Present(opts[1..])
  }

  lemma {:induction false} PresentSpec(opts: seq<Option<string>>, s: string)
    ensures s in Present(opts) <==> Some(s) in opts
    decreases |opts|
  {
    if opts != [] {
      PresentSpec(opts[1..], s);
      assert opts == [opts[0]] + opts[1..];
    }
  }

  /** `reference_numbers`: the stripped 摘要 of every item whose 摘要 is not blank, in order. */
  function StrippedRemarks(items: seq<TenderSchema.TenderItem>): (refs: seq<string>)
    ensures |refs| <= |items|
  {
    Present(References(items))
  }

  /** A reference the sub-table extraction accepts: it mentions 号 or 単. */
  predicate ReferenceLike(s: string) {
    s != [] && ('号' in s || '単' in s)
  }

  /** `valid_references`: the distinct stripped remarks that look like references (the list order of `set` is not modelled). */
  function ValidReferences(items: seq<TenderSchema.TenderItem>): set<string> {
    set s | s in StrippedRemarks(items) && ReferenceLike(s)
  }

  lemma {:induction false} StrippedRemarksSpec(items: seq<TenderSchema.TenderItem>, s: string)
    ensures s in StrippedRemarks(items) <==> exists i :: 0 <= i < |items| && ReferenceOf(items[i]) == Some(s)
  {
    PresentSpec(References(items), s);
    forall i | 0 <= i < |items| ensures References(items)[i] == ReferenceOf(items[i]) {
      ReferencesAt(items, i);
    }
  }

  /** A reference read from an item is its 摘要 stripped: never empty, with no surrounding whitespace. */
  lemma {:induction false} ReferenceOfShape(item: TenderSchema.TenderItem)
    ensures ReferenceOf(item).Some? <==> !Blank(RemarksOf(item))
    ensures ReferenceOf(item).Some? ==> var s := ReferenceOf(item).value;
              s == Strip(RemarksOf(item)) && s != [] && !IsSpace(s[0]) && !IsSpace(s[|s| - 1])
  {
    var remarks := RemarksOf(item);
    if !Blank(remarks) {
      StripShape(remarks);
      StripEmptyIffBlank(remarks);
    }
  }

  /**
   * A valid reference is exactly the stripped, non-blank 摘要 of some item that
   * mentions 号 or 単; it is never empty and carries no surrounding whitespace.
   */
  lemma {:induction false} ValidReferencesSpec(items: seq<TenderSchema.TenderItem>, s: string)
    ensures s in ValidReferences(items) <==>
              (exists i :: 0 <= i < |items| && ReferenceOf(items[i]) == Some(s)) && ('号' in s || '単' in s)
    ensures s in ValidReferences(items) ==> s != [] && !IsSpace(s[0]) && !IsSpace(s[|s| - 1])
  {
    StrippedRemarksSpec(items, s);
    if s in ValidReferences(items) {
      var i :| 0 <= i < |items| && ReferenceOf(items[i]) == Some(s);
      ReferenceOfShape(items[i]);
    }
  }
}

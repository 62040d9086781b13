/**
 * The reconciliation of PDF items against Excel items
 * (server/services/matcher.py): both sides are keyed by their normalised
 * item key, every PDF entry is paired by an exact key hit or else by the
 * best fuzzy candidate, and the Excel entries no PDF entry was paired with
 * are reported as extra.
 */
module Matcher {
  import opened Wrappers
  import opened TenderSchema
  import opened Numbers
  import Normalizer

  /** A `fuzz.ratio` score. */
  type Percent = x: real | 0.0 <= x <= 100.0

  /** `fuzz.ratio`, which the model leaves uninterpreted apart from its range. */
  type Scorer = (string, string) -> Percent

  /** `min_confidence * 100`: the `score_cutoff` of the fuzzy search. */
  const Cutoff: real := 80.0

  /** Quantities closer than this are equal. */
  const Tolerance: real := 0.001

  /** The key an item is filed under: `normalize_item(item.item_key)`. */
  function NormKey(item: TenderItem): string {
    Normalizer.NormalizeItem(item.itemKey)
  }

  // ------------------------------------------------------------- indexes

  /** `{key_of(item): item for item in items}`: a repeated key keeps its first position and takes the last item. */
  function Index(items: seq<TenderItem>, keyOf: TenderItem -> string): (d: Dict<TenderItem>)
    ensures DistinctKeys(d)
    decreases |items|
  {
    if items == [] then []
    else
      var prev := Index(items[..|items| - 1], keyOf);
      var last := items[|items| - 1];
      PutGet(prev, keyOf(last), last, keyOf(last));
      Put(prev, keyOf(last), last)
  }

  /** The last item filed under `k`, scanning the list directly. */
  function LastWithKey(items: seq<TenderItem>, keyOf: TenderItem -> string, k: string): Option<TenderItem>
    decreases |items|
  {
    if items == [] then None
    else if keyOf(items[|items| - 1]) == k then Some(items[|items| - 1])
    else LastWithKey(items[..|items| - 1], keyOf, k)
  }

  /** `LastWithKey` finds nothing exactly when no item has the key. */
  lemma {:induction false} LastWithKeyNone(items: seq<TenderItem>, keyOf: TenderItem -> string, k: string)
    ensures LastWithKey(items, keyOf, k).None? <==> forall i :: 0 <= i < |items| ==> keyOf(items[i]) != k
    decreases |items|
  {
    if items != [] {
      var init := items[..|items| - 1];
      LastWithKeyNone(init, keyOf, k);
      assert forall i :: 0 <= i < |init| ==> init[i] == items[i];
    }
  }

  /** Looking a key up in the index finds the last item with that key. */
  lemma {:induction false} IndexLastWins(items: seq<TenderItem>, keyOf: TenderItem -> string, k: string)
    ensures Get(Index(items, keyOf), k) == LastWithKey(items, keyOf, k)
    decreases |items|
  {
    if items != [] {
      var init := items[..|items| - 1];
      var last := items[|items| - 1];
      IndexLastWins(init, keyOf, k);
      PutGet(Index(init, keyOf), keyOf(last), last, k);
    }
  }

  /** Every entry of the index is filed under its item's own key. */
  lemma {:induction false} IndexKeys(items: seq<TenderItem>, keyOf: TenderItem -> string)
    ensures forall i :: 0 <= i < |Index(items, keyOf)| ==> keyOf(Index(items, keyOf)[i].1) == Index(items, keyOf)[i].0
    decreases |items|
  {
    if items != [] {
      var init := items[..|items| - 1];
      IndexKeys(init, keyOf);
    }
  }

  /** `d.keys()`, in insertion order. */
  function Keys(d: Dict<TenderItem>): (ks: seq<string>)
    ensures |ks| == |d|
    ensures forall i :: 0 <= i < |d| ==> ks[i] == d[i].0
    decreases |d|
  {
    if d == [] then [] else [d[0].0] + Keys(d[1..])
  }

  // -------------------------------------------------------- fuzzy search

  /**
   * `process.extractOne(query, choices, scorer, score_cutoff=cutoff)`: the
   * first choice with the highest score, provided that score reaches the cutoff.
   */
  function ExtractOne(query: string, choices: seq<string>, scorer: Scorer, cutoff: real): (r: Option<(string, Percent)>)
    decreases |choices|
  {
    if choices == [] then None
    else
      var rest := ExtractOne(query, choices[1..], scorer, cutoff);
      var s := scorer(query, choices[0]);
      if s >= cutoff && (rest.None? || s >= rest.value.1) then Some((choices[0], s)) else rest
  }

  /**
   * The fuzzy search finds nothing exactly when no choice reaches the cutoff;
   * otherwise it returns a choice with its own score, which reaches the cutoff,
   * is the highest of all, and is strictly above every earlier choice's score.
   */
  lemma {:induction false} ExtractOneSpec(query: string, choices: seq<string>, scorer: Scorer, cutoff: real)
    ensures var r := ExtractOne(query, choices, scorer, cutoff);
            (r.None? <==> forall i :: 0 <= i < |choices| ==> scorer(query, choices[i]) < cutoff)
            && (r.Some? ==>
                  exists j :: 0 <= j < |choices| && choices[j] == r.value.0 && r.value.1 == scorer(query, choices[j])
                    && cutoff <= r.value.1
                    && (forall i :: 0 <= i < |choices| ==> scorer(query, choices[i]) <= r.value.1)
                    && (forall i :: 0 <= i < j ==> scorer(query, choices[i]) < r.value.1))
    decreases |choices|
  {
    if choices != [] {
      var tail := choices[1..];
      ExtractOneSpec(query, tail, scorer, cutoff);
      assert forall i :: 1 <= i < |choices| ==> choices[i] == tail[i - 1];
      var rest := ExtractOne(query, tail, scorer, cutoff);
      var s := scorer(query, choices[0]);
      if !(s >= cutoff && (rest.None? || s >= rest.value.1)) && rest.Some? {
        var j :| 0 <= j < |tail| && tail[j] == rest.value.0 && rest.value.1 == scorer(query, tail[j])
                 && cutoff <= rest.value.1
                 && (forall i :: 0 <= i < |tail| ==> scorer(query, tail[i]) <= rest.value.1)
                 && (forall i :: 0 <= i < j ==> scorer(query, tail[i]) < rest.value.1);
        assert choices[j + 1] == rest.value.0;
        assert forall i :: 0 <= i < j + 1 ==> scorer(query, choices[i]) < rest.value.1 by {
          forall i | 0 <= i < j + 1 ensures scorer(query, choices[i]) < rest.value.1 {
            if i > 0 { assert choices[i] == tail[i - 1]; }
          }
        }
      }
    }
  }

  // ------------------------------------------------------ one comparison

  /** A pairing of a PDF item with an Excel item: OK when the quantities agree, otherwise the Excel-minus-PDF difference. */
  function Paired(pdfItem: TenderItem, excelItem: TenderItem, confidence: real): ComparisonResult {
    if Abs(pdfItem.quantity - excelItem.quantity) < Tolerance then
      ComparisonResult(OK, Some(pdfItem), Some(excelItem), confidence, None)
    else
      ComparisonResult(QuantityMismatch, Some(pdfItem), Some(excelItem), confidence, Some(excelItem.quantity - pdfItem.quantity))
  }

  /** The result for one PDF entry, with the Excel key it was paired with. */
  function PdfOutcome(pdfKey: string, pdfItem: TenderItem, excel: Dict<TenderItem>, scorer: Scorer): (ComparisonResult, Option<string>) {
    var exact := Get(excel, pdfKey);
    if exact.Some? then (Paired(pdfItem, exact.value, 1.0), Some(pdfKey))
    else
      var hit := ExtractOne(pdfKey, Keys(excel), scorer, Cutoff);
      if hit.Some? then
        FuzzyKeyPresent(pdfKey, excel, scorer);
        (Paired(pdfItem, Get(excel, hit.value.0).value, hit.value.1 / 100.0), Some(hit.value.0))
      else (ComparisonResult(Missing, Some(pdfItem), None, 0.0, None), None)
  }

  /** A fuzzy hit is one of the Excel keys, so looking it up cannot fail. */
  lemma {:induction false} FuzzyKeyPresent(pdfKey: string, excel: Dict<TenderItem>, scorer: Scorer)
    ensures var hit := ExtractOne(pdfKey, Keys(excel), scorer, Cutoff);
            hit.Some? ==> Get(excel, hit.value.0).Some?
  {
    ExtractOneSpec(pdfKey, Keys(excel), scorer, Cutoff);
  }

  /** The results of the PDF loop, one per PDF entry in order. */
  function PdfResults(pdf: Dict<TenderItem>, excel: Dict<TenderItem>, scorer: Scorer): (rs: seq<ComparisonResult>)
    ensures |rs| == |pdf|
    decreases |pdf|
  {
    if pdf == [] then []
    else
      var last := pdf[|pdf| - 1];
      PdfResults(pdf[..|pdf| - 1], excel, scorer) + [PdfOutcome(last.0, last.1, excel, scorer).0]
  }

  /** `matched_excel_keys` after the PDF loop. */
  function MatchedKeys(pdf: Dict<TenderItem>, excel: Dict<TenderItem>, scorer: Scorer): set<string>
    decreases |pdf|
  {
    if pdf == [] then {}
    else
      var last := pdf[|pdf| - 1];
      var m := PdfOutcome(last.0, last.1, excel, scorer).1;
      MatchedKeys(pdf[..|pdf| - 1], excel, scorer) + (if m.Some? then {m.value} else {})
  }

  function ExtraResult(excelItem: TenderItem): ComparisonResult {
    ComparisonResult(Extra, None, Some(excelItem), 0.0, None)
  }

  /** The results of the Excel loop: one per Excel entry whose key was never matched, in order. */
  function ExtraResults(excel: Dict<TenderItem>, matched: set<string>): seq<ComparisonResult>
    decreases |excel|
  {
    if excel == [] then []
    else
      var last := excel[|excel| - 1];
      ExtraResults(excel[..|excel| - 1], matched) + (if last.0 in matched then [] else [ExtraResult(last.1)])
  }

  function Summarize(results: seq<ComparisonResult>): ComparisonSummary {
    ComparisonSummary(
      |results|,
      CountStatus(results, OK),
      CountStatus(results, QuantityMismatch),
      CountStatus(results, Missing),
      CountStatus(results, Extra),
      results)
  }

  /** The whole comparison, as a function of the two item lists. */
  function Compare(pdfItems: seq<TenderItem>, excelItems: seq<TenderItem>, scorer: Scorer): ComparisonSummary {
    var pdf := Index(pdfItems, NormKey);
    var excel := Index(excelItems, NormKey);
    Summarize(PdfResults(pdf, excel, scorer) + ExtraResults(excel, MatchedKeys(pdf, excel, scorer)))
  }

  lemma {:induction false} PdfLoopStep(pdf: Dict<TenderItem>, i: int, excel: Dict<TenderItem>, scorer: Scorer)
    requires 0 <= i < |pdf|
    ensures var o := PdfOutcome(pdf[i].0, pdf[i].1, excel, scorer);
            PdfResults(pdf[..i + 1], excel, scorer) == PdfResults(pdf[..i], excel, scorer) + [o.0]
            && MatchedKeys(pdf[..i + 1], excel, scorer) == MatchedKeys(pdf[..i], excel, scorer) + (if o.1.Some? then {o.1.value} else {})
  {
    assert pdf[..i + 1][..i] == pdf[..i];
  }

  lemma {:induction false} ExtraLoopStep(excel: Dict<TenderItem>, j: int, matched: set<string>)
    requires 0 <= j < |excel|
    ensures ExtraResults(excel[..j + 1], matched)
            == ExtraResults(excel[..j], matched) + (if excel[j].0 in matched then [] else [ExtraResult(excel[j].1)])
  {
    assert excel[..j + 1][..j] == excel[..j];
  }

  /** The loop over the PDF entries of `compare_items`: one result per entry, and the Excel keys it paired. */
  method ComparePdfEntries(pdf: Dict<TenderItem>, excel: Dict<TenderItem>, scorer: Scorer)
    returns (results: seq<ComparisonResult>, matched: set<string>)
    ensures results == PdfResults(pdf, excel, scorer)
    ensures matched == MatchedKeys(pdf, excel, scorer)
  {
    results := [];
    matched := {};
    var i := 0;
    while i < |pdf|
      invariant 0 <= i <= |pdf|
      invariant results == PdfResults(pdf[..i], excel, scorer)
      invariant matched == MatchedKeys(pdf[..i], excel, scorer)
    {
      var pdfKey := pdf[i].0;
      var pdfItem := pdf[i].1;
      var result: ComparisonResult;
      var exact := Get(excel, pdfKey);
      if exact.Some? {
        matched := matched + {pdfKey};
        result := Paired(pdfItem, exact.value, 1.0);
      } else {
        var hit := ExtractOne(pdfKey, Keys(excel), scorer, Cutoff);
        if hit.Some? {
          FuzzyKeyPresent(pdfKey, excel, scorer);
          var excelItem := Get(excel, hit.value.0).value;
          matched := matched + {hit.value.0};
          result := Paired(pdfItem, excelItem, hit.value.1 / 100.0);
        } else {
          result := ComparisonResult(Missing, Some(pdfItem), None, 0.0, None);
        }
      }
      results := results + [result];
      PdfLoopStep(pdf, i, excel, scorer);
      i := i + 1;
    }
    assert pdf[..i] == pdf;
  }

  /** The loop over the Excel entries of `compare_items`: an EXTRA result for each key never matched. */
  method CollectExtras(excel: Dict<TenderItem>, matched: set<string>) returns (extras: seq<ComparisonResult>)
    ensures extras == ExtraResults(excel, matched)
  {
    extras := [];
    var j := 0;
    while j < |excel|
      invariant 0 <= j <= |excel|
      invariant extras == ExtraResults(excel[..j], matched)
    {
      if excel[j].0 !in matched {
        extras := extras + [ExtraResult(excel[j].1)];
      }
      ExtraLoopStep(excel, j, matched);
      j := j + 1;
    }
    assert excel[..j] == excel;
  }

  /** `Matcher.compare_items` */
  method CompareItems(pdfItems: seq<TenderItem>, excelItems: seq<TenderItem>, scorer: Scorer) returns (summary: ComparisonSummary)
    ensures summary == Compare(pdfItems, excelItems, scorer)
  {
    var pdf := Index(pdfItems, NormKey);
    var excel := Index(excelItems, NormKey);
    var pdfResults, matched := ComparePdfEntries(pdf, excel, scorer);
    var extras := CollectExtras(excel, matched);
    var results := pdfResults + extras;
    summary := ComparisonSummary(
      |results|,
      CountStatus(results, OK),
      CountStatus(results, QuantityMismatch),
      CountStatus(results, Missing),
      CountStatus(results, Extra),
      results);
  }

  // ------------------------------------------------------------ properties

  /** The result for one PDF entry, case by case. */
  lemma {:induction false} PdfOutcomeSpec(pdfKey: string, pdfItem: TenderItem, excel: Dict<TenderItem>, scorer: Scorer)
    ensures var (r, m) := PdfOutcome(pdfKey, pdfItem, excel, scorer);
            r.pdfItem == Some(pdfItem) && r.status != Extra
            // an exact key hit is paired with full confidence
            && (HasKey(excel, pdfKey) ==> m == Some(pdfKey) && r.excelItem == Get(excel, pdfKey) && r.matchConfidence == 1.0)
            // without one, the entry is missing exactly when no Excel key scores at least the cutoff
            && (r.status == Missing <==> !HasKey(excel, pdfKey) && forall i :: 0 <= i < |excel| ==> scorer(pdfKey, excel[i].0) < Cutoff)
            && (r.status == Missing ==> m.None? && r.excelItem.None? && r.matchConfidence == 0.0 && r.quantityDifference.None?)
            // a fuzzy pairing takes the best-scoring key, with its score as confidence
            && (!HasKey(excel, pdfKey) && r.status != Missing ==>
                  m.Some? && r.excelItem == Get(excel, m.value)
                  && r.matchConfidence == scorer(pdfKey, m.value) / 100.0
                  && 0.8 <= r.matchConfidence <= 1.0
                  && forall i :: 0 <= i < |excel| ==> scorer(pdfKey, excel[i].0) <= scorer(pdfKey, m.value))
            // a pairing is OK exactly when the quantities agree within the tolerance
            && (r.status != Missing ==>
                  r.excelItem.Some?
                  && (r.status == OK <==> Abs(pdfItem.quantity - r.excelItem.value.quantity) < Tolerance)
                  && (r.status == OK ==> r.quantityDifference.None?)
                  && (r.status == QuantityMismatch ==> r.quantityDifference == Some(r.excelItem.value.quantity - pdfItem.quantity)))
  {
    var ks := Keys(excel);
    ExtractOneSpec(pdfKey, ks, scorer, Cutoff);
    assert forall i :: 0 <= i < |excel| ==> scorer(pdfKey, excel[i].0) == scorer(pdfKey, ks[i]);
  }

  lemma {:induction false} PdfResultsAt(pdf: Dict<TenderItem>, excel: Dict<TenderItem>, scorer: Scorer)
    ensures forall i :: 0 <= i < |pdf| ==> PdfResults(pdf, excel, scorer)[i] == PdfOutcome(pdf[i].0, pdf[i].1, excel, scorer).0
    decreases |pdf|
  {
    if pdf != [] {
      var init := pdf[..|pdf| - 1];
      PdfResultsAt(init, excel, scorer);
      assert forall i :: 0 <= i < |init| ==> init[i] == pdf[i];
    }
  }

  /** The matched keys are exactly the keys the PDF entries were paired with. */
  lemma {:induction false} MatchedKeysMembers(pdf: Dict<TenderItem>, excel: Dict<TenderItem>, scorer: Scorer, k: string)
    ensures k in MatchedKeys(pdf, excel, scorer) <==> exists i :: 0 <= i < |pdf| && PdfOutcome(pdf[i].0, pdf[i].1, excel, scorer).1 == Some(k)
    decreases |pdf|
  {
    if pdf != [] {
      var init := pdf[..|pdf| - 1];
      MatchedKeysMembers(init, excel, scorer, k);
      assert forall i :: 0 <= i < |init| ==> init[i] == pdf[i];
    }
  }

  /** The Excel loop reports exactly the entries whose key was never matched. */
  lemma {:induction false} ExtraResultsMembers(excel: Dict<TenderItem>, matched: set<string>)
    ensures forall r :: r in ExtraResults(excel, matched) <==>
              exists i :: 0 <= i < |excel| && excel[i].0 !in matched && r == ExtraResult(excel[i].1)
    decreases |excel|
  {
    if excel != [] {
      var init := excel[..|excel| - 1];
      ExtraResultsMembers(init, matched);
      assert forall i :: 0 <= i < |init| ==> init[i] == excel[i];
    }
  }

  /** The four counts of the summary add up to the number of results. */
  lemma {:induction false} CompareCounts(pdfItems: seq<TenderItem>, excelItems: seq<TenderItem>, scorer: Scorer)
    ensures var s := Compare(pdfItems, excelItems, scorer);
            s.totalItems == |s.results| == s.matchedItems + s.quantityMismatches + s.missingItems + s.extraItems
  {
    CountsPartition(Compare(pdfItems, excelItems, scorer).results);
  }

  /**
   * The results list one result per distinct normalised PDF key, in the
   * order those keys first occur, none of them EXTRA; then the EXTRA
   * results, which carry no PDF item.
   */
  lemma {:induction false} CompareLayout(pdfItems: seq<TenderItem>, excelItems: seq<TenderItem>, scorer: Scorer)
    ensures var pdf := Index(pdfItems, NormKey);
            var excel := Index(excelItems, NormKey);
            var rs := Compare(pdfItems, excelItems, scorer).results;
            |pdf| <= |rs|
            && (forall i :: 0 <= i < |pdf| ==>
                  rs[i] == PdfOutcome(pdf[i].0, pdf[i].1, excel, scorer).0 && rs[i].pdfItem == Some(pdf[i].1) && rs[i].status != Extra)
            && (forall i :: |pdf| <= i < |rs| ==> rs[i].status == Extra && rs[i].pdfItem.None? && rs[i].excelItem.Some?)
  {
    var pdf := Index(pdfItems, NormKey);
    var excel := Index(excelItems, NormKey);
    var matched := MatchedKeys(pdf, excel, scorer);
    var head := PdfResults(pdf, excel, scorer);
    var tail := ExtraResults(excel, matched);
    assert Compare(pdfItems, excelItems, scorer).results == head + tail;
    PdfResultsAt(pdf, excel, scorer);
    forall i | 0 <= i < |pdf| ensures head[i].pdfItem == Some(pdf[i].1) && head[i].status != Extra {
      PdfOutcomeSpec(pdf[i].0, pdf[i].1, excel, scorer);
    }
    ExtraResultsMembers(excel, matched);
    forall i | 0 <= i < |tail| ensures tail[i].status == Extra && tail[i].pdfItem.None? && tail[i].excelItem.Some? {
      assert tail[i] in tail;
    }
  }

  /** No two non-EXTRA results are for PDF items with the same normalised key. */
  lemma {:induction false} CompareOnePerKey(pdfItems: seq<TenderItem>, excelItems: seq<TenderItem>, scorer: Scorer)
    ensures var rs := Compare(pdfItems, excelItems, scorer).results;
            forall i, j :: 0 <= i < j < |rs| && rs[i].status != Extra && rs[j].status != Extra ==>
              rs[i].pdfItem.Some? && rs[j].pdfItem.Some? && NormKey(rs[i].pdfItem.value) != NormKey(rs[j].pdfItem.value)
  {
    var pdf := Index(pdfItems, NormKey);
    var rs := Compare(pdfItems, excelItems, scorer).results;
    CompareLayout(pdfItems, excelItems, scorer);
    IndexKeys(pdfItems, NormKey);
    forall i, j | 0 <= i < j < |rs| && rs[i].status != Extra && rs[j].status != Extra
      ensures rs[i].pdfItem.Some? && rs[j].pdfItem.Some? && NormKey(rs[i].pdfItem.value) != NormKey(rs[j].pdfItem.value)
    {
      assert j < |pdf|;
      assert NormKey(pdf[i].1) == pdf[i].0 && NormKey(pdf[j].1) == pdf[j].0;
    }
  }

  /** On any Excel dict whose entries are filed under their own keys, an entry is reported EXTRA exactly when its key was never matched. */
  lemma {:induction false} ExtrasExactly(pdf: Dict<TenderItem>, excel: Dict<TenderItem>, scorer: Scorer, keyOf: TenderItem -> string)
    requires forall i :: 0 <= i < |excel| ==> keyOf(excel[i].1) == excel[i].0
    ensures var matched := MatchedKeys(pdf, excel, scorer);
            var rs := PdfResults(pdf, excel, scorer) + ExtraResults(excel, matched);
            forall e :: 0 <= e < |excel| ==> (ExtraResult(excel[e].1) in rs <==> excel[e].0 !in matched)
  {
    var matched := MatchedKeys(pdf, excel, scorer);
    var head := PdfResults(pdf, excel, scorer);
    var tail := ExtraResults(excel, matched);
    ExtraResultsMembers(excel, matched);
    PdfResultsAt(pdf, excel, scorer);
    forall e | 0 <= e < |excel|
      ensures ExtraResult(excel[e].1) in head + tail <==> excel[e].0 !in matched
    {
      if ExtraResult(excel[e].1) in head + tail {
        if ExtraResult(excel[e].1) in head {
          var i :| 0 <= i < |head| && head[i] == ExtraResult(excel[e].1);
          PdfOutcomeSpec(pdf[i].0, pdf[i].1, excel, scorer);
        }
        assert ExtraResult(excel[e].1) in tail;
        var i :| 0 <= i < |excel| && excel[i].0 !in matched && ExtraResult(excel[e].1) == ExtraResult(excel[i].1);
        assert keyOf(excel[i].1) == excel[i].0 && keyOf(excel[e].1) == excel[e].0;
      }
    }
  }

  /**
   * An Excel entry gets an EXTRA result exactly when its key is not among
   * the matched keys (which `MatchedKeysMembers` characterises as the keys
   * some PDF entry was paired with).
   */
  lemma {:induction false} CompareExtras(pdfItems: seq<TenderItem>, excelItems: seq<TenderItem>, scorer: Scorer)
    ensures var pdf := Index(pdfItems, NormKey);
            var excel := Index(excelItems, NormKey);
            var matched := MatchedKeys(pdf, excel, scorer);
            var rs := Compare(pdfItems, excelItems, scorer).results;
            forall e :: 0 <= e < |excel| ==> (ExtraResult(excel[e].1) in rs <==> excel[e].0 !in matched)
  {
    var pdf := Index(pdfItems, NormKey);
    var excel := Index(excelItems, NormKey);
    assert Compare(pdfItems, excelItems, scorer).results
        == PdfResults(pdf, excel, scorer) + ExtraResults(excel, MatchedKeys(pdf, excel, scorer));
    IndexKeys(excelItems, NormKey);
    ExtrasExactly(pdf, excel, scorer, NormKey);
  }

  /** Two items with different keys are indexed in order. */
  lemma {:induction false} IndexPair(p1: TenderItem, p2: TenderItem, keyOf: TenderItem -> string)
    requires keyOf(p1) != keyOf(p2)
    ensures Index([p1, p2], keyOf) == [(keyOf(p1), p1), (keyOf(p2), p2)]
  {
    assert [p1, p2][..1] == [p1];
    IndexSingle(p1, keyOf);
  }

  lemma {:induction false} IndexSingle(p: TenderItem, keyOf: TenderItem -> string)
    ensures Index([p], keyOf) == [(keyOf(p), p)]
  {
    assert [p][..0] == [];
  }

  /**
   * Pairing is not one-to-one: the fuzzy search also ranges over Excel keys
   * that are already paired, so two PDF entries whose keys both score at
   * least the cutoff against the only Excel key are both paired with its item.
   */
  lemma {:induction false} FuzzySharesExcelItem(k1: string, p1: TenderItem, k2: string, p2: TenderItem, ke: string, e: TenderItem, scorer: Scorer)
    requires k1 != ke && k2 != ke
    requires scorer(k1, ke) >= Cutoff && scorer(k2, ke) >= Cutoff
    ensures var rs := PdfResults([(k1, p1), (k2, p2)], [(ke, e)], scorer);
            rs[0].excelItem == Some(e) && rs[1].excelItem == Some(e)
            && ke in MatchedKeys([(k1, p1), (k2, p2)], [(ke, e)], scorer)
  {
    var pdf := [(k1, p1), (k2, p2)];
    var excel := [(ke, e)];
    PdfResultsAt(pdf, excel, scorer);
    PdfOutcomeSpec(k1, p1, excel, scorer);
    PdfOutcomeSpec(k2, p2, excel, scorer);
    assert !HasKey(excel, k1) && !HasKey(excel, k2);
    MatchedKeysMembers(pdf, excel, scorer, ke);
  }

  /** The same, for `compare_items` on two PDF items and one Excel item whose normalised keys all differ. */
  lemma {:induction false} CompareNotOneToOne(p1: TenderItem, p2: TenderItem, e: TenderItem, scorer: Scorer)
    requires NormKey(p1) != NormKey(p2) && NormKey(p1) != NormKey(e) && NormKey(p2) != NormKey(e)
    requires scorer(NormKey(p1), NormKey(e)) >= Cutoff && scorer(NormKey(p2), NormKey(e)) >= Cutoff
    ensures var rs := Compare([p1, p2], [e], scorer).results;
            |rs| == 2 && rs[0].excelItem == Some(e) && rs[1].excelItem == Some(e)
  {
    var k1, k2, ke := NormKey(p1), NormKey(p2), NormKey(e);
    IndexPair(p1, p2, NormKey);
    IndexSingle(e, NormKey);
    FuzzySharesExcelItem(k1, p1, k2, p2, ke, e, scorer);
    var matched := MatchedKeys([(k1, p1), (k2, p2)], [(ke, e)], scorer);
    assert ExtraResults([(ke, e)], matched) == [] by {
      assert [(ke, e)][..0] == [];
    }
  }
}

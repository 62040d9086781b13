# Tender reconciliation core, in Dafny

This project models the reconciliation engine of a tool that checks a
Japanese public-works tender: the bill of quantities read from the PDF is
compared item by item with the estimate workbook, and the sub-tables
(`内N号` breakdowns), their titles, the management-fee rows and the cost tree
of the workbook are extracted and checked. The document libraries
(pdfplumber, pandas, openpyxl) are replaced by their output: a table is a
`seq<seq<Option<string>>>` of cells (`None` for an empty cell or NaN), and a
workbook sheet is a read-only function from row and column to a cell value
and its borders. Everything downstream of that is modelled: the sequential,
deterministic computations over rows, keys and trees.

One module per source file:

| module | file | form |
|---|---|---|
| `PdfParser`, `PdfTables`, `PdfNousei`, `PdfBlocks`, `RefNames` | server/services/pdf_parser.py | row predicates and keys as functions; the table loop, the header cache carried across tables and the 農政 sub-table block scanner as methods (`PdfTables.TableParser` is a class with the cached column maps as fields) |
| `Matcher` | server/services/matcher.py | `compare_items` as two loops proved equal to `Compare` |
| `Normalizer` | server/services/normalizer.py | pure functions |
| `TenderSchema` | server/schemas/tender.py | datatypes and the field dict |
| `ExcelParser` | server/services/excel_parser.py | cursor loops proved against scanning functions; stack build and pre-order flattening |
| `ExcelVerification`, `ExcelStack`, `ExcelBuild`, `ExcelHierarchy`, `ExcelAmounts`, `Nesting`, `Distinct` | excel_verification_api.py | logical rows, the stack of open items, the forest, the amount checks and the de-duplicated summary |
| `ExcelBorders`, `ExcelTables` | excel_table_extractor_corrected.py | border predicates, the hair-border row loop, table boundaries |
| `ExcelService`, `RefSearch` | server/services/excel_table_extractor_service.py | title filters, quantity parsing, reference search, look-ahead rows |
| `SubtablePdf`, `SubtablePdfScan` | subtable_pdf_extractor.py | the per-table row loop with its look-ahead |
| `ExcelSubtables` | excel_subtable_extractor.py | the data loop and the sheet cursor |
| `TableTitles` | table_title_extractor.py | title rows, table ends, the title priority |
| `TitleText`, `TitleComparator`, `TitleSummary` | subtable_title_comparator.py | string predicates, the key and the summary loops |
| `ManagementFees` | server/services/management_fee_extractor.py | header search, fee rows, the page loop |
| `ExtractionCache` | server/services/extraction_cache_service.py | a class over a map from session to entry |
| `RateLimiter` | server/helpers/rate_limiter.py | a class over the window store |
| `SpecExtractor`, `SpecTables` | server/services/spec_extractor.py | the article page map (a class) and the ■-row table filters |
| `TenderApi` | server/api/tender.py | request checks and result filters |
| `ExcelSubtableApi` | excel_subtable_api.py | per-sheet aggregation with the extractor as a parameter |
| `Wrappers`, `Text`, `Grid`, `Numbers`, `Sorting` | shared | Python's `str` builtins, cells, `float()` as a partial parser, a sort |

Where a plain reading of the system's intent and its code differ, the model
follows the code:

- a continuation row replaces the quantity of the previous item, and only
  when that quantity is not positive; it never adds
  (`PdfParser.MergeInto`, server/services/pdf_parser.py:508-520);
- matching is not one-to-one: several PDF items can be paired with one
  Excel item (`Matcher.FuzzySharesExcelItem`);
- `_normalize_text` is not idempotent (`Normalizer.NormalizeTextNotIdempotent`);
- the two hierarchy builders count levels differently: server/services/excel_parser.py
  counts every ideographic space of a name, excel_verification_api.py only
  the leading ones (`ExcelStack.LevelsDisagree`);
- the branch of `_extract_single_logical_row` that extends an item name from
  a continuation row (server/services/excel_parser.py:118-121) can never run, since a
  continuation row is one whose name reads blank (`ExcelParser.LogicalRowName`);
- the prefix literals of excel_subtable_api.py:89-105 are mis-encoded, so a
  real reference such as `内1号` is counted under "Other"
  (`ExcelSubtableApi.RefNameIsOther`).

Python's unbounded `int` is Dafny's `int`; quantities and amounts are
`real`, so binary floating point is not modelled.

## Model

| member | source | states |
|---|---|---|
| Matcher.Index | server/services/matcher.py:17-20 | the dict comprehension over the items has distinct keys |
| Matcher.IndexLastWins | server/services/matcher.py:17-20 | a key looked up in the dict gives the last item filed under it: for duplicate keys the last item wins |
| Matcher.IndexKeys | server/services/matcher.py:17-20 | every dict entry is filed under its own item's normalised key |
| Matcher.LastWithKeyNone | server/services/matcher.py:17-20 | no entry for a key exactly when no item has that key |
| Matcher.Keys | server/services/matcher.py:52 | `excel_normalized.keys()` lists the keys in insertion order |
| Matcher.ExtractOneSpec | server/services/matcher.py:50-55 | the fuzzy search finds nothing exactly when no Excel key scores at least the 80 cutoff; otherwise it returns the first key of highest score, with that score |
| Matcher.FuzzyKeyPresent | server/services/matcher.py:66 | a fuzzy hit is an Excel key, so `excel_normalized[excel_key]` cannot fail |
| Matcher.PdfResults | server/services/matcher.py:26-92 | the PDF loop yields exactly one result per distinct normalised PDF key |
| Matcher.PdfLoopStep | server/services/matcher.py:26-92 | one iteration appends that entry's result and adds its paired Excel key, if any, to `matched_excel_keys` |
| Matcher.ExtraLoopStep | server/services/matcher.py:95-103 | one iteration appends an EXTRA result exactly when the key was never matched |
| Matcher.ComparePdfEntries | server/services/matcher.py:25-92 | the PDF loop's results and matched keys equal their specification functions |
| Matcher.CollectExtras | server/services/matcher.py:94-103 | the Excel loop's results equal the EXTRA results of the unmatched keys, in dict order |
| Matcher.CompareItems | server/services/matcher.py:12-120 | the summary equals `Compare`: PDF results, then EXTRA results, then the counts |
| Matcher.PdfOutcomeSpec | server/services/matcher.py:28-92 | case by case: an exact hit pairs with confidence 1.0; MISSING exactly when there is no exact hit and no key scores 80 or more, with no Excel item, confidence 0.0 and no difference; a fuzzy pairing takes the best-scoring key with confidence score/100 in [0.8, 1]; OK exactly when the quantities differ by less than 0.001, otherwise QUANTITY_MISMATCH with difference Excel minus PDF |
| Matcher.PdfResultsAt | server/services/matcher.py:26-92 | the i-th result is the outcome of the i-th PDF entry |
| Matcher.MatchedKeysMembers | server/services/matcher.py:23-67 | a key is in `matched_excel_keys` exactly when some PDF entry was paired with it |
| Matcher.ExtraResultsMembers | server/services/matcher.py:95-103 | the EXTRA results are exactly those of the Excel entries whose key is not matched |
| Matcher.CompareCounts | server/services/matcher.py:106-120 | total_items is the length of results and equals matched + mismatches + missing + extra |
| Matcher.CompareLayout | server/services/matcher.py:26-103 | results list one non-EXTRA result per PDF dict entry, in dict order, then only EXTRA results, which have no PDF item and an Excel item |
| Matcher.CompareOnePerKey | server/services/matcher.py:17-26 | no two non-EXTRA results are for PDF items with the same normalised key |
| Matcher.ExtrasExactly | server/services/matcher.py:95-103 | on a dict filed by its own keys, an Excel entry has an EXTRA result exactly when its key was never matched |
| Matcher.CompareExtras | server/services/matcher.py:94-103 | the same for `compare_items`: an Excel item is reported EXTRA exactly when its key is unmatched |
| Matcher.IndexPair | server/services/matcher.py:17-20 | two items with different keys are indexed in order |
| Matcher.IndexSingle | server/services/matcher.py:17-20 | one item is indexed under its own key |
| Matcher.FuzzySharesExcelItem | server/services/matcher.py:50-67 | matching is not one-to-one: two PDF keys that both reach the cutoff against the only Excel key are both paired with that Excel item |
| Matcher.CompareNotOneToOne | server/services/matcher.py:12-92 | the same for `compare_items` on two PDF items and one Excel item with distinct normalised keys |
| TenderSchema.Get | server/services/pdf_parser.py:526-538 | `dict.get`: the value of the first entry with the key, None when there is none |
| TenderSchema.Put | server/services/pdf_parser.py:517-520 | `f[k] = v` replaces the value in place when the key is present and appends otherwise |
| TenderSchema.PutGet | server/services/pdf_parser.py:517-520 | after `f[k] = v`, `f[k]` is `v`, every other key keeps its value and keys stay distinct |
| TenderSchema.PutOther | server/services/pdf_parser.py:517-520 | `f[k] = v` leaves every other key's value alone |
| TenderSchema.PutFresh | server/services/pdf_parser.py:517-520 | setting an absent key makes it map to the new value |
| TenderSchema.GetSnoc | server/services/matcher.py:17-20 | looking a key up after appending an entry: the earlier entry wins |
| TenderSchema.CountStatus | server/services/matcher.py:107-111 | the number of results with a status is at most the number of results |
| TenderSchema.CountsPartition | server/schemas/tender.py:16-17 | every result has exactly one of the four statuses, so the four counts add up to the length |
| TenderSchema.CountStatusConcat | server/services/matcher.py:107-111 | counts over a concatenation add up |
| Normalizer.KeepIsNotSpace | server/services/normalizer.py:81-84 | no whitespace character is kept |
| Normalizer.ZenToHan | server/services/normalizer.py:74 | `jaconv.z2h(ascii, digit)` maps U+FF01–U+FF5E to U+0021–U+007E and U+3000 to a space, character by character, keeping the length |
| Normalizer.Fold | server/services/normalizer.py:74-77 | width folding then `lower()`, character by character, keeping the length |
| Normalizer.KeepOnly | server/services/normalizer.py:83-84 | `re.sub(r'[^\w…]', '', s)` is no longer than its input (what it keeps: `KeepOnlyChars`) |
| Normalizer.KeepOnlyChars | server/services/normalizer.py:83-84 | the kept characters, in order, and no more of them |
| Normalizer.Clean | server/services/normalizer.py:74-84 | folding, dropping whitespace and dropping every character outside the kept class |
| Normalizer.CleanChars | server/services/normalizer.py:74-84 | only kept characters come out, no upper-case ASCII letter |
| Normalizer.FoldIgnoresWidthAndCase | server/services/normalizer.py:74-77 | full-width spellings and upper-case ASCII fold to the same text as the plain spelling |
| Normalizer.CleanSettled | server/services/normalizer.py:74-84 | a text of settled characters is its own cleaned form |
| Normalizer.LeadingDigits | server/services/normalizer.py:88 | the length of the digit run a text starts with |
| Normalizer.TrailingDigits | server/services/normalizer.py:91 | the length of the digit run a text ends with |
| Normalizer.DropOrdinal | server/services/normalizer.py:88-95 | the result is a suffix of the input |
| Normalizer.DropOrdinalMatches | server/services/normalizer.py:88-95 | exactly the match of `^第\d+号` is removed when there is one, and the text is unchanged otherwise |
| Normalizer.DropSuffix | server/services/normalizer.py:89-95 | `当り$`/`当たり$`: the suffix is removed exactly when the text ends with it |
| Normalizer.TrailingDigitsMaximal | server/services/normalizer.py:91 | a digit run reaching the end lies within the trailing digits |
| Normalizer.DimensionSuffixShape | server/services/normalizer.py:91 | where a match of `\d+m\d*$` can start |
| Normalizer.DropDimension | server/services/normalizer.py:91-95 | the result is a prefix of the input |
| Normalizer.NoDimensionSuffix | server/services/normalizer.py:91 | when nothing is cut there is no match |
| Normalizer.DimensionCutLeftmost | server/services/normalizer.py:91 | a cut is at a match, and no match starts further left |
| Normalizer.DropDimensionMatches | server/services/normalizer.py:91-95 | the text is cut at the leftmost match of `\d+m\d*$`, and unchanged when there is none |
| Normalizer.Denoise | server/services/normalizer.py:87-95 | the four noise cuts, each once in order, never lengthen the text |
| Normalizer.NormalizeText | server/services/normalizer.py:63-97 | `_normalize_text`: an empty text gives "" (what survives: `NormalizeTextChars`) |
| Normalizer.NormalizeTextChars | server/services/normalizer.py:67-97 | the result has no whitespace, only kept characters and no upper-case ASCII letter, hence no `|` and no `:` |
| Normalizer.NormalizeTextIgnoresWidthAndCase | server/services/normalizer.py:74-77 | full-width forms and ASCII case do not change the normalised text |
| Normalizer.DropDimensionUnit | server/services/normalizer.py:91 | a one-digit dimension with `m` after a non-digit is cut off |
| Normalizer.DropDimensionNone | server/services/normalizer.py:91 | a text ending in neither a digit nor `m` has no dimension to cut |
| Normalizer.DenoiseDimension | server/services/normalizer.py:87-95 | on "word当り5m" only the dimension goes |
| Normalizer.DenoiseSuffix | server/services/normalizer.py:89-95 | on "word当り" the 当り goes |
| Normalizer.NormalizeTextSettled | server/services/normalizer.py:63-97 | for settled text, normalising is denoising |
| Normalizer.NormalizeTextNotIdempotent | server/services/normalizer.py:87-95 | `_normalize_text` is not idempotent: "x当り5m" becomes "x当り" and only a second pass gives "x" |
| Normalizer.NormalizeTextNoBar | server/services/normalizer.py:33-40 | no normalised value holds `|`, so the `|` of the joined key only separates parts |
| Normalizer.DenoisePlain | server/services/normalizer.py:87-95 | a lower-case ASCII word not ending in `m` matches none of the four noise patterns |
| Normalizer.NormalizeItem | server/services/normalizer.py:42-61 | empty gives empty; a key without `|` normalises as one text |
| Normalizer.NonEmptyNormalizedPieces | server/services/normalizer.py:52-57 | the kept pieces are non-empty normalised texts |
| Normalizer.NormalizeItemPieces | server/services/normalizer.py:50-58 | a `|`-separated key splits back into its non-empty normalised pieces, and is empty exactly when every piece normalises to nothing |
| Normalizer.PartsMoveFront | server/services/normalizer.py:26-38 | taking one field out of the dict keeps the other fields' parts |
| Normalizer.PartsPermutation | server/services/normalizer.py:26-38 | reordering the fields permutes the parts |
| Normalizer.PartsEmptyIff | server/services/normalizer.py:26-38 | there are no parts exactly when no value survives normalisation |
| Normalizer.NormalizeKeyOrderIndependent | server/services/normalizer.py:20-40 | a field dict gives the same key whatever order its entries come in |
| Normalizer.NormalizeKeySkipsEmpty | server/services/normalizer.py:27-28 | fields with an empty value take no part in the key |
| Normalizer.NormalizeKeySynonym | server/services/normalizer.py:31 | a field heading and its synonym give the same key |
| Normalizer.NormalizeKeyEmptyIff | server/services/normalizer.py:20-40 | the key is empty exactly when no field value survives normalisation |
| Normalizer.CommonCount | server/services/normalizer.py:118 | `sum(1 for c in a if c in b)` is at most the length of `a`, and equals it exactly when every character of `a` occurs in `b` |
| Normalizer.Similarity | server/services/normalizer.py:99-121 | the score lies in [0, 1]; it is 0.0 when either raw key is empty and 1.0 when the normalised keys are equal |
| Normalizer.Score | server/services/normalizer.py:110-121 | the score of two normalised keys lies in [0, 1] |
| Normalizer.Ratio | server/services/normalizer.py:119-121 | the share of common characters in the longer length lies in [0, 1] and is 1 exactly when all are common |
| Normalizer.SimilarityFull | server/services/normalizer.py:104-121 | the score is 1.0 exactly when both keys are given and they normalise alike, or every character of the first occurs in the second and the first is at least as long |
| Normalizer.SimilarityReflexive | server/services/normalizer.py:104-111 | a non-empty key scores 1.0 against itself; an empty key scores 0.0 |
| Normalizer.NormalizeTextPlain | server/services/normalizer.py:63-97 | a lower-case ASCII word not ending in `m` normalises to itself |
| Normalizer.NormalizeItemPlain | server/services/normalizer.py:42-61 | the same as an item key |
| Normalizer.NormalizeItemPair | server/services/normalizer.py:42-61 | two such letters normalise to themselves |
| Normalizer.SimilarityAsymmetric | server/services/normalizer.py:117-121 | the score is not symmetric: "xx" against "xy" scores 1.0, "xy" against "xx" scores 0.5 |
| Normalizer.ScoreAsymmetric | server/services/normalizer.py:117-121 | the same on normalised keys |
| Sorting.StrLeTotal | server/services/normalizer.py:40 | Python's string order is total |
| Sorting.StrLeAntisymmetric | server/services/normalizer.py:40 | and antisymmetric |
| Sorting.StrLeTransitive | server/services/normalizer.py:40 | and transitive |
| Sorting.InsertSpec | server/services/normalizer.py:40 | inserting into a sorted list keeps it sorted and adds exactly the element |
| Sorting.Sort | server/services/normalizer.py:40 | `sorted(s)` is sorted and a permutation of `s` |
| Sorting.SortedUnique | server/services/normalizer.py:40 | two sorted lists with the same elements are equal |
| Sorting.SortPermutation | server/services/normalizer.py:40 | `sorted` gives the same list for any ordering of its input |
| PdfParser.DropUntil | server/services/pdf_parser.py:620-637 | the text from the first character satisfying the test on: a suffix, starting with such a character, with none before it |
| PdfParser.TakeWhile | server/services/pdf_parser.py:620-637 | the longest prefix of characters satisfying the test |
| PdfParser.NumberFromText | server/services/pdf_parser.py:747-760 | `_extract_number_from_text` never gives a negative number |
| PdfParser.DigitsAfter | server/services/pdf_parser.py:685-709 | the digits after the first `lead` that a digit follows: a non-empty digit string |
| PdfParser.AdjacentCandidate | server/services/pdf_parser.py:682-709 | a neighbour of the 北上市 quantity cell read as a decimal part: a non-empty digit string |
| PdfParser.AdjacentDecimal | server/services/pdf_parser.py:675-712 | `_find_adjacent_decimal_part`, left neighbour first: a non-empty digit string |
| PdfParser.ParseNumberRun | server/services/pdf_parser.py:630-637 | a run of digits and dots never parses to a negative number |
| PdfParser.ExtractQuantityNonNegative | server/services/pdf_parser.py:620-637 | `_extract_quantity` never gives a negative quantity |
| PdfParser.KitakamiQuantityNonNegative | server/services/pdf_parser.py:639-673 | nor does `_extract_kitakami_quantity` |
| PdfParser.ExtractQuantityDigits | server/services/pdf_parser.py:620-637 | a run of digits reads as the number it spells, and commas are ignored: "1,234" is 1234 |
| PdfParser.ExtractQuantityDecimal | server/services/pdf_parser.py:620-637 | `_extract_quantity(str(n))` is `n` |
| PdfParser.RowFields | server/services/pdf_parser.py:463-475 | the raw fields of a row are stripped, non-empty texts of mapped columns |
| PdfParser.RowFieldsSingle | server/services/pdf_parser.py:463-475 | a one-cell row under a one-column map gives that cell's stripped text exactly when it has some |
| PdfParser.FirstNamed | server/services/pdf_parser.py:526-533 | the first non-empty value among the named key fields, tried in order; none when all are empty |
| PdfParser.FirstOther | server/services/pdf_parser.py:533-535 | the first non-empty value in insertion order whose field is not 単位/数量/単価/金額/規格; "" when there is none |
| PdfParser.AddMissingGet | server/services/pdf_parser.py:518-520 | after the merge, a field the item had keeps its value and a field it lacked takes the row's value |
| PdfParser.AddMissingPrefix | server/services/pdf_parser.py:518-520 | the item's own fields stay in place, in front |
| PdfParser.ItemKeyEmpty | server/services/pdf_parser.py:526-538 | for fields as a row yields them, the key is empty exactly when every field is 単位, 数量, 単価 or 金額 |
| PdfParser.ItemKeyJoinsSpec | server/services/pdf_parser.py:536-538 | with a base value and a 規格 value, the key is the two joined by one space |
| PdfParser.BaseKeyTrimmed | server/services/pdf_parser.py:526-538 | the base value carries no surrounding whitespace |
| PdfParser.StepShape | server/services/pdf_parser.py:434-461 | one row leaves the items unchanged (always for an empty row), appends one item with a non-empty key, or merges into the last item, which must have had quantity not above 0 and the row no identifying field |
| PdfParser.MergeIntoSpec | server/services/pdf_parser.py:508-520 | the merge sets the quantity (not adds), sets the unit only when the row has a 単位 field, keeps key, source, page and every field the item had, and adds the fields it lacked |
| PdfParser.StepPageItems | server/services/pdf_parser.py:434-461 | one row adds at most one item, and every item stays an item of the page with a key |
| PdfParser.RowItemsShape | server/services/pdf_parser.py:116-432 | a table yields at most one item per row, each with a key and the page number |
| PdfParser.QuantityFieldsNotIdentifying | server/services/pdf_parser.py:495-506 | 単位 and 数量 never identify an item |
| PdfParser.UnitOnlyRowMerges | server/services/pdf_parser.py:446 | a row with only a 単位 cell completes the previous item whose quantity is 0: its unit is set and nothing else changes (also lines 478-492, 508-520) |
| PdfParser.UnitOnlyRowFields | server/services/pdf_parser.py:463-493 | such a row yields just the 単位 field, quantity 0 and is classified as a merge |
| PdfParser.ZeroQuantityRowSkipped | server/services/pdf_parser.py:446-492 | a row with only a 数量 cell reading 0 is not continuation data and is skipped |
| PdfParser.ZeroQuantityRowFields | server/services/pdf_parser.py:463-493 | such a row is not blank, yields the 数量 field with quantity 0, and neither identifies an item nor carries quantity data |
| PdfParser.ZeroQuantityCell | server/services/pdf_parser.py:478-492 | its quantity is 0 and it has no unit |
| PdfParser.HeaderFrom | server/services/pdf_parser.py:540-545 | the first header-like row among the first ten, from a start row on |
| PdfParser.FindHeaderRow | server/services/pdf_parser.py:540-545 | nothing only for an empty table; the first of the first ten rows with a cell containing 名称/工種/数量/単位, else the first row at index 0 |
| PdfParser.DetectArea | server/services/pdf_parser.py:598-618 | the detected area is 北上市 or 農政, never the default |
| PdfParser.FindColumn | server/services/pdf_parser.py:547-577 | the first present, non-empty header cell that matches a column's patterns |
| PdfParser.FoundInWiden | server/services/pdf_parser.py:547-596 | a column found with earlier pattern sets is still found once one more set is tried |
| PdfParser.TentativeEntries | server/services/pdf_parser.py:563-577 | a pattern set's tentative map has distinct keys, each naming a matching header cell |
| PdfParser.ColumnMappingSpec | server/services/pdf_parser.py:547-596 | the map is empty exactly when no pattern set finds both 数量 and 単位; otherwise it holds both, for 農政 it always has 工種・種目, keys are distinct and every entry is a matching header cell or the defaulted 農政 column 0 |
| PdfParser.MappingFromSpec | server/services/pdf_parser.py:563-596 | the same over any list of pattern sets |
| PdfParser.MappingFromEmpty | server/services/pdf_parser.py:563-596 | the empty-map half of the above |
| PdfParser.MappingFromKeys | server/services/pdf_parser.py:563-596 | the keys half of the above |
| PdfParser.MappingFromFound | server/services/pdf_parser.py:563-596 | the provenance half of the above |
| PdfParser.ChosenMap | server/services/pdf_parser.py:587-596 | the map taken from a set that found 数量 and 単位, with 工種・種目 defaulted to column 0 for 農政 |
| PdfParser.DefaultNameColumn | server/services/pdf_parser.py:592-594 | defaulting the 農政 name column keeps the map's keys distinct and its other entries |
| RefNames.RefName | server/services/pdf_parser.py:1025 | a reference name starts with 内 and ends with 号 |
| RefNames.RefNum | subtable_title_comparator.py:577-580 | a text reads as a number exactly when it is one whole `内(\d+)号` |
| RefNames.RefNumName | subtable_title_comparator.py:577-580 | reading a generated reference name gives back its number |
| RefNames.RefNameInjective | server/services/pdf_parser.py:1025 | distinct numbers give distinct reference names |
| RefNames.LastMarked | table_title_extractor.py:71-79 | the index of the last cell carrying the marker, or -1 |
| RefNames.FindUnitPositions | table_title_extractor.py:71-79 | the loop records the last positions of 単位 and 単位数量 |
| PdfNousei.LeadingDots | server/services/pdf_parser.py:229-234 | the number of consecutive ・/･ a text starts with, counted as far as the run goes |
| PdfNousei.DotRunUnique | server/services/pdf_parser.py:229-234 | a text starts with exactly one maximal dot run |
| PdfNousei.IsMainMarkerSpec | server/services/pdf_parser.py:214-237 | `is_main_marker` holds exactly when the left-stripped text starts with a run of one to three dots (so never with ＊ or *) |
| PdfNousei.RunIsMarker | server/services/pdf_parser.py:214-237 | a run of one to three dots after the leading whitespace makes a main marker |
| PdfNousei.MarkerHasRun | server/services/pdf_parser.py:214-237 | a main marker starts, after whitespace, with one to three dots |
| PdfNousei.DottedCell | server/services/pdf_parser.py:320-327 | the first cell from a start on whose left-stripped text starts with a dot, none before it |
| PdfNousei.MarkerText | server/services/pdf_parser.py:239-262 | `_get_marker_text` is left-stripped, and starts with a dot exactly when some cell of the row does |
| PdfNousei.ItemRowMarker | server/services/pdf_parser.py:264-271 | a row becomes a main item exactly when its marker text starts with one to three dots |
| PdfNousei.LStripBlank | server/services/pdf_parser.py:283 | `lstrip(' \t　')` removes a prefix, and what remains starts with none of them |
| PdfNousei.DisplayName | server/services/pdf_parser.py:282-287 | the display name is a suffix of the name |
| PdfNousei.DisplayNameDropsMarker | server/services/pdf_parser.py:282-287 | a dot run, whitespace, then the name proper: the display name is the name proper |
| PdfNousei.LeadingDotsOfRun | server/services/pdf_parser.py:229-234 | a dot run followed by a non-dot counts exactly its length |
| PdfNousei.LStripBlankRun | server/services/pdf_parser.py:208-212 | left-stripping whitespace before a non-space gives the rest |
| PdfNousei.FieldCell | server/services/pdf_parser.py:275-277 | `get_cell` gives text only for a mapped column |
| PdfNousei.FirstCell | server/services/pdf_parser.py:320-360 | the first cell of a kind from a start on is a present cell |
| PdfNousei.FirstCellSpec | server/services/pdf_parser.py:329-360 | it is of the kind and none before it is; none when no cell from the start on is |
| PdfNousei.MainRows | server/services/pdf_parser.py:264-271 | a table has no more main rows than rows |
| PdfNousei.QuantityShapeValue | server/services/pdf_parser.py:313-317 | a text of shape `^\d+(?:\.\d+)?$` parses, as `float` does, to the value of its digits (also lines 373-378) |
| PdfNousei.QuantityShapeEnds | server/services/pdf_parser.py:313-317 | such a text starts and ends with a digit |
| PdfNousei.TripleNotMainKey | server/services/pdf_parser.py:396-402 | the `_is_triple_dot` flag is not one of the column fields |
| PdfNousei.FillKeys | server/services/pdf_parser.py:329-360 | the fill-ins keep the name field first and write only 規格, 単位 and 数量 |
| PdfNousei.ColumnFieldsKeys | server/services/pdf_parser.py:279-297 | the column fields start with the display name under 工種・種目 |
| PdfNousei.ColumnFieldsAmong | server/services/pdf_parser.py:279-297 | the column fields use only the name, 備考, 規格, 数量 and, when mapped, 単位 |
| PdfNousei.OptionalFieldAmong | server/services/pdf_parser.py:288-297 | an optional field is written under its own key, and only when its column is mapped |
| PdfNousei.MainRowFieldKeys | server/services/pdf_parser.py:279-360 | a main row's fields start with the display name of its marker text |
| PdfNousei.MakeMainItemSpec | server/services/pdf_parser.py:370-412 | the item is from the PDF on page+1, keeps the name field first, carries `_is_triple_dot` exactly when asked, and has a unit exactly when 単位 is non-empty |
| PdfNousei.FlagAppended | server/services/pdf_parser.py:396-402 | setting the flag appends it and leaves every other field alone |
| PdfNousei.MainRowItemSpec | server/services/pdf_parser.py:264-412 | a main row's item is from the PDF on its page, named by its marker text without the dots, flagged triple exactly when the marker starts with three dots, with a unit exactly when 単位 is non-empty |
| PdfNousei.TripleMarkerDots | server/services/pdf_parser.py:366-367 | a triple marker opens with at least three dots |
| PdfNousei.FilledUnit | server/services/pdf_parser.py:342-351 | with no 単位 yet, the fill-ins set it to the first unit word right of the dotted cell |
| PdfNousei.FillIfFresh | server/services/pdf_parser.py:329-360 | a fill-in sets a field that was absent |
| PdfNousei.FillIfOther | server/services/pdf_parser.py:329-360 | a fill-in leaves every other field alone |
| PdfNousei.ColumnFieldsNoUnit | server/services/pdf_parser.py:294-295 | without a 単位 column the column fields carry no 単位 |
| PdfNousei.UnitWordNonEmpty | server/services/pdf_parser.py:305-311 | every unit word is non-empty |
| PdfNousei.MakeMainItemUnit | server/services/pdf_parser.py:379 | a non-empty 単位 field becomes the item's unit |
| PdfNousei.MainRowUnitFill | server/services/pdf_parser.py:342-379 | with no 単位 column, a main item's unit is the first unit word right of the dotted cell |
| PdfNousei.MainRowsSpec | server/services/pdf_parser.py:263-271 | the main rows are exactly the rows that pass the marker test, in order |
| PdfNousei.ItemsSnoc | server/services/pdf_parser.py:263-412 | one more main row adds its item at the end |
| PdfNousei.NouseiItemsRows | server/services/pdf_parser.py:263-421 | the items are the main rows' items, one for one, in order |
| PdfBlocks.FirstTextIndex | server/services/pdf_parser.py:982-985 | the index of the first cell with text from a start on, none before it; none when there is no such cell |
| PdfBlocks.ExtractNouseiSubtables | server/services/pdf_parser.py:893-1042 | the reader's items equal `NouseiSubtables` of the pages and range |
| PdfBlocks.ReadTable | server/services/pdf_parser.py:910-918 | one table (passed over when it has fewer than two rows) advances the block state and items as `TableScan` does |
| PdfBlocks.ReadRow | server/services/pdf_parser.py:919-1037 | one row advances the block state and items as `StepRow` does |
| PdfBlocks.BlockItemShaped | server/services/pdf_parser.py:1022-1037 | a captured row's item carries the block's reference name in 参照番号 and as its reference number, and page+1 |
| PdfBlocks.AppendNumbered | server/services/pdf_parser.py:1022-1031 | appending an item of the current block or of the next one keeps the numbering |
| PdfBlocks.StepRowNumbered | server/services/pdf_parser.py:919-1037 | one row keeps the numbering invariant |
| PdfBlocks.StateNumbered | server/services/pdf_parser.py:933-960 | a state change that keeps the counter keeps the numbering |
| PdfBlocks.CaptureNumbered | server/services/pdf_parser.py:1022-1037 | capturing a row keeps the numbering |
| PdfBlocks.ActiveNumbered | server/services/pdf_parser.py:1022-1031 | activating the pending number and appending an item keeps the numbering |
| PdfBlocks.RowsScanNumbered | server/services/pdf_parser.py:918-1037 | the rows of a table keep the numbering |
| PdfBlocks.TablesScanNumbered | server/services/pdf_parser.py:909-918 | the tables of a page keep the numbering |
| PdfBlocks.PagesScanNumbered | server/services/pdf_parser.py:907-918 | the pages keep the numbering |
| PdfBlocks.NouseiSubtablesNumbered | server/services/pdf_parser.py:901-1037 | the items carry reference names 内N号 numbered from 1 with no gaps: each item is in the block of the one before it or in the next block |
| PdfBlocks.StepRowExtends | server/services/pdf_parser.py:919-1037 | one row adds at most one item, on its page, and keeps the earlier ones |
| PdfBlocks.CaptureExtends | server/services/pdf_parser.py:1022-1037 | the same for a captured row |
| PdfBlocks.RowsScanExtends | server/services/pdf_parser.py:918-1037 | a table's rows only append items of its page |
| PdfBlocks.ExtendsTrans | server/services/pdf_parser.py:907-1037 | two extensions in a row extend |
| PdfBlocks.ExtendsWiden | server/services/pdf_parser.py:907-1037 | an extension within a narrower page range is one within a wider range |
| PdfBlocks.TablesScanExtends | server/services/pdf_parser.py:909-918 | a page's tables only append items of that page |
| PdfBlocks.PagesScanExtends | server/services/pdf_parser.py:907-918 | pages s to p-1 only append items of those pages |
| PdfBlocks.NouseiSubtablesPages | server/services/pdf_parser.py:897-899 | every item lies on a page of the requested range, clamped to the document, numbered from 1 (also lines 1036-1037) |
| PdfTables.FirstMatchingCell | server/services/pdf_parser.py:566-577 | the innermost loop of `_get_column_mapping` finds the first matching header cell |
| PdfTables.TentativeMap | server/services/pdf_parser.py:563-577 | the tentative map of one pattern set, column by column |
| PdfTables.MappingOf | server/services/pdf_parser.py:563-596 | the loop over pattern sets returns the first tentative map with both 数量 and 単位 |
| PdfTables.GetColumnMapping | server/services/pdf_parser.py:547-596 | `_get_column_mapping` equals `ColumnMapping` of the header and area |
| PdfTables.CompletePrevious | server/services/pdf_parser.py:508-520 | a merge happens exactly when there is a last item whose quantity is not above 0; it replaces only that item by the merged one, and otherwise nothing changes |
| PdfTables.ProcessRow | server/services/pdf_parser.py:434-461 | the row's outcome is its classification; only a merge changes the items, and a created item is appended by the caller, as `Step` says |
| PdfTables.StepMerged | server/services/pdf_parser.py:455-457 | a merged row replaces the last item by its merge with the row's fields and quantity |
| PdfTables.SplitHeaderFrom | server/services/pdf_parser.py:147-156 | the first row from a start, before a limit, with both 単位 and 数量 after squashing |
| PdfTables.FallbackArea | server/services/pdf_parser.py:169-175 | the fallback area is neither 農政 nor the area itself |
| PdfTables.TableOutcome | server/services/pdf_parser.py:119-120 | a table of fewer than two rows yields nothing and changes nothing |
| PdfTables.OnPage | server/services/pdf_parser.py:102-114 | the tables of one page, each placed on that page |
| PdfTables.NouseiRowItems | server/services/pdf_parser.py:263-421 | the 農政 row loop yields `NouseiItems` of the table |
| PdfTables.ProcessRows | server/services/pdf_parser.py:422-432 | the other areas' row loop yields `RowItems` of the data rows |
| PdfTables.NouseiItemsSnoc | server/services/pdf_parser.py:263-421 | one more row adds its item exactly when it is a main row |
| PdfTables.RowItemsSnoc | server/services/pdf_parser.py:422-432 | one more row takes one `Step` |
| PdfTables.OutcomeByPlan | server/services/pdf_parser.py:116-432 | a table's outcome is its plan's items and the caches after it |
| PdfTables.MappingComplete | server/services/pdf_parser.py:563-596 | a non-empty column map has 数量 and 単位, and for 農政 also 工種・種目 |
| PdfTables.RescanSpec | server/services/pdf_parser.py:142-160 | the 農政 rescan keeps the header a row of the table and either keeps the map or maps that row as 農政 |
| PdfTables.PlanFromSpec | server/services/pdf_parser.py:162-180 | after the fallbacks a plan has a non-empty map, complete outside 農政, with 工種・種目 for 農政 |
| PdfTables.TablePlanSpec | server/services/pdf_parser.py:122-180 | every plan reads a table through a non-empty map; outside 農政 it has 数量 and 単位 and is what the plan's area gives for the header row |
| PdfTables.PlanItemsSpec | server/services/pdf_parser.py:263-432 | a plan's items come from the PDF and carry the page's number |
| PdfTables.NextCachesSpec | server/services/pdf_parser.py:182-200 | only a complete 農政 map is cached globally, and a cached map is never replaced |
| PdfTables.TableOutcomeSpec | server/services/pdf_parser.py:116-432 | one table keeps the caches well formed, never replaces the global map, and yields PDF items of its own page |
| PdfTables.OutcomeSpec | server/services/pdf_parser.py:102-114 | placed tables in turn: the same, each item on its table's page |
| PdfTables.PageOutcomeSpec | server/services/pdf_parser.py:102-114 | the tables of a page in turn: items of that page |
| PdfTables.PlacementsPages | server/services/pdf_parser.py:87-94 | every table of pages s to p-1 is placed on one of them |
| PdfTables.PagesOutcomeSpec | server/services/pdf_parser.py:87-94 | pages s to p-1: every item carries one of their page numbers |
| PdfTables.RangeOutcomeSpec | server/services/pdf_parser.py:53-100 | every item is from the PDF with a page number within both the requested range and the document; an empty range yields nothing and changes nothing |
| PdfTables.FoldSnoc | server/services/pdf_parser.py:107-109 | one more table adds its own items after the earlier ones |
| PdfTables.FoldAppend | server/services/pdf_parser.py:107-109 | reading `a` then `b` is reading `a + b` |
| PdfTables.PlacementsSplit | server/services/pdf_parser.py:87-94 | the first p pages' tables begin the first q pages' tables |
| PdfTables.PagesOutcomePrefix | server/services/pdf_parser.py:87-118 | items once produced are never changed by later pages: a continuation row never merges across tables |
| PdfTables.PageOutcomePrefix | server/services/pdf_parser.py:107-118 | within a page, the first k tables' items begin the page's items |
| PdfTables.RescanHeader | server/services/pdf_parser.py:142-160 | the rescan method equals `Rescan` |
| PdfTables.FindSplitHeader | server/services/pdf_parser.py:147-156 | the scan of the first six rows finds the first split header row |
| PdfTables.FinishPlan | server/services/pdf_parser.py:162-180 | the fallback step equals `PlanFrom` |
| PdfTables.TableParser.constructor | server/services/pdf_parser.py:19-51 | a new parser has neither cached map set |
| PdfTables.TableParser.PlanTable | server/services/pdf_parser.py:121-200 | the first half of `_process_single_table` equals `TablePlan` |
| PdfTables.TableParser.ProcessSingleTable | server/services/pdf_parser.py:116-432 | the items and the parser's new fields equal `TableOutcome` of the old fields |
| PdfTables.TableParser.RememberColumns | server/services/pdf_parser.py:182-200 | a complete 農政 map is cached when none is, and every 農政 map is remembered as the last one |
| PdfTables.TableParser.ExtractTablesFromPage | server/services/pdf_parser.py:102-114 | the page's items and new fields equal `PageOutcome` |
| PdfTables.TableParser.ReadNext | server/services/pdf_parser.py:107-109 | one more table's items follow the earlier ones |
| PdfTables.TableParser.ExtractTablesWithRange | server/services/pdf_parser.py:53-100 | the items and new fields equal `RangeOutcome` of the old fields |
| PdfTables.TableParser.ReadPage | server/services/pdf_parser.py:87-94 | one more page's items follow the earlier ones |
| Nesting.NearestBelow | server/services/excel_parser.py:203-204 | the stack search for a smaller level ends at an earlier item |
| Nesting.ParentOf | server/services/excel_parser.py:202-213 | an item's parent comes before it |
| Nesting.NearestBelowSpec | server/services/excel_parser.py:203-204 | the search finds an item of smaller level with none of smaller level after it, or there is none at all |
| Nesting.ParentOfSpec | server/services/excel_parser.py:202-213 | an item's parent is an earlier item of smaller level with no item of a level at most its own in between; an item without parent has no earlier item of smaller level |
| Nesting.SkipHigher | server/services/excel_parser.py:203-204 | items of level at least `v` do not change where the search ends |
| Nesting.PopJump | server/services/excel_parser.py:203-204 | popping an entry not below `v` moves the search to that entry's own parent |
| Nesting.Chain | server/services/excel_parser.py:213 | the stack after item k is pushed has k on top |
| ExcelParser.SheetOfReadings | server/services/excel_parser.py:60-67 | a frame's cells are read consistently with and without `preserve_spaces` |
| ExcelParser.CountChar | server/services/excel_parser.py:69-74 | `text.count(ch)` is at most the length |
| ExcelParser.CountCharConcat | server/services/excel_parser.py:69-74 | counts over a concatenation add up |
| ExcelParser.LevelCountsEverySpace | server/services/excel_parser.py:69-74 | every U+3000 in the name adds one level, not only the leading ones |
| ExcelParser.LevelZeroIffNoIndent | server/services/excel_parser.py:69-74 | a name is at level 0 exactly when it holds no U+3000 |
| ExcelParser.BlockEnd | server/services/excel_parser.py:98-125 | the row where absorption stops lies between the start and the frame's end |
| ExcelParser.ExtractSingleLogicalRow | server/services/excel_parser.py:76-143 | the method equals `SingleLogicalRow` of the frame at the start row |
| ExcelParser.ReadingsNames | server/services/excel_parser.py:103-118 | a continuation row's name is blank however it is read |
| ExcelParser.BlockEndContinues | server/services/excel_parser.py:102-125 | every row before the block end has a blank name and is absorbed |
| ExcelParser.AbsorbKeepsName | server/services/excel_parser.py:117-121 | absorbing continuation rows never changes the name: the extension branch is dead |
| ExcelParser.LogicalRowName | server/services/excel_parser.py:76-143 | a logical row exists exactly when the frame has columns 1 to 6; its name is the start row's name stripped, and its level counts the U+3000s in it |
| ExcelParser.AbsorbFields | server/services/excel_parser.py:105-115 | each absorbed field is the first non-empty value of its column from the start row on |
| ExcelParser.LogicalRowFields | server/services/excel_parser.py:82-125 | unit, quantity, unit price, amount and notes are each the first non-empty value of their column over the start row and its continuation rows; notes are empty without column 7 |
| ExcelParser.RowStart | server/services/excel_parser.py:150-181 | what a row adds to the scan is a kept logical row or nothing |
| ExcelParser.ThenEmpty | server/services/excel_parser.py:145-183 | appending to nothing gives the rest |
| ExcelParser.ThenPrepend | server/services/excel_parser.py:145-183 | moving one row to the collected part keeps the whole |
| ExcelParser.ExtractLogicalRows | server/services/excel_parser.py:145-183 | the row loop equals `Scan` of the frame from row 0 |
| ExcelParser.ScanSpec | server/services/excel_parser.py:150-183 | the scan fails exactly when the frame has no name column and some row from the start on is not all NaN |
| ExcelParser.ScanLength | server/services/excel_parser.py:150-183 | at most one logical row per sheet row |
| ExcelParser.ScanKept | server/services/excel_parser.py:173-178 | every logical row of the scan has a non-empty name free of 費内訳書/費目/工種/種別/細別/規格 |
| ExcelParser.AllKeptCons | server/services/excel_parser.py:173-178 | a kept row in front of kept rows |
| ExcelParser.Levels | server/services/excel_parser.py:198 | the levels of the logical rows, one for one |
| ExcelParser.ParentOf | server/services/excel_parser.py:202-213 | the parent the stack offers comes before the row |
| ExcelParser.ParentOfSpec | server/services/excel_parser.py:202-213 | a row's parent is the nearest earlier row of strictly smaller level; a row without parent has no earlier row of smaller level |
| ExcelParser.PopToParent | server/services/excel_parser.py:203-204 | the pop loop empties the stack exactly when the row has no parent, and otherwise leaves the parent's ancestor chain |
| ExcelParser.BuildHierarchy | server/services/excel_parser.py:185-215 | one parent entry per row, each the row's `ParentOf` |
| ExcelParser.Parents | server/services/excel_parser.py:185-215 | one parent entry per row |
| ExcelParser.ExtractHierarchicalData | server/services/excel_parser.py:29-58 | the method equals `HierarchicalData` of the frame |
| ExcelParser.ThenCat | server/services/excel_parser.py:265-267 | extending the flat list keeps the whole |
| ExcelParser.FlattenRoots | server/services/excel_parser.py:264-273 | the flattening loop gives the flattened forest, or nothing when a quantity fails to parse |
| ExcelParser.ExtractItemsFromSheet | server/services/excel_parser.py:235-273 | the method equals `SheetItems` of the frame |
| ExcelHierarchy.PreorderCons | server/services/excel_parser.py:275-296 | the pre-order of a forest is its first tree's then the rest's |
| ExcelHierarchy.SpanEnd | server/services/excel_parser.py:185-215 | the end of a row's subtree search lies in range |
| ExcelHierarchy.End | server/services/excel_parser.py:185-215 | a row's subtree ends after it |
| ExcelHierarchy.SpanEndSpec | server/services/excel_parser.py:185-215 | rows up to the end are deeper than the row, and the row at the end is not |
| ExcelHierarchy.SpanEndFirst | server/services/excel_parser.py:185-215 | the end is the first row not deeper |
| ExcelHierarchy.ParentInsideSpan | server/services/excel_parser.py:202-213 | rows of a subtree have their parent inside it |
| ExcelHierarchy.NoChildBeyondSpan | server/services/excel_parser.py:202-213 | no row after a subtree is a child of its root |
| ExcelHierarchy.BoundaryIsChild | server/services/excel_parser.py:202-213 | a row of the subtree that no earlier row undercuts is a child of the root |
| ExcelHierarchy.ChildSpanWithin | server/services/excel_parser.py:202-213 | a child's subtree ends no later than its parent's |
| ExcelHierarchy.SkipSubtrees | server/services/excel_parser.py:202-213 | rows that are not children do not change the children found |
| ExcelHierarchy.SkipRoots | server/services/excel_parser.py:209-211 | rows with parents do not change the roots found |
| ExcelHierarchy.SkipDescendants | server/services/excel_parser.py:202-213 | a child's descendants are skipped by the search for further children |
| ExcelHierarchy.SkipDescendantRoots | server/services/excel_parser.py:209-211 | a root's descendants are skipped by the search for further roots |
| ExcelHierarchy.NextBoundary | server/services/excel_parser.py:202-213 | the row ending a subtree is undercut by none before it |
| ExcelHierarchy.TreePreorder | server/services/excel_parser.py:185-215 | the tree of a row holds exactly the rows of its span, in sheet order |
| ExcelHierarchy.SubtreesPreorder | server/services/excel_parser.py:185-215 | the children of a row from a boundary on hold the rest of its span |
| ExcelHierarchy.RootsPreorder | server/services/excel_parser.py:185-215 | the top-level trees from a boundary on hold the rest of the rows |
| ExcelHierarchy.HierarchyKeepsRows | server/services/excel_parser.py:185-215 | the hierarchy loses no row, repeats none and keeps their order: the forest in pre-order is the list of logical rows |
| ExcelHierarchy.HierarchicalDataKeepsRows | server/services/excel_parser.py:29-58 | `extract_hierarchical_data` succeeds exactly when the scan does, and its pre-order is the scan's rows |
| ExcelHierarchy.MatchesConcat | server/services/excel_parser.py:275-296 | flat items matching two lists of rows match their concatenation |
| ExcelHierarchy.AllParseConcat | server/services/excel_parser.py:282 | every quantity of a concatenation parses exactly when both halves' do |
| ExcelHierarchy.FlatOfParses | server/services/excel_parser.py:280-289 | a flat item exists exactly when the quantity is empty or parses, and has the given level |
| ExcelHierarchy.FlattenNode | server/services/excel_parser.py:275-296 | flattening a tree fails exactly when one of its quantities does not parse; otherwise one item per row in pre-order, the root at `level` and every child one level deeper |
| ExcelHierarchy.FlattenForest | server/services/excel_parser.py:264-296 | the same for a forest |
| ExcelHierarchy.MatchesLower | server/services/excel_parser.py:275-296 | matching at a level implies matching one level up |
| ExcelHierarchy.SheetItemsAreRows | server/services/excel_parser.py:235-296 | the items are the sheet's logical rows, one each and in sheet order; nothing when the sheet has no name column or some quantity does not parse |
| ExcelVerification.SingleLogicalRow | excel_verification_api.py:201-297 | no logical row exactly past the end or at an empty row; otherwise it starts at the row and spans it or the next one, inside the sheet |
| ExcelVerification.MergeRule | excel_verification_api.py:225-276 | a named row merges with the row below exactly when that row carries a figure or a non-blank name; the merged name starts with the first name, and each non-empty field of the second row wins |
| ExcelVerification.FilledTexts | excel_verification_api.py:118-121 | at most one text per column read |
| ExcelVerification.NextHeader | excel_verification_api.py:109-116 | the next header row lies at or after the start, inside the sheet |
| ExcelVerification.NextHeaderSpec | excel_verification_api.py:109-116 | the next header row is one, with no header row between the start and it; without one, no row from the start on is a header row |
| ExcelVerification.FindNextHeaderRow | excel_verification_api.py:109-116 | the loop equals `NextHeader` |
| ExcelVerification.ScannerOfSound | excel_verification_api.py:172-199 | the sheet's row readers satisfy the bounds the scan relies on |
| ExcelVerification.ScanRows | excel_verification_api.py:172-199 | the cursor loop equals `Scan` from the start row |
| ExcelVerification.ExtractLogicalRows | excel_verification_api.py:172-199 | the method equals `Rows` of the sheet below the header |
| ExcelVerification.ScanOrdered | excel_verification_api.py:176-197 | the scan's rows start at or after the cursor, are each read by the row reader at their start, never at a table number row, and do not overlap |
| ExcelVerification.JumpOrdered | excel_verification_api.py:177-197 | a cursor that only jumps past a table number row and header, or past an empty row, keeps that order |
| ExcelVerification.RowsOrdered | excel_verification_api.py:172-199 | the logical rows lie below the header in sheet order without overlapping; each is the row `_extract_single_logical_row` reads at its start, which is no table number row |
| ExcelVerification.OrderedCons | excel_verification_api.py:191-195 | a row read at or after the cursor in front of ordered rows after it |
| ExcelStack.LeadingLevel | excel_verification_api.py:354-366 | the level is the number of U+3000s the name starts with |
| ExcelStack.LevelsDisagree | excel_verification_api.py:354-366 | on a name with an inner U+3000 this level and the one of `excel_parser.py` differ |
| ExcelStack.FindParent | excel_verification_api.py:368-377 | the search from the top finds a slot holding an item of smaller level, or a `None` slot, with every slot above passed over; or it passes over every slot |
| ExcelStack.Updated | excel_verification_api.py:379-387 | the stack after an update has the item at slot `level`, the slots below kept and padded with `None`, nothing above |
| ExcelStack.UpdateStack | excel_verification_api.py:379-387 | the in-place update leaves the list equal to `Updated` |
| ExcelStack.Step | excel_verification_api.py:322-350 | one more item adds one parent entry and keeps the earlier ones and the stack's range |
| ExcelStack.Run | excel_verification_api.py:313-352 | a build that does not raise has one parent entry per item |
| ExcelStack.RunParentsEarlier | excel_verification_api.py:313-352 | every recorded parent is an earlier item of smaller level |
| ExcelStack.StepParentEarlier | excel_verification_api.py:340-346 | the parent one step records is an earlier item of smaller level |
| ExcelStack.ParentsEarlierSnoc | excel_verification_api.py:313-352 | the property extends from a prefix to one more item |
| ExcelStack.NearestBelowPrefix | excel_verification_api.py:368-377 | the search reads the items before it only |
| ExcelStack.ChainParent | excel_verification_api.py:368-377 | on a stack holding the chain of nearest ancestors, the search finds the nearest earlier item of smaller level |
| ExcelStack.ChainPush | excel_verification_api.py:379-387 | pushing an item no deeper than the stack keeps the chain |
| ExcelStack.ChainStep | excel_verification_api.py:322-350 | on well-indented levels a step does not raise, keeps the chain and records the nearest earlier item of smaller level |
| ExcelStack.PrefixFindParent | excel_verification_api.py:368-377 | the search reads only the levels of items on the stack, all earlier ones |
| ExcelStack.FindParentLevels | excel_verification_api.py:368-377 | two level lists agreeing on the stacked items give the same search |
| ExcelStack.ParentOfPrefix | excel_verification_api.py:368-377 | an item's parent depends only on the items up to it |
| ExcelStack.RunKeepsParents | excel_verification_api.py:313-352 | one more item leaves the parents found so far alone |
| ExcelStack.WellIndentedPrefix | excel_verification_api.py:313-352 | well-indentedness holds for every prefix |
| ExcelStack.WellIndentedParents | excel_verification_api.py:313-387 | on levels that grow by at most one, the build never raises and every item's parent is the nearest earlier item of smaller level |
| ExcelStack.SkippedLevelFails | excel_verification_api.py:379-387 | levels 0, 2, 1 make the build raise on the `None` slot the update padded |
| ExcelBuild.LastNaming | excel_verification_api.py:139-157 | the column a role takes is the last header cell naming it, or none names it |
| ExcelBuild.AmountColumnChosen | excel_verification_api.py:139-170 | the amount column is the last header cell holding 金額 and none of the words checked before it, or column 6 without one |
| ExcelBuild.Named | excel_verification_api.py:318-321 | no more items than rows |
| ExcelBuild.NamedLevels | excel_verification_api.py:318-323 | every kept item has a non-empty name and the level of its leading U+3000s |
| ExcelBuild.Levels | excel_verification_api.py:323 | the items' levels, one for one |
| ExcelBuild.Hierarchy | excel_verification_api.py:313-352 | a build that does not raise is a forest whose items are the named rows |
| ExcelBuild.RunStaysFailed | excel_verification_api.py:313-352 | once the build has raised, more rows do not bring it back |
| ExcelBuild.NamedStep | excel_verification_api.py:318-321 | one more row adds its item exactly when it has a name |
| ExcelBuild.NamedPrefix | excel_verification_api.py:318-321 | the items of a prefix of rows come first |
| ExcelBuild.RunAppend | excel_verification_api.py:313-352 | one more item is one more step |
| ExcelBuild.BuildFails | excel_verification_api.py:313-352 | a build that raised on a prefix raises on all rows |
| ExcelBuild.BuildHierarchy | excel_verification_api.py:313-352 | the row loop equals `Hierarchy` |
| ExcelBuild.ChildrenFrom | excel_verification_api.py:346 | every child listed is a later item whose parent is the given one |
| ExcelBuild.ChildrenFromComplete | excel_verification_api.py:346 | every later item whose parent is the given one is listed |
| ExcelBuild.ChildrenFromOrdered | excel_verification_api.py:346 | children are listed in the order they were appended |
| ExcelBuild.Children | excel_verification_api.py:346 | an item's children come after it and have it as parent |
| ExcelBuild.ChildrenComplete | excel_verification_api.py:346 | every item whose parent is `i` is among `i`'s children |
| ExcelBuild.Tree | excel_verification_api.py:26-40 | the tree of an item carries its fields and level and one subtree per child (also line 346) |
| ExcelBuild.RootsFrom | excel_verification_api.py:336-343 | the roots listed are exactly the items without a parent |
| ExcelBuild.RootTrees | excel_verification_api.py:336-343 | one tree per root |
| ExcelBuild.WellIndentedBuild | excel_verification_api.py:313-387 | on a well-indented sheet the build succeeds and every item's parent is the nearest earlier item of smaller level |
| ExcelStack.RepairedFindParent | excel_verification_api.py:368-377 | the parent search with `None` slots passed over: it never raises; a parent found is the topmost item of a smaller level, and with none found every item on the stack has a level at least as great |
| ExcelStack.RepairedStep | excel_verification_api.py:338-350 | one item of the repaired build adds exactly one parent entry and keeps the earlier ones |
| ExcelStack.RepairedRun | excel_verification_api.py:313-352 | the repaired build always completes, with one parent entry per item |
| ExcelStack.RepairedFindParentAgrees | excel_verification_api.py:368-377 | wherever the search as written meets no `None` slot, the repaired search gives the same answer |
| ExcelStack.RepairedRunAgrees | excel_verification_api.py:313-387 | wherever the build as written completes, the repaired build gives the same stack and parents |
| ExcelStack.RepairedStepParentEarlier | excel_verification_api.py:338-350 | the parent one repaired step records is an earlier item of a smaller level |
| ExcelStack.RepairedRunParentsEarlier | excel_verification_api.py:313-387 | on every sheet, skipped levels included, each recorded parent is an earlier item of a smaller level |
| ExcelStack.SkippedLevelRepaired | excel_verification_api.py:379-387 | on levels 0, 2, 1, where the build as written raises, the repaired build puts both later items under the first |
| ExcelBuild.RepairedHierarchy | excel_verification_api.py:313-352 | the repaired build is always a forest whose items are the named rows |
| ExcelBuild.RepairedHierarchyAgrees | excel_verification_api.py:313-387 | wherever the build as written completes, the repaired build gives the same forest |
| ExcelAmounts.RemoveCommasConcat | excel_verification_api.py:418-419 | removing commas distributes over concatenation |
| ExcelAmounts.RemoveOneComma | excel_verification_api.py:418-419 | one comma more or less does not change the text with commas removed |
| ExcelAmounts.CommasIgnored | excel_verification_api.py:417-421 | a thousands separator anywhere in a non-empty amount is ignored |
| ExcelAmounts.NoCommas | excel_verification_api.py:418-419 | digits hold no comma to remove |
| ExcelAmounts.AmountOfDigits | excel_verification_api.py:417-421 | the decimal digits of a whole number read back as that number |
| ExcelAmounts.FirstNamed | excel_verification_api.py:701-708 | the first root from a position on with a given name, or none has it |
| ExcelAmounts.FirstTop | excel_verification_api.py:711-750 | the first level-0 root from a position on with a given name, or none is one |
| ExcelAmounts.RootCheckSpec | excel_verification_api.py:412-482 | exactly the level-0 roots get a check; it matches exactly when the difference, actual less expected, is within 0.01; the tax line and an ordinary childless root always match; an ordinary root with children is checked against their sum |
| ExcelAmounts.DirectCostLooksBack | excel_verification_api.py:629-656 | what the direct cost is checked against does not depend on the roots after it |
| ExcelAmounts.FirstTopPrefix | excel_verification_api.py:711-715 | a first match found in a prefix stays first |
| ExcelAmounts.TopSumPrefix | excel_verification_api.py:752-763 | a sum over roots before `j` does not depend on those after |
| ExcelAmounts.TopSumSkip | excel_verification_api.py:717-727 | leaving out the one direct cost takes exactly its amount off the sum |
| ExcelAmounts.TopSumSkipNone | excel_verification_api.py:717-727 | leaving out a name no root has changes nothing |
| ExcelAmounts.NetCostCountsDirectOnce | excel_verification_api.py:697-727 | with one level-0 direct cost before the net cost, the net cost is checked against the sum of all level-0 roots before it, the direct cost counted once |
| ExcelAmounts.LastNamed | excel_verification_api.py:683-695 | the scan keeps the last root of each name before the bound |
| ExcelAmounts.BusinessLogic | excel_verification_api.py:666-799 | the business check raises exactly when one of its three checks raises, and passes exactly when all three pass |
| ExcelAmounts.NoBusinessItems | excel_verification_api.py:666-799 | a sheet with none of 純工事費, 直接工事費 and 工事原価 passes |
| ExcelAmounts.ExtendsTrans | excel_verification_api.py:803-865 | the records kept only grow |
| ExcelAmounts.RecordFor | excel_verification_api.py:846-862 | a record carries the `item_name` key exactly when it is out of tolerance, that is, exactly when it is a mismatch |
| ExcelAmounts.AddRecord | excel_verification_api.py:841-863 | a record added on the side its tolerance test picks keeps both lists sorted by that test and extends them |
| ExcelAmounts.VerifyItemSorted | excel_verification_api.py:806-865 | every record the recursion writes is on its tolerance side, and the lists only grow |
| ExcelAmounts.VerifyChildrenSorted | excel_verification_api.py:827-839 | the same over the children loop |
| ExcelAmounts.VerifyAllSorted | excel_verification_api.py:867-869 | the same over the roots |
| ExcelAmounts.KeyCharAt | excel_verification_api.py:951 | the characters of the path key `path_level` |
| ExcelAmounts.DigitNotUnderscore | excel_verification_api.py:951 | the digits of a level hold no underscore |
| ExcelAmounts.UnderscoreSplit | excel_verification_api.py:951 | two keys built alike split at their last underscore into digits of the same length |
| ExcelAmounts.KeyInjective | excel_verification_api.py:951 | the same key means the same path and level |
| ExcelAmounts.Dedup | excel_verification_api.py:947-954 | the records kept have keys not seen before, come from the input, and have pairwise distinct keys |
| ExcelAmounts.DedupKeys | excel_verification_api.py:947-954 | exactly the keys not yet seen survive |
| ExcelAmounts.DedupKeepsFirst | excel_verification_api.py:950-954 | the first record of each new key is kept |
| ExcelAmounts.Deduplicate | excel_verification_api.py:947-954 | the loop over `all_mismatches` with `seen_paths` equals `Dedup` from the empty set |
| ExcelAmounts.CountTop | excel_verification_api.py:927 | the level-0 roots among the first `i` are at most `i` |
| ExcelAmounts.SummaryCounts | excel_verification_api.py:885-981 | a successful summary reports each mismatched path and level once, with the keys of both checks' mismatches all present, and verified plus mismatched is the level-0 count; a failed one is the empty failure |
| ExcelAmounts.OneChildRecursive | excel_verification_api.py:806-865 | a root with one childless child gives one record, on the side its tolerance test picks |
| ExcelAmounts.VerifiedCanBeNegative | excel_verification_api.py:927-959 | an indented root whose only child does not add up gives `verified_items` of -1: nested mismatches are taken off a count of level-0 roots |
| ExcelAmounts.RepairedVerifyFileAgrees | excel_verification_api.py:885-981 | the verification with the repaired build agrees with the one as written on every sheet whose build completes, and a failed one reports nothing |
| ExcelBorders.CollapseSingleSpaced | excel_table_extractor_corrected.py:57 | collapsing whitespace runs leaves single plain spaces, brings in no U+200B and starts with whitespace exactly when the input does |
| ExcelBorders.LStripUnspaced | excel_table_extractor_corrected.py:57 | a text not starting with whitespace is its own left strip |
| ExcelBorders.CollapseSingleSpacedFixed | excel_table_extractor_corrected.py:57 | collapsing a single-spaced text changes nothing |
| ExcelBorders.SingleSpacedOnlySpace | excel_table_extractor_corrected.py:57 | a single-spaced text holds no whitespace but the plain space |
| ExcelBorders.ReplaceCharChars | excel_table_extractor_corrected.py:47-54 | replacing a character by at most one other leaves none of it and invents nothing |
| ExcelBorders.SingleSpacedSuffix | excel_table_extractor_corrected.py:57 | suffixes of a single-spaced text are single-spaced |
| ExcelBorders.SingleSpacedPrefix | excel_table_extractor_corrected.py:57 | prefixes of a single-spaced text are single-spaced |
| ExcelBorders.StripSingleSpaced | excel_table_extractor_corrected.py:57 | stripping keeps a text single-spaced and adds no character |
| ExcelBorders.StripCleaned | excel_table_extractor_corrected.py:57 | stripping a single-spaced text without U+200B gives a cleaned text |
| ExcelBorders.CleanTextCleaned | excel_table_extractor_corrected.py:38-59 | `clean_text` gives a stripped, single-spaced text without U+200B |
| ExcelBorders.CleanTextFixed | excel_table_extractor_corrected.py:38-59 | a cleaned text is left as it is |
| ExcelBorders.CleanTextIdempotent | excel_table_extractor_corrected.py:38-59 | `clean_text` is idempotent |
| ExcelBorders.CleanedStrip | excel_table_extractor_corrected.py:226 | on a cleaned text `.strip()` is the identity and blank means empty (also line 555) |
| ExcelBorders.SheetOf | excel_table_extractor_corrected.py:61-88 | every value the cell reader returns is cleaned; the borders are the sheet's |
| ExcelBorders.SolidNotDotted | excel_table_extractor_corrected.py:90-98 | no style is both solid and dotted |
| ExcelBorders.SolidFromIff | excel_table_extractor_corrected.py:524-532 | the column scan from `col` is solid exactly when some column from there has a solid top or bottom |
| ExcelBorders.SolidRowIff | excel_table_extractor_corrected.py:514-532 | a row is solid exactly when one of its columns has a solid top or bottom |
| ExcelBorders.DottedFromIff | excel_table_extractor_corrected.py:436-440 | the column scan from `col` finds a dotted top exactly when some column from there has one |
| ExcelBorders.DottedRowIff | excel_table_extractor_corrected.py:436-461 | a row starts a logical row exactly when one of its columns has a dotted top |
| ExcelBorders.HasSolidBorder | excel_table_extractor_corrected.py:514-532 | the loop equals `SolidRow` |
| ExcelBorders.HasDottedTop | excel_table_extractor_corrected.py:435-461 | the loop equals `DottedRow` |
| ExcelBorders.FirstSolid | excel_table_extractor_corrected.py:423-427 | a row found is solid and in range |
| ExcelBorders.FirstDotted | excel_table_extractor_corrected.py:433-464 | a row found has a dotted top and is in range |
| ExcelBorders.FirstSolidFirst | excel_table_extractor_corrected.py:423-427 | no row before the one found, or in the range when none is found, is solid |
| ExcelBorders.FirstDottedFirst | excel_table_extractor_corrected.py:433-464 | no row before the one found, or in the range when none is found, has a dotted top |
| ExcelBorders.LogicalRowEnd | excel_table_extractor_corrected.py:405-467 | the end lies in `[start, max]` when `start <= max` |
| ExcelBorders.LogicalRowEndBoundary | excel_table_extractor_corrected.py:405-467 | whichever branch is taken, no row after the start up to the end is solid or dotted, and the row after the end is, unless the end is `max` |
| ExcelBorders.FindSolidAhead | excel_table_extractor_corrected.py:420-427 | the loop equals `FirstSolid` |
| ExcelBorders.FindDottedAhead | excel_table_extractor_corrected.py:433-464 | the loop equals `FirstDotted` |
| ExcelBorders.FindLogicalRowEnd | excel_table_extractor_corrected.py:405-467 | the method equals `LogicalRowEnd` |
| ExcelBorders.RowContent | excel_table_extractor_corrected.py:534-561 | six entries |
| ExcelBorders.ColumnValuesMembers | excel_table_extractor_corrected.py:553-556 | exactly the non-empty cells of the column in the range are collected |
| ExcelBorders.ColumnValuesSplit | excel_table_extractor_corrected.py:553-556 | the values keep row order: the range can be cut anywhere |
| ExcelBorders.ColumnTextEmpty | excel_table_extractor_corrected.py:550-559 | an entry is empty exactly when every cell of its column in the range is |
| ExcelBorders.RowContentAny | excel_table_extractor_corrected.py:157 | a logical row has content exactly when one of the six columns has a non-empty cell in its range (also lines 534-561) |
| ExcelBorders.CollectColumn | excel_table_extractor_corrected.py:551-556 | the inner loop equals `ColumnValues` |
| ExcelBorders.ExtractRowContent | excel_table_extractor_corrected.py:534-561 | the method equals `RowContent` |
| ExcelBorders.ChainWiden | excel_table_extractor_corrected.py:142-165 | a chain of rows from a later start is one from an earlier start |
| ExcelBorders.ChainCons | excel_table_extractor_corrected.py:142-165 | a logical row in front of a chain after it |
| ExcelBorders.RowsFromSound | excel_table_extractor_corrected.py:142-165 | every row the scan emits is a logical row of the range with content, each after the one before |
| ExcelBorders.ChainRowsIn | excel_table_extractor_corrected.py:142-165 | every row of a chain is a logical row of the range |
| ExcelBorders.ChainAscending | excel_table_extractor_corrected.py:142-165 | the row ranges of a chain follow each other without overlapping |
| ExcelBorders.LogicalRowsSplitOnlyAtFourteen | excel_table_extractor_corrected.py:167-174 | the result differs from the scan only when it holds fourteen rows, and then only the last is replaced by two single rows inside its range |
| ExcelBorders.RowValues | excel_table_extractor_corrected.py:199-201 | six cells |
| ExcelBorders.SplitContent | excel_table_extractor_corrected.py:222-258 | six entries (also lines 319-353) |
| ExcelBorders.TaxWordUnspaced | excel_table_extractor_corrected.py:373 | the tax word neither starts nor ends with whitespace |
| ExcelBorders.TaxSplit | excel_table_extractor_corrected.py:368-400 | a split gives one row at the start and one at the end of the range, six entries each |
| ExcelBorders.SplitLastRows | excel_table_extractor_corrected.py:178-403 | each half of a split is a single physical row inside the range, the first at its start |
| ExcelBorders.StripKeepsLead | excel_table_extractor_corrected.py:377 | stripping keeps a leading word that neither starts nor ends with whitespace |
| ExcelBorders.NameUpdates | excel_table_extractor_corrected.py:380-387 | replacing the name and clearing the remarks leaves the figures |
| ExcelBorders.FromTaxWord | excel_table_extractor_corrected.py:375-377 | the text from the first tax word on still starts with it once stripped |
| ExcelBorders.TaxSplitFigures | excel_table_extractor_corrected.py:380-387 | the tax split keeps the figures and leaves the second item without remarks |
| ExcelBorders.TaxSplitNames | excel_table_extractor_corrected.py:375-379 | the second name starts with the tax word and the first keeps at least three characters |
| ExcelBorders.ReadRowValues | excel_table_extractor_corrected.py:199-201 | the loop equals `RowValues` |
| ExcelBorders.SplitLastRow | excel_table_extractor_corrected.py:178-403 | the method equals `SplitLast` |
| ExcelBorders.ScanStep | excel_table_extractor_corrected.py:142-165 | one step moves the cursor forward and emits what the scan emits there |
| ExcelBorders.ScanRows | excel_table_extractor_corrected.py:139-165 | the loop equals `RowsFrom` |
| ExcelBorders.ExtractLogicalRows | excel_table_extractor_corrected.py:127-176 | the method equals `LogicalRows` |
| ExcelTables.ReadRowText | excel_table_extractor_corrected.py:613-617 | the loop equals `RowText`: the non-empty cells of the row, each followed by a space |
| ExcelTables.Search | excel_table_extractor_corrected.py:620 | an occurrence found fits in the text |
| ExcelTables.SearchFound | excel_table_extractor_corrected.py:620 | a search that succeeds lands on an occurrence |
| ExcelTables.SearchAtMost | excel_table_extractor_corrected.py:620 | an occurrence at `i` means the search succeeds at `i` or before |
| ExcelTables.SearchContains | excel_table_extractor_corrected.py:620 | a search that succeeds found a substring |
| ExcelTables.DropDrop | excel_table_extractor_corrected.py:620 | dropping `a` then `b` characters drops `a + b` |
| ExcelTables.SearchInSuffix | excel_table_extractor_corrected.py:620 | the first occurrence in a suffix is an occurrence in the whole text |
| ExcelTables.InOrderSuffix | excel_table_extractor_corrected.py:609-620 | a match of the header pattern in a suffix is one in the whole text |
| ExcelTables.InOrderAt | excel_table_extractor_corrected.py:609-620 | the greedy left-to-right match of `a.*b.*…` is complete: any placement of the words in order matches |
| ExcelTables.InOrderContains | excel_table_extractor_corrected.py:609-620 | every word of a match occurs in the text |
| ExcelTables.HeaderRowsSpec | excel_table_extractor_corrected.py:612-621 | the header rows are exactly the rows from `row` on whose text matches the header pattern, in increasing order |
| ExcelTables.FindHeaderRows | excel_table_extractor_corrected.py:610-621 | the loop equals `HeaderRows` from row 1 |
| ExcelTables.FilledFromIff | excel_table_extractor_corrected.py:650-654 | the column scan from `col` finds content exactly when some cell from there is non-empty |
| ExcelTables.RowHasContent | excel_table_extractor_corrected.py:650-654 | the loop equals `Filled` |
| ExcelTables.TitleRow | excel_table_extractor_corrected.py:629-639 | a title row found lies in the window and its text holds the title word |
| ExcelTables.TitleRowFirst | excel_table_extractor_corrected.py:629-639 | no earlier row of the window, and none at all when nothing is found, holds the title word |
| ExcelTables.FindTitleRow | excel_table_extractor_corrected.py:629-639 | the loop equals `TitleRow` |
| ExcelTables.EndScanSpec | excel_table_extractor_corrected.py:645-662 | the end never passes the last row, stops short of it only just before three empty rows, and never falls below the row before the scan |
| ExcelTables.ScanTableEnd | excel_table_extractor_corrected.py:645-662 | the loop equals `EndScan` |
| ExcelTables.BoundsFrom | excel_table_extractor_corrected.py:627-669 | one bound per header row, in order |
| ExcelTables.BoundsAtSpec | excel_table_extractor_corrected.py:627-669 | a table starts at the first title-word row among the five above its header, or just above the header; it ends no later than two rows above the next header, or the last row, and no later than the empty-row cut |
| ExcelTables.FindTableBoundaries | excel_table_extractor_corrected.py:603-671 | the method equals `TableBoundaries` |
| ExcelTables.DataRowsSpec | excel_table_extractor_corrected.py:699-703 | exactly the logical rows with content are kept |
| ExcelTables.TablesOfSpec | excel_table_extractor_corrected.py:713-726 | exactly the tables with data rows are kept, each the table of one of the bounds |
| ExcelTables.CollectDataRows | excel_table_extractor_corrected.py:699-703 | the loop equals `DataRows` |
| ExcelTables.ExtractTable | excel_table_extractor_corrected.py:673-711 | the method equals `TableAt` |
| ExcelTables.TablesOfStep | excel_table_extractor_corrected.py:721-724 | one step of the table loop keeps the table exactly when it has data rows |
| ExcelTables.ExtractAllTables | excel_table_extractor_corrected.py:713-726 | the method equals `AllTables` |
| ExcelService.DropCharMembers | server/services/excel_table_extractor_service.py:698-700 | removing one character keeps exactly the other characters |
| ExcelService.DropCharsMembers | server/services/excel_table_extractor_service.py:698-700 | removing a set of characters keeps exactly the characters outside it |
| ExcelService.IsFillerListed | server/services/excel_table_extractor_service.py:686-695 | the fillers are exactly the eight listed characters |
| ExcelService.FillersOnlyIff | server/services/excel_table_extractor_service.py:686-702 | a text is fillers only exactly when each character is listed |
| ExcelService.MeaninglessIff | server/services/excel_table_extractor_service.py:674-702 | content is meaningless exactly when, stripped, it holds nothing but spaces, tabs, newlines, dashes and equals signs of both widths |
| ExcelService.MeaninglessByReplaceIff | server/services/excel_table_extractor_service.py:697-702 | the filler test agrees with the chain of replacements |
| ExcelService.IsMeaningless | server/services/excel_table_extractor_service.py:674-702 | the replacement loop equals `Meaningless` |
| ExcelService.AtariEndsMeisaisho | server/services/excel_table_extractor_service.py:782-792 | ending in 当り明細書 means ending in 明細書 |
| ExcelService.ObviousTitleIff | server/services/excel_table_extractor_service.py:773-794 | the obvious-title test is true exactly when the name ends with 明細書, 計算書 or 積算書 (当り明細書 is covered by 明細書) |
| ExcelService.RunEnd | server/services/excel_table_extractor_service.py:412 | the run of one character class from a position ends at the first character outside it |
| ExcelService.RunEndAt | server/services/excel_table_extractor_service.py:412 | a run stopped by a character outside its class is the run found |
| ExcelService.PerUnitTitleShaped | server/services/excel_table_extractor_service.py:412 | what the greedy reading of the pattern accepts has the pattern's shape |
| ExcelService.PerUnitShapeAccepted | server/services/excel_table_extractor_service.py:412 | whatever has the shape digits, letters, whitespace, 当り明細書, the greedy reading accepts |
| ExcelService.PerUnitTitleIff | server/services/excel_table_extractor_service.py:412 | the reading accepts exactly the names of the pattern's shape |
| ExcelService.TableTitleObvious | server/services/excel_table_extractor_service.py:385-421 | every table title that is not a listed structural name is also an obvious title (also lines 773-794) |
| ExcelService.AllSpaceIff | server/services/excel_table_extractor_service.py:919 | a text is all whitespace exactly when it strips to nothing |
| ExcelService.CleanQuantityMembers | server/services/excel_table_extractor_service.py:1036-1037 | the cleaned text holds exactly the characters of the text other than commas, spaces and U+3000 |
| ExcelService.CleanQuantityUnchanged | server/services/excel_table_extractor_service.py:1036-1037 | a text without those separators is left as it is |
| ExcelService.ParseQuantityNoDigit | server/services/excel_table_extractor_service.py:1027-1044 | text holding no digit parses to 0.0 |
| ExcelService.ParseQuantityDigits | server/services/excel_table_extractor_service.py:1027-1044 | a plain string of ASCII digits parses to its value |
| ExcelService.ParseQuantityCleaned | server/services/excel_table_extractor_service.py:1027-1044 | separators are ignored: parsing the cleaned text gives the same quantity |
| ExcelService.RowQuantityIsParseQuantity | server/services/excel_table_extractor_service.py:922-931 | the conversion loop parses exactly as `_parse_quantity` does (also lines 1027-1044) |
| ExcelService.RowItem | server/services/excel_table_extractor_service.py:899-968 | a data row gives an item exactly when its name is not blank; the item's key is the name, its unit the second entry, its source Excel and it has no page |
| ExcelService.RowItemFields | server/services/excel_table_extractor_service.py:922-948 | the name is recorded under 工事区分・工種・種別・細別 and 規格, and the quantity is `_parse_quantity` of the third entry |
| ExcelService.ItemsOfStep | server/services/excel_table_extractor_service.py:899-968 | one pass of the loop moves the row's item to the converted ones |
| ExcelService.ItemsOfDone | server/services/excel_table_extractor_service.py:899-972 | after the last row every item is converted |
| ExcelService.ItemsOfSpec | server/services/excel_table_extractor_service.py:899-972 | no more items than rows; each item comes from a row with a name, and every row with a name gives its item |
| ExcelService.ConvertTableData | server/services/excel_table_extractor_service.py:881-972 | the method equals `ItemsOf` of the table's data rows |
| ExcelService.TablesItemsStep | server/services/excel_table_extractor_service.py:855-862 | one pass of the table loop moves the table's items to the converted ones |
| ExcelService.TablesItemsDone | server/services/excel_table_extractor_service.py:855-862 | after the last table every item is converted |
| ExcelService.MainTableItems | server/services/excel_table_extractor_service.py:820-872 | the main-table items are the converted rows of every table the corrected reader extracts, in order |
| ExcelService.ConvertTables | server/services/excel_table_extractor_service.py:853-862 | the loop equals `TablesItems` |
| ExcelService.FieldRefsHas | server/services/excel_table_extractor_service.py:171-177 | the matches of one field are among those of the dictionary |
| ExcelService.GetIndex | server/services/excel_table_extractor_service.py:161 | where a key is found the dictionary holds its value |
| ExcelService.TekiyouCovered | server/services/excel_table_extractor_service.py:160-177 | the 摘要 pass finds nothing the field pass does not |
| ExcelService.ItemsRefsFields | server/services/excel_table_extractor_service.py:158-177 | the matches collected are exactly those of the items' field values |
| ExcelService.MainTableRefsSpec | server/services/excel_table_extractor_service.py:150-182 | the references are sorted, each listed once, and exactly the matches of `[一-龯]+\d+号` in the items' field values |
| ExcelService.AddDistinct | server/services/excel_table_extractor_service.py:167-177 | adding a list of matches to the set keeps it the distinct matches so far |
| ExcelService.CollectFieldRefs | server/services/excel_table_extractor_service.py:171-177 | the field loop adds exactly the dictionary's matches |
| ExcelService.FieldRefsStep | server/services/excel_table_extractor_service.py:171-177 | one more field adds its matches |
| ExcelService.ItemsRefsStep | server/services/excel_table_extractor_service.py:158-177 | one more item adds its 摘要 matches, then its fields' |
| ExcelService.ExtractReferenceNumbers | server/services/excel_table_extractor_service.py:150-182 | the method equals `MainTableRefs` |
| ExcelService.EmptyRunThree | server/services/excel_table_extractor_service.py:428-437 | the run of empty rows reaches three exactly when the three rows from `row` are inside the sheet and empty |
| ExcelService.ThickFromIff | server/services/excel_table_extractor_service.py:441-446 | the column scan from `col` finds a thick bottom exactly when some column there has one |
| ExcelService.TableEndIff | server/services/excel_table_extractor_service.py:423-450 | a table ends at a row starting three empty rows inside the sheet, or with a thick bottom border in one of the first nine columns |
| ExcelService.IsTableEnd | server/services/excel_table_extractor_service.py:423-450 | the method equals `TableEnd` |
| ExcelService.QuantityValue | server/services/excel_table_extractor_service.py:634-638 | an empty cell or one `float` rejects gives 0.0; otherwise the parsed value |
| ExcelService.FirstData | server/services/excel_table_extractor_service.py:613-641 | a data row found lies in the look-ahead window and has a unit or a quantity |
| ExcelService.FirstDataFirst | server/services/excel_table_extractor_service.py:613-641 | no row before it, and none when nothing is found, has one |
| ExcelService.ItemWithDataSpec | server/services/excel_table_extractor_service.py:595-648 | the item ends within four rows after its row; it ends on its own row exactly when no row of the window has a unit or a quantity, and then has neither |
| ExcelService.ItemWithDataEnd | server/services/excel_table_extractor_service.py:595-648 | the item ends on `ItemEnd`, whatever its name |
| ExcelService.ItemDataOfFields | server/services/excel_table_extractor_service.py:627-641 | the data row, if any, gives the last row, the unit and the quantity cell |
| ExcelService.CollectNameParts | server/services/excel_table_extractor_service.py:606-610 | the horizontal name loop equals `NameParts` |
| ExcelService.LookAhead | server/services/excel_table_extractor_service.py:613-641 | the look-ahead finds the first data row and collects the name parts of every row up to it |
| ExcelService.EmptyNameRows | server/services/excel_table_extractor_service.py:613-641 | no rows give no name parts |
| ExcelService.LookAheadRow | server/services/excel_table_extractor_service.py:614-641 | one row adds its name parts and stops the loop exactly at a data row |
| ExcelService.LookAheadDone | server/services/excel_table_extractor_service.py:613-641 | a loop that runs out of rows found no data row and collected every row's parts |
| ExcelService.NameRowsStep | server/services/excel_table_extractor_service.py:621-625 | one more row of name parts |
| ExcelService.FirstDataStep | server/services/excel_table_extractor_service.py:628-641 | a row with data is found at once; otherwise the search goes on below |
| ExcelService.ExtractItemWithData | server/services/excel_table_extractor_service.py:595-648 | the method equals `ItemWithData` |
| ExcelService.NextRowStep | server/services/excel_table_extractor_service.py:586-591 | the cursor moves down by one to five rows |
| ExcelService.EntriesFromSpec | server/services/excel_table_extractor_service.py:557-593 | no more entries than rows left to examine; each is the item of a row at or below the cursor that starts an item and is no table end |
| ExcelService.LogicalEntriesBound | server/services/excel_table_extractor_service.py:545-593 | at most 200 entries, each from a row below the header that starts an item |
| ExcelService.EntryStep | server/services/excel_table_extractor_service.py:564-591 | one pass gives the row's entry when it starts an item, and the row to go on from |
| ExcelService.EntryAtItem | server/services/excel_table_extractor_service.py:572-587 | an item row's entry holds the item read with its data, and the cursor moves past its end |
| ExcelService.EntriesFromStep | server/services/excel_table_extractor_service.py:557-591 | one pass takes the row's entry off the front of what is left |
| ExcelService.ReadLogicalRow | server/services/excel_table_extractor_service.py:557-591 | one pass stops at the table's end with every entry collected, or adds the row's entry and moves on |
| ExcelService.ExtractLogicalRows | server/services/excel_table_extractor_service.py:545-593 | the method equals `LogicalEntries` |
| ExcelService.CollectEntries | server/services/excel_table_extractor_service.py:552-593 | the loop equals `EntriesFrom` from the first row |
| ExcelService.EntriesFromPast | server/services/excel_table_extractor_service.py:557 | past the sheet or after 200 rows nothing more is added |
| RefSearch.HanEnd | subtable_pdf_extractor.py:133 | the kanji run from a position ends at the first non-kanji |
| RefSearch.DigitEnd | subtable_pdf_extractor.py:133 | the digit run from a position ends at the first non-digit |
| RefSearch.SpaceEnd | subtable_pdf_extractor.py:133 | the whitespace run from a position ends at the first non-whitespace |
| RefSearch.GapEnd | subtable_pdf_extractor.py:133 | an optional gap stays inside the text |
| RefSearch.MatchAt | subtable_pdf_extractor.py:133-135 | a match anchored at `i` starts there and has the pattern's shape |
| RefSearch.Search | excel_subtable_extractor.py:52-53 | a match found from `i` starts at or after it and has the pattern's shape |
| RefSearch.HanEndAt | subtable_pdf_extractor.py:133 | a kanji run stopped by a non-kanji is the run found |
| RefSearch.DigitEndAt | subtable_pdf_extractor.py:133 | a digit run stopped by a non-digit is the run found |
| RefSearch.SpaceEndAt | subtable_pdf_extractor.py:133 | a whitespace run stopped by a non-whitespace is the run found |
| RefSearch.MatchIsUnique | subtable_pdf_extractor.py:133 | any reading of the text with the pattern's shape from a position is the one the greedy match finds there |
| RefSearch.SearchFindsShaped | excel_subtable_extractor.py:52-53 | the search succeeds whenever the pattern occurs from `i` on, and finds no later occurrence than the first |
| RefSearch.FindAllShaped | subtable_pdf_extractor.py:135 | every match `findall` returns has the pattern's shape and lies after the start |
| RefSearch.FindAllOrdered | subtable_pdf_extractor.py:135 | the matches do not overlap and come in order |
| RefSearch.TightCleanIsText | server/services/excel_table_extractor_service.py:166 | without gaps the cleaned reference is the matched text |
| RefSearch.CleanRefShape | subtable_pdf_extractor.py:138-140 | a cleaned reference is kanji, then digits, then 号, with no whitespace |
| Distinct.DedupSpec | subtable_pdf_extractor.py:136-142 | the result holds exactly the input's values, each once |
| Distinct.DedupPrefix | subtable_pdf_extractor.py:138-142 | reading more of the input only appends |
| Distinct.NoDuplicatesCount | subtable_pdf_extractor.py:141 | without duplicates no value is counted twice |
| Distinct.RepeatCount | subtable_pdf_extractor.py:141 | two equal values at different places are counted twice |
| Distinct.NoDuplicatesPermutation | server/services/excel_table_extractor_service.py:179 | a rearrangement of a list without duplicates has none |
| SubtablePdf.FindReferenceNumbers | subtable_pdf_extractor.py:129-145 | the loop gives the cleaned references of the matches, each once, in order of first appearance |
| SubtablePdf.PageRefsShaped | subtable_pdf_extractor.py:133-140 | every cleaned reference is kanji, digits, 号 without whitespace |
| SubtablePdf.ReferenceNumbersShape | subtable_pdf_extractor.py:129-145 | the references are written without whitespace, appear once each, and are exactly the cleaned references of the page text's matches |
| SubtablePdf.RefParts | subtable_pdf_extractor.py:290-295 | the kanji part and the number part are non-empty, the number part all digits |
| SubtablePdf.FindRefInRow | subtable_pdf_extractor.py:286-301 | the reference found is the first in list order the row shows; none is found exactly when the row shows none |
| SubtablePdf.SpacedNeedsSpace | subtable_pdf_extractor.py:298 | a match of `kanji\s+number\s*号` holds whitespace |
| SubtablePdf.UnspacedRowShowsNothing | subtable_pdf_extractor.py:298-299 | a row text without whitespace shows no reference: `内7号` written without the space is not found |
| SubtablePdf.RefNameParts | subtable_pdf_extractor.py:290-295 | the parts of `内N号` are 内 and the digits of N |
| SubtablePdf.SpacedRefShown | subtable_pdf_extractor.py:298-299 | `内`, any whitespace run, the digits of N and `号`, anywhere in a row, show `内N号` |
| SubtablePdf.SpacedRefAt | subtable_pdf_extractor.py:298 | that text matches at the `内` |
| SubtablePdf.SpacedFrom | subtable_pdf_extractor.py:299 | a match at `j` is found by a search from any earlier position |
| SubtablePdf.TotalRowCell | subtable_pdf_extractor.py:351-354 | a row is a total row exactly when one of its cells contains 合計 |
| SubtablePdf.Patterns | subtable_pdf_extractor.py:13-30 | every role has a header spelling |
| SubtablePdf.Clean | subtable_pdf_extractor.py:327-328 | the cleaned text holds no whitespace and no ・ |
| SubtablePdf.CellRole | subtable_pdf_extractor.py:313-336 | a cell takes a role still free, one of whose patterns hits it |
| SubtablePdf.ColumnHeaders | subtable_pdf_extractor.py:340-349 | a header map names at least two roles |
| SubtablePdf.FindColumnHeaders | subtable_pdf_extractor.py:303-349 | the loop over the row's cells equals `ColumnHeaders` |
| SubtablePdf.HeadersStep | subtable_pdf_extractor.py:321-333 | assigning a free role to a header cell of that role keeps the map sound |
| SubtablePdf.HeadersWiden | subtable_pdf_extractor.py:307-309 | skipping a cell keeps the map sound |
| SubtablePdf.HeadersAfterSound | subtable_pdf_extractor.py:307-336 | one cell keeps the map sound |
| SubtablePdf.HeadersFromSound | subtable_pdf_extractor.py:307-336 | the whole row keeps the map sound |
| SubtablePdf.ColumnHeadersSound | subtable_pdf_extractor.py:303-349 | a header map names each role at most once, gives each column at most one role, and each column it names is a header cell of that role |
| SubtablePdf.BlankHitsAll | subtable_pdf_extractor.py:330 | a text that cleans to nothing is contained in every pattern |
| SubtablePdf.CleanBlankTakesFirstFree | subtable_pdf_extractor.py:313-336 | such a cell takes the first free role |
| SubtablePdf.HeaderOfDots | subtable_pdf_extractor.py:303-349 | two cells of a lone ・ make a header row with the name and unit roles |
| SubtablePdf.SheetOfTextsRead | subtable_pdf_extractor.py:405-412 | the table's cells are read as their stripped text |
| SubtablePdf.ItemName | subtable_pdf_extractor.py:404-412 | an item name is empty or a usable text, never a header word |
| SubtablePdf.KeepsTrans | subtable_pdf_extractor.py:441-475 | fields once filled stay filled |
| SubtablePdf.ExtendsTrans | subtable_pdf_extractor.py:429-469 | the used rows only grow, with rows from the look-ahead window |
| SubtablePdf.ExtendsWiden | subtable_pdf_extractor.py:442-469 | a row of the window is in the widened window |
| SubtablePdf.FillOne | subtable_pdf_extractor.py:462-471 | a look-ahead row fills only an empty field and counts only itself as used |
| SubtablePdf.FillFrom | subtable_pdf_extractor.py:462-471 | the same over 単位, 数量 and 摘要 in order |
| SubtablePdf.LookAhead | subtable_pdf_extractor.py:441-475 | the look-ahead only fills empty fields and uses only rows one to four below the item |
| SubtablePdf.MaxOf | subtable_pdf_extractor.py:486-487 | the largest index of a non-empty list |
| SubtablePdf.ReadItem | subtable_pdf_extractor.py:414-479 | an item keeps what its own row gave it and uses its own row and rows one to four below |
| SubtablePdf.RowsOf | subtable_pdf_extractor.py:478 | one logical row per item |
| SubtablePdf.ItemsStep | subtable_pdf_extractor.py:414-487 | a row with a name gives its item, then reading goes on past the rows it used |
| SubtablePdf.ReadItemGood | subtable_pdf_extractor.py:414-487 | the item read at a named row is sound, and the cursor moves forward |
| SubtablePdf.AllGoodCons | subtable_pdf_extractor.py:395-490 | a sound item in front of sound items |
| SubtablePdf.AllGoodWiden | subtable_pdf_extractor.py:395-490 | soundness from a later row holds from an earlier one |
| SubtablePdf.InOrderCons | subtable_pdf_extractor.py:486-487 | an item whose used rows all precede the next items keeps them in order |
| SubtablePdf.ItemsSound | subtable_pdf_extractor.py:395-490 | every item starts at a row holding a usable name and keeps what that row gave it |
| SubtablePdf.ItemsOrdered | subtable_pdf_extractor.py:486-487 | each item starts after every row the one before it used |
| SubtablePdf.ItemsStopAtTotal | subtable_pdf_extractor.py:398-402 | reading stops at a row whose first cell mentions 合計 |
| SubtablePdf.ReadItemAt | subtable_pdf_extractor.py:414-479 | the look-ahead loop for an item row equals `ReadItem` |
| SubtablePdf.SnocOf | subtable_pdf_extractor.py:478-479 | one more item adds its row and its used indices |
| SubtablePdf.ItemsSkip | subtable_pdf_extractor.py:488-490 | a row without a name is skipped |
| SubtablePdf.ItemsTake | subtable_pdf_extractor.py:414-487 | a named row's item is taken and reading goes on past it |
| SubtablePdf.StepAt | subtable_pdf_extractor.py:395-490 | one cursor step stops at a 合計 row, skips a row without a name, or takes the item and moves forward |
| SubtablePdf.ExtractMultirowData | subtable_pdf_extractor.py:373-496 | the logical rows and processed indices are those of `Items` from the start row |
| SubtablePdfScan.PdfTitleItems | subtable_pdf_extractor.py:515-582 | title items exist exactly when the reference row has at least six filled cells and its last 単位 cell comes before its last 単位数量 cell; they then carry a name and a unit, and the unit quantity is empty exactly when the 単位数量 cell is the last |
| SubtablePdfScan.HeaderNear | subtable_pdf_extractor.py:249-258 | the first row of the window the header finder accepts, with its map; none exactly when it accepts no row there |
| SubtablePdfScan.FindHeaderNear | subtable_pdf_extractor.py:249-258 | the loop over the three rows below the reference row equals `HeaderNear` |
| SubtablePdfScan.SubtablesFromTable | subtable_pdf_extractor.py:147-284 | a table of fewer than five rows gives nothing, and a table gives at most one sub-table |
| SubtablePdfScan.ItemRowsSound | subtable_pdf_extractor.py:373-496 | every row read carries the sub-table's reference and a usable name |
| SubtablePdfScan.OpenSound | subtable_pdf_extractor.py:261-270 | opening at a row that shows a page reference, with a header map, keeps the scan state sound |
| SubtablePdfScan.ReadSound | subtable_pdf_extractor.py:198-224 | reading the items keeps the state sound |
| SubtablePdfScan.ScanRowSound | subtable_pdf_extractor.py:160-275 | one row keeps the state sound |
| SubtablePdfScan.ScanSound | subtable_pdf_extractor.py:160-275 | the whole row loop keeps it sound |
| SubtablePdfScan.ScanKeepsOpen | subtable_pdf_extractor.py:178-225 | once a sub-table is open its reference and title never change, and once its items are read they are never read again: a later reference row opens nothing |
| SubtablePdfScan.SubtablesSound | subtable_pdf_extractor.py:147-284 | a sub-table returned has rows, counts them, names one of the page's references, is opened by a row showing it whose title items it carries, and every row carries the reference and a usable name |
| SubtablePdfScan.ScanRowAt | subtable_pdf_extractor.py:160-275 | one pass of the loop body equals `ScanRow`, and the scan goes on from its state or stops |
| SubtablePdfScan.ScanStep | subtable_pdf_extractor.py:160-275 | a row that does not stop the scan passes its state on |
| SubtablePdfScan.ScanTable | subtable_pdf_extractor.py:160-275 | the loop equals `Scan` from the first row |
| SubtablePdfScan.ExtractSubtablesFromTable | subtable_pdf_extractor.py:147-284 | the method equals `SubtablesFromTable` |
| ExcelSubtables.NarrowRefName | excel_subtable_extractor.py:28-37 | full-width folding and space removal leave `内N号` alone |
| ExcelSubtables.NormalizeAround | excel_subtable_extractor.py:17-39 | normalising text around a piece normalisation leaves alone keeps that piece in place |
| ExcelSubtables.RefNameShaped | excel_subtable_extractor.py:52 | `内N号` inside any text is one match of `[一-龯]+\d+号` |
| ExcelSubtables.RefNameNormalized | excel_subtable_extractor.py:17-39 | normalising a cell around `内N号` keeps the name between the normalised surroundings |
| ExcelSubtables.RefNameDetected | excel_subtable_extractor.py:42-53 | a cell holding `内N号` anywhere is recognised as a reference |
| ExcelSubtables.RefColFrom | excel_subtable_extractor.py:379-382 | a column found is one of columns 0-3 at or after `c`, inside the row |
| ExcelSubtables.RefColFromFound | excel_subtable_extractor.py:382 | the column found holds a reference pattern |
| ExcelSubtables.RefColFromFirst | excel_subtable_extractor.py:379-382 | no column before it from `c` on does |
| ExcelSubtables.RefColFromPast | excel_subtable_extractor.py:379-382 | a column before the one found has no pattern, and the search from the next finds the same |
| ExcelSubtables.RefColFromNone | excel_subtable_extractor.py:379-382 | with none found, no column of 0-3 from `c` on has a pattern |
| ExcelSubtables.HeaderAndColumns | excel_subtable_extractor.py:56-90 | no header is looked for: the next row is the header, with names in column 2, units in 4, quantities in 5, unit prices in 6, amounts in 7 and notes in 8 |
| ExcelSubtables.Field | excel_subtable_extractor.py:128-157 | a field value is never "nan" and has no whitespace at either end |
| ExcelSubtables.SheetOfFieldsRead | excel_subtable_extractor.py:128-157 | the sheet's fields are read that way |
| ExcelSubtables.ReadAt | excel_subtable_extractor.py:127-237 | the row read carries the sub-table's reference |
| ExcelSubtables.FieldTrimmed | excel_subtable_extractor.py:128-157 | a field value has no whitespace at either end |
| ExcelSubtables.JoinTrimmed | excel_subtable_extractor.py:186 | stripping the joined name changes nothing |
| ExcelSubtables.MergedNameJoins | excel_subtable_extractor.py:159-193 | the merged name is the general item, one space and the next row's specific item |
| ExcelSubtables.FilledTexts | excel_subtable_extractor.py:114-115 | at most one text per cell, none blank |
| ExcelSubtables.JoinHasChar | excel_subtable_extractor.py:114-116 | a character other than the space is in the joined text exactly when it is in one of the parts |
| ExcelSubtables.FilledTextsKeep | excel_subtable_extractor.py:114-115 | a cell holding a non-whitespace character is among the filled texts |
| ExcelSubtables.FilledTextsFrom | excel_subtable_extractor.py:114-115 | every filled text is a cell's text |
| ExcelSubtables.FilledTextsHaveChar | excel_subtable_extractor.py:114-115 | a non-whitespace character is in a filled text exactly when it is in a cell |
| ExcelSubtables.TotalRowIff | excel_subtable_extractor.py:113-118 | a row ends the sub-table at 計 exactly when one of its cells contains 計 |
| ExcelSubtables.NextRow | excel_subtable_extractor.py:193-240 | the cursor moves on by one, or two after a merge, and stays in the sheet |
| ExcelSubtables.DataRowsStop | excel_subtable_extractor.py:110-125 | collection ends at the end of the sheet, at a 計 row and at the next reference |
| ExcelSubtables.DataRowsGo | excel_subtable_extractor.py:127-240 | any other row is read, kept when the header filter lets it through, and collection goes on after it |
| ExcelSubtables.DataRowsBound | excel_subtable_extractor.py:110-240 | no more rows are collected than are left |
| ExcelSubtables.DataRowsHead | excel_subtable_extractor.py:203-237 | a row collected here and not later was read here and kept by the filter |
| ExcelSubtables.DataRowsKept | excel_subtable_extractor.py:203-237 | every collected row passes the header filter and carries the reference |
| ExcelSubtables.TotalRowEnds | excel_subtable_extractor.py:113-118 | a row with 計 in any cell ends the sub-table before it |
| ExcelSubtables.DataRowsStep | excel_subtable_extractor.py:110-240 | one row read adds what `DataRows` adds there |
| ExcelSubtables.ExtractSubtableData | excel_subtable_extractor.py:93-242 | the method equals `DataRows` from the row after the header |
| ExcelSubtables.TitleCellsFilled | excel_subtable_extractor.py:267-268 | the cells the title reader keeps are never blank |
| ExcelSubtables.TitleCellsNoZero | excel_subtable_extractor.py:267-268 | on a row without zero-valued cells, the title reader keeps exactly the non-blank cell texts, in column order |
| ExcelSubtables.ExcelTitleItems | excel_subtable_extractor.py:245-303 | title items exist exactly when the reference row has at least six kept cells (text, not blank, not a zero number or boolean), the third containing 単位 and the fifth 単位数量 |
| ExcelSubtables.StripFilled | excel_subtable_extractor.py:280-290 | a filled cell strips to a non-empty text without whitespace at the ends |
| ExcelSubtables.TitleCellsFewer | excel_subtable_extractor.py:267-268 | the title reader keeps no more cells than there are non-blank cell texts |
| ExcelSubtables.TitleCellsDropZero | excel_subtable_extractor.py:267-268 | a non-blank cell that holds a zero number or boolean makes the title reader keep strictly fewer cells than there are non-blank texts |
| ExcelSubtables.ZeroCellDropsTitle | excel_subtable_extractor.py:267-271 | a reference row with at most six non-blank cells, one of them a zero number or boolean, gives no title |
| ExcelSubtables.ExcelTitleItemsShape | excel_subtable_extractor.py:280-296 | the title's name is the reference cell and the next kept cell joined by one space; unit and unit quantity are never empty |
| ExcelSubtables.UnitValue | excel_subtable_extractor.py:306-325 | "" without 単位; never holds whitespace |
| ExcelSubtables.UnitQuantityValue | excel_subtable_extractor.py:328-347 | "" without 単位数量; never holds whitespace |
| ExcelSubtables.OpenAt | excel_subtable_extractor.py:382-409 | a reference at row `r` opens a sub-table reported at row `r + 1` with its header at `r + 3` (one-based), named by the stripped cell |
| ExcelSubtables.OpenAtFound | excel_subtable_extractor.py:382-415 | a kept sub-table starts after its reference row, and its rows carry its reference |
| ExcelSubtables.SheetStep | excel_subtable_extractor.py:379-424 | a reference row adds its sub-table when it has rows and the scan resumes after it |
| ExcelSubtables.SheetSubtablesShape | excel_subtable_extractor.py:350-430 | each sub-table found from a row on starts after it, has data rows, and its rows carry its reference |
| ExcelSubtables.ShapeSkip | excel_subtable_extractor.py:425-426 | a row without a reference adds nothing |
| ExcelSubtables.FoundAfterEarlier | excel_subtable_extractor.py:375-426 | found after a later row means found after an earlier one |
| ExcelSubtables.ShapeOpen | excel_subtable_extractor.py:382-424 | a reference row keeps the shape |
| ExcelSubtables.FoundAfterAll | excel_subtable_extractor.py:375-426 | concatenating two such lists keeps the shape |
| ExcelSubtables.FindRefColumn | excel_subtable_extractor.py:379-382 | the column loop equals `RefCol` |
| ExcelSubtables.SheetSkip | excel_subtable_extractor.py:425-426 | a row without a reference moves the scan on |
| ExcelSubtables.SheetDone | excel_subtable_extractor.py:375 | past the last row nothing more is found |
| ExcelSubtables.ReadSubtableAt | excel_subtable_extractor.py:382-424 | the loop body at a reference row keeps the sub-table when it has rows and resumes at `header_row + len(data_rows) + 3`, later than the row |
| ExcelSubtables.ExtractSheet | excel_subtable_extractor.py:350-430 | the method equals `SheetSubtables` from row 0 |
| ExcelSubtableApi.PlainReferenceIsOther | excel_subtable_api.py:89-100 | a reference not starting with one of the Latin-1 letters the prefix literals start with is counted as `Other` |
| ExcelSubtableApi.RefNameIsOther | excel_subtable_api.py:89-100 | every `内N号` reference the extractor returns is counted as `Other`, since the prefix literals as written never match it |
| ExcelSubtableApi.Count | excel_subtable_api.py:102-105 | counting a pattern raises the total by one |
| ExcelSubtableApi.Plus | excel_subtable_api.py:104-105 | adding two pattern counts adds their totals |
| ExcelSubtableApi.SheetPatternsTotal | excel_subtable_api.py:88-105 | a sheet's pattern counts add up to its number of sub-tables |
| ExcelSubtableApi.RefNamesAllOther | excel_subtable_api.py:88-105 | a sheet whose references are all `内N号` counts all of its sub-tables as `Other` |
| ExcelSubtableApi.Placed | excel_subtable_api.py:107-110 | every sub-table of a sheet is tagged with the sheet's name and index, in order |
| ExcelSubtableApi.SheetResultOf | excel_subtable_api.py:113-146 | a sheet's result names the sheet and its index, and succeeds exactly when extraction did |
| ExcelSubtableApi.SheetResultConsistent | excel_subtable_api.py:113-146 | a sheet's count is its number of sub-tables and its patterns add up to it; a failed sheet has no sub-tables and zero counts |
| ExcelSubtableApi.Processed | excel_subtable_api.py:74 | one result per sheet processed |
| ExcelSubtableApi.ProcessedAt | excel_subtable_api.py:74-147 | result `k` is that of remaining sheet `k` with index `k + 1` |
| ExcelSubtableApi.SumsAppend | excel_subtable_api.py:124-127 | one more sheet raises every running total by that sheet's share |
| ExcelSubtableApi.CountStep | excel_subtable_api.py:85-105 | one more sub-table counts its pattern and adds its rows |
| ExcelSubtableApi.CountSheet | excel_subtable_api.py:84-105 | the inner loop yields the sheet's pattern counts and its number of data rows |
| ExcelSubtableApi.CountNext | excel_subtable_api.py:85-105 | one iteration of the inner loop takes the counts of the first `k` sub-tables to those of the first `k + 1` |
| ExcelSubtableApi.ProcessSheet | excel_subtable_api.py:75-147 | one iteration records the sheet's result, successful or failed |
| ExcelSubtableApi.ExtractAllSubtables | excel_subtable_api.py:22-181 | the method's response is `ApiResponse` of the workbook |
| ExcelSubtableApi.TooFewSheetsFails | excel_subtable_api.py:46-56 | a workbook with fewer than two sheets fails, with every count zero and nothing listed |
| ExcelSubtableApi.SheetsInOrder | excel_subtable_api.py:58-74 | the first sheet is skipped and named; sheet result `k` describes workbook sheet `k + 1` with index `k + 1` (also lines 150-161) |
| ExcelSubtableApi.TotalsOfPrefix | excel_subtable_api.py:124-147 | over any prefix the sub-table total is the number of sub-tables listed, and the pattern counts add up to it |
| ExcelSubtableApi.FailedSheetAddsNothing | excel_subtable_api.py:132-147 | a failed sheet changes no total and adds no sub-table |
| ExcelSubtableApi.ResponseTotals | excel_subtable_api.py:150-161 | every sub-table is listed once in a successful response, and the pattern counts add up to the total |
| ExcelSubtableApi.Summaries | excel_subtable_api.py:201-209 | no more summaries than sheets |
| ExcelSubtableApi.SubtablesSummary | excel_subtable_api.py:184-219 | a failure passes its message through; a success keeps the response's totals |
| ExcelSubtableApi.SummariesSpec | excel_subtable_api.py:201-209 | a sheet is summarised exactly when it succeeded, with its counts and patterns unchanged |
| TableTitles.NameParts | table_title_extractor.py:85-88 | at most one part per cell of the range, and none exactly when no cell of the range is filled |
| TableTitles.PdfTableTitleItems | table_title_extractor.py:43-110 | a title exactly when the reference row has at least seven cells, a 単位 cell and a 単位数量 cell with non-empty texts after them; the name joins the filled cells between the reference and the 単位 cell |
| TableTitles.PdfTitleTexts | table_title_extractor.py:92-104 | unit and unit quantity are the non-empty stripped texts of the cells right after the last unit and quantity marker cells, both inside the row |
| TableTitles.LastMarkedCell | table_title_extractor.py:75-79 | the marker cell used is filled and carries the marker, and no later cell does: the last one wins |
| TableTitles.MarkedCellFilled | table_title_extractor.py:76-78 | a cell carrying a marker is filled |
| TableTitles.PdfTitleMissingCellReadsNone | table_title_extractor.py:94-95 | an empty (`None`) cell after a marker reads as the text "None" and passes the emptiness test |
| TableTitles.NamePartsHas | table_title_extractor.py:86-88 | every filled cell of the range gives a name part |
| TableTitles.PdfTitleQuantityFirst | table_title_extractor.py:75-88 | the two markers may come in either order; a 単位数量 cell before the 単位 cell becomes part of the item name |
| TableTitles.LastNumberRowBefore | table_title_extractor.py:240-251 | the row found is a table-number row above `r`, and none lies between it and `r` |
| TableTitles.PreviousTableEnd | table_title_extractor.py:226-258 | the last table-number row above the reference row, else 0 |
| TableTitles.PreviousTableEndFound | table_title_extractor.py:240-251 | when a table-number row lies above the reference row, the result is one |
| TableTitles.FindPreviousTableEnd | table_title_extractor.py:238-254 | the backward loop equals `PreviousTableEnd` |
| TableTitles.FirstNumberRowFrom | table_title_extractor.py:273-283 | the row found is a table-number row at or after `s`, and none lies before it from `s` on |
| TableTitles.ExcelTableEnd | table_title_extractor.py:261-291 | the first table-number row from the start row on, else the last row |
| TableTitles.ExcelTableEndFound | table_title_extractor.py:273-283 | when a table-number row lies at or after the start, the result is the first one |
| TableTitles.FindExcelTableEnd | table_title_extractor.py:272-286 | the forward loop equals `ExcelTableEnd` |
| TableTitles.RawTexts | table_title_extractor.py:168-169 | at most one text per cell |
| TableTitles.IsMeaningfulStripped | table_title_extractor.py:140-147 | a text is meaningful exactly when, stripped, it has at least three characters, one of them kana, kanji, a digit or a Latin letter |
| TableTitles.Sentences | table_title_extractor.py:167-172 | at most one sentence per row of the range, each at least three characters |
| TableTitles.SentencesEmpty | table_title_extractor.py:167-172 | no sentence exactly when no row of the range is meaningful |
| TableTitles.CollectSentences | table_title_extractor.py:165-190 | each collecting loop equals `Sentences` over its range |
| TableTitles.SelectTitlePriority | table_title_extractor.py:192-210 | the title comes from the earliest non-empty area: the second-last sentence before the reference (or the only one), else the first between, else the first after |
| TableTitles.ExcelTitleChoice | table_title_extractor.py:117-219 | the title follows that priority over the three areas, has at least three characters, and has empty unit and unit quantity |
| TableTitles.ExcelTitlePastEnd | table_title_extractor.py:131-132 | a reference row past the end of the sheet gives no title (also lines 221-223) |
| TableTitles.CollectAreas | table_title_extractor.py:165-190 | the three loops collect the areas before, between and after |
| TableTitles.ExtractExcelTableTitleItems | table_title_extractor.py:117-223 | the method equals `ExcelTableTitleItems` |
| TitleText.NarrowChar | subtable_title_comparator.py:71-77 | the translation keeps whitespace as whitespace and leaves no full-width digit, letter or ideographic space |
| TitleText.Narrow | subtable_title_comparator.py:77 | the translation works character by character and keeps the length |
| TitleText.Widen | subtable_title_comparator.py:71-76 | the inverse table writes a text in full width, character by character |
| TitleText.RemoveSpacesConcat | subtable_title_comparator.py:80 | deleting whitespace works piece by piece |
| TitleText.RemoveSpacesBlank | subtable_title_comparator.py:80 | a whitespace-only text leaves nothing |
| TitleText.StripPieces | subtable_title_comparator.py:68 | `strip` cuts whitespace-only pieces from both ends |
| TitleText.LeadingBlank | subtable_title_comparator.py:68 | what the left strip cuts is whitespace |
| TitleText.TrailingBlank | subtable_title_comparator.py:68 | what the right strip cuts is whitespace |
| TitleText.NarrowConcat | subtable_title_comparator.py:77 | the translation works piece by piece |
| TitleText.NarrowBlank | subtable_title_comparator.py:77 | whitespace stays whitespace through the translation |
| TitleText.RemoveAround | subtable_title_comparator.py:68-80 | whitespace around a text vanishes once translated and deleted |
| TitleText.NormalizeTextPlain | subtable_title_comparator.py:60-82 | stripping first changes nothing: the result is the translation with whitespace deleted |
| TitleText.RemoveAroundAt | subtable_title_comparator.py:68-80 | whitespace before and after a slice vanishes once translated and deleted |
| TitleText.NormalizeTextChars | subtable_title_comparator.py:60-82 | the result holds no whitespace and no full-width digit, letter or ideographic space |
| TitleText.RemoveSpacesUnspaced | subtable_title_comparator.py:80 | a text without whitespace is left alone |
| TitleText.NormalizeTextIdempotent | subtable_title_comparator.py:60-82 | normalising twice gives what normalising once gives |
| TitleText.NormalizeTextIgnoresWidth | subtable_title_comparator.py:60-82 | writing digits, Latin letters and spaces in full width does not change the result |
| TitleText.NarrowWiden | subtable_title_comparator.py:71-77 | translating a full-width spelling gives what translating the original gives |
| TitleText.NarrowWidenChar | subtable_title_comparator.py:71-77 | the same, character by character |
| TitleComparator.QuantityInTitle | subtable_title_comparator.py:117-145 | an empty quantity or title never matches |
| TitleComparator.Adjacent | subtable_title_comparator.py:148-187 | an empty quantity, unit or title never matches |
| TitleComparator.AdjacentIgnoresWidth | subtable_title_comparator.py:148-187 | writing any argument in full-width digits, letters and spaces does not change the verdict |
| TitleComparator.ReplacePrefix | subtable_title_comparator.py:162-164 | a replacement whose pattern starts with a character absent from a prefix leaves that prefix alone |
| TitleComparator.NormUnitPrefix | subtable_title_comparator.py:161-165 | the unit rewriting leaves a prefix without `m`-sign characters alone |
| TitleComparator.NormalizeTextConcat | subtable_title_comparator.py:60-82 | normalisation works piece by piece |
| TitleComparator.DigitsNormalized | subtable_title_comparator.py:60-82 | a quantity in ASCII digits normalises to itself |
| TitleComparator.UnitFreeNormalized | subtable_title_comparator.py:71-77 | normalising never produces a character the unit rewriting acts on |
| TitleComparator.AdjacentFromContains | subtable_title_comparator.py:170-173 | the check succeeds when the normalised title contains the normalised quantity followed by the normalised unit |
| TitleComparator.NormalizedTitle | subtable_title_comparator.py:156-168 | a title made of a prefix, an ASCII-digit quantity and a unit normalises piece by piece |
| TitleComparator.AdjacentWhenTitleEndsWithQuantityUnit | subtable_title_comparator.py:148-187 | a title ending in the quantity followed by the unit matches, whatever prefix comes before |
| TitleComparator.TitleContainsQuantityUnit | subtable_title_comparator.py:156-172 | such a title contains the quantity and unit once normalised |
| TitleComparator.ContainsSuffix | subtable_title_comparator.py:172 | a text contains any of its suffixes |
| TitleComparator.NormalizedFixed | subtable_title_comparator.py:60-82 | an already normalised text is left alone |
| TitleComparator.NormalPrefixTitle | subtable_title_comparator.py:156-168 | a normalised prefix without `m`-sign characters passes both normalisations untouched |
| TitleComparator.ContainsNormalPrefix | subtable_title_comparator.py:170-172 | such a prefix followed by the unit is found in the normalised title |
| TitleComparator.AdjacentFromCommaContains | subtable_title_comparator.py:180-185 | the check also succeeds on the thousands spelling of the quantity followed by the unit |
| TitleComparator.AdjacentViaComma | subtable_title_comparator.py:180-185 | a title that is the thousands spelling followed by the unit matches |
| TitleComparator.CommaVariantOfDigits | subtable_title_comparator.py:181-183 | the thousands spelling of at least four ASCII digits puts a comma before the last three |
| TitleComparator.CommaSpellingPlain | subtable_title_comparator.py:181-183 | that spelling is already normalised |
| TitleComparator.AdjacentWithThousandsComma | subtable_title_comparator.py:180-185 | a title writing the quantity with a thousands comma, then the unit, matches |
| TitleComparator.CompareTitles | subtable_title_comparator.py:282-379 | unit, quantity and overall flags are all the adjacency verdict, given both titles and the PDF unit and quantity; the score is 100 on a match and 0 otherwise; a missing PDF or Excel title gives its own reason |
| TitleComparator.KitakamiKey | subtable_title_comparator.py:609-619 | after whitespace removal `第?N号K` and `KN号` both become `K:N`; anything else is the whitespace-free reference |
| TitleComparator.KitakamiSpellingsAgree | subtable_title_comparator.py:603-619 | `第N号K`, `N号K` and `KN号` give the same key |
| TitleComparator.OrdinalSpelling | subtable_title_comparator.py:611-614 | `第N号K` gives `K:N` |
| TitleComparator.PlainSpelling | subtable_title_comparator.py:611-614 | `N号K` gives `K:N` |
| TitleComparator.ExcelSpelling | subtable_title_comparator.py:615-618 | `KN号` gives `K:N` |
| TitleComparator.KitakamiKeyIdempotent | subtable_title_comparator.py:609-619 | a key is its own key |
| TitleComparator.KeyHasNoShape | subtable_title_comparator.py:611-618 | a key `K:N` matches neither spelling |
| TitleComparator.LastDot | subtable_title_comparator.py:537 | the position of the last dot, or none when there is no dot |
| TitleComparator.DropZeros | subtable_title_comparator.py:537 | the text without its trailing run of zeros, and only zeros are dropped |
| TitleComparator.Zeros | subtable_title_comparator.py:537 | `n` zeros |
| TitleComparator.NoCommasToRemove | subtable_title_comparator.py:533-534 | removing commas leaves digits and dots alone |
| TitleComparator.IntegerZerosStay | subtable_title_comparator.py:529-543 | an integer keeps its trailing zeros: "100" stays "100" |
| TitleComparator.ZeroFractionDropped | subtable_title_comparator.py:529-543 | an all-zero fraction goes with its dot: "1.00" becomes "1" |
| TitleComparator.ZeroFractionTrimmed | subtable_title_comparator.py:536-538 | trimming leaves the integer part |
| TitleComparator.ZeroFractionCut | subtable_title_comparator.py:537 | the first substitution leaves the dot |
| TitleComparator.SignificantFractionKept | subtable_title_comparator.py:529-543 | a significant fraction loses only its trailing zeros: "2.50" becomes "2.5" |
| TitleComparator.SignificantTrimmed | subtable_title_comparator.py:536-538 | trimming keeps the significant digits |
| TitleComparator.SignificantZerosCut | subtable_title_comparator.py:537 | the first substitution keeps them too |
| TitleComparator.SignificantNotZeroFraction | subtable_title_comparator.py:540 | a significant fraction is not an all-zero one |
| TitleComparator.DropZerosOf | subtable_title_comparator.py:537 | dropping the zeros after a non-zero digit gives that text back |
| TitleComparator.LastDotAt | subtable_title_comparator.py:537 | a dot with no dot after it is the last dot |
| TitleSummary.SkipSpaces | subtable_title_comparator.py:566 | a `\s*` run: everything skipped is whitespace and the next character is not |
| TitleSummary.QtyEnd | subtable_title_comparator.py:566 | a `[\d,，\.]+` run: everything taken is a quantity character and the next one is not |
| TitleSummary.WordEnd | subtable_title_comparator.py:566 | a `[^\s]+` run: nothing taken is whitespace and the next character is |
| TitleSummary.AfterChar | subtable_title_comparator.py:566 | one keyword character and its following whitespace move the position forward |
| TitleSummary.Keyword | subtable_title_comparator.py:566 | the spaced keyword `算出数量`, with an optional colon, moves the position forward |
| TitleSummary.GroupsAt | subtable_title_comparator.py:566 | the two groups are a non-empty run of quantity characters and a non-empty unit without whitespace |
| TitleSummary.MatchAt | subtable_title_comparator.py:565-566 | a match at one position yields such groups |
| TitleSummary.Search | subtable_title_comparator.py:565-566 | the leftmost match yields such groups |
| TitleSummary.RemarksQuantity | subtable_title_comparator.py:564-572 | the spaced pattern first, then the pattern on the whitespace-free remarks; a result has a non-empty quantity and a unit without whitespace |
| TitleSummary.RemarksWithQuantityAndUnit | subtable_title_comparator.py:564-572 | `算出数量`, digits, a space and a word give those digits and that word |
| TitleSummary.KeywordAtStart | subtable_title_comparator.py:566 | directly after `算出数量` comes the quantity |
| TitleSummary.QuantityAndUnitGroups | subtable_title_comparator.py:566 | after the keyword, the digits and the word are the two groups |
| TitleSummary.QtyEndAt | subtable_title_comparator.py:566 | a quantity run ends at the first other character |
| TitleSummary.WordEndAtEnd | subtable_title_comparator.py:566 | a word without whitespace runs to the end |
| TitleSummary.TripleTitle | subtable_title_comparator.py:560-574 | a triple-dot row's title holds exactly item name, unit and unit quantity, and the unit has no whitespace |
| TitleSummary.TripleTitles | subtable_title_comparator.py:552-574 | at most one title per item |
| TitleSummary.NouseiTitleForRef | subtable_title_comparator.py:546-583 | a title exactly when the reference reads `内N号` with `1 <= N <=` the number of triple-dot rows, and then it is the N-th of their titles |
| TitleSummary.TripleTitlesCount | subtable_title_comparator.py:552-574 | one title per flagged row |
| TitleSummary.FlaggedStep | subtable_title_comparator.py:557-559 | the last row adds its position to the flagged ones exactly when it is flagged |
| TitleSummary.UnflaggedRowsIgnored | subtable_title_comparator.py:557-559 | rows without the triple-dot flag never change which title a reference gets |
| TitleSummary.MinPageIsMinimum | subtable_title_comparator.py:633-636 | the first page is the page of one sub-table and no page is smaller; none when no sub-table has a page |
| TitleSummary.WithKeySnoc | subtable_title_comparator.py:631-632 | one more sub-table joins the list of its own key only |
| TitleSummary.GroupStepKeeps | subtable_title_comparator.py:627-636 | one iteration keeps the grouping exact |
| TitleSummary.GroupStepKeepsKey | subtable_title_comparator.py:627-636 | the same, for a sub-table with a key |
| TitleSummary.GroupStepLists | subtable_title_comparator.py:631-632 | the lists stay each key's sub-tables in order |
| TitleSummary.GroupStepKeys | subtable_title_comparator.py:632 | each key is listed once, in first-seen order |
| TitleSummary.GroupStepHolds | subtable_title_comparator.py:632 | a key has a list exactly when it has a sub-table |
| TitleSummary.GroupStepPages | subtable_title_comparator.py:633-636 | the first pages stay the minimum pages |
| TitleSummary.LowerPageHolds | subtable_title_comparator.py:634-636 | lowering a key's first page keeps it the minimum |
| TitleSummary.MinPageSnoc | subtable_title_comparator.py:634-636 | one more sub-table lowers the minimum only with a smaller page |
| TitleSummary.GroupedSpec | subtable_title_comparator.py:625-636 | the grouping holds, for each key with a reference, its sub-tables in order and their smallest page, with keys in first-seen order |
| TitleSummary.PdfEntry | subtable_title_comparator.py:638-662 | a key's entry keeps the first sub-table's reference, and is that sub-table itself unless the reference is `内N号` and main items are given |
| TitleSummary.ComparisonsPerMatchedKey | subtable_title_comparator.py:679-684 | one comparison per PDF key the Excel side also has |
| TitleSummary.ComparisonsOfMatchedKeys | subtable_title_comparator.py:679-684 | every comparison pairs the PDF and Excel sub-tables of one matched key |
| TitleSummary.Successes | subtable_title_comparator.py:695-696 | no more successes than comparisons |
| TitleSummary.MatchRate | subtable_title_comparator.py:713 | a percentage, 0 with nothing compared and 100 when every comparison matched |
| TitleSummary.CompareAllFromCachedData | subtable_title_comparator.py:586-728 | the totals count the inputs and the keyed entries; the comparisons are those of the matched keys, in key order; successes and failures add up to the comparisons, and the rate is their percentage |
| TitleSummary.GroupPdf | subtable_title_comparator.py:625-636 | the loop equals `Grouped`, with each key listed once and a non-empty list |
| TitleSummary.BuildExcelByRef | subtable_title_comparator.py:664-670 | the loop equals `ExcelByRef`: a later Excel sub-table of the same key wins |
| TitleSummary.CompareKeys | subtable_title_comparator.py:676-684 | the loop yields the comparisons and the matched keys |
| TitleSummary.CountSuccesses | subtable_title_comparator.py:695-696 | the count equals `Successes` |
| TitleSummary.BuildPdfByRef | subtable_title_comparator.py:638-662 | the loop equals `PdfByRef`, with one entry per grouped key |
| TitleSummary.FirstPageAttained | subtable_title_comparator.py:633-636 | a key's first page is the page of one of its sub-tables |
| TitleSummary.FirstPageBelow | subtable_title_comparator.py:633-636 | no sub-table of a key has a smaller page |
| TitleSummary.WithKeyMembers | subtable_title_comparator.py:627-632 | a key's list holds exactly the sub-tables with that key |
| ManagementFees.SheetOf | server/services/management_fee_extractor.py:85-100 | a table read as a sheet keeps its rows |
| ManagementFees.AddColumns | server/services/management_fee_extractor.py:169-196 | the cell loop keeps earlier columns unless a header cell sets them again, points every new entry at a cell naming that column, and reports a header cell exactly when one was found |
| ManagementFees.HeaderFrom | server/services/management_fee_extractor.py:161-205 | a header row found lies in the table and brings the mapping to at least three columns; with none the mapping is empty |
| ManagementFees.NamedWitness | server/services/management_fee_extractor.py:169-196 | a column named above row `r` has a header cell above it |
| ManagementFees.AddColumnsSound | server/services/management_fee_extractor.py:169-196 | one more row keeps every column pointing at a header cell at or above it |
| ManagementFees.HeaderFromSound | server/services/management_fee_extractor.py:161-205 | the mapping found points every column at a header cell at or above the header row, and the header row has a header cell |
| ManagementFees.MapSoundWiden | server/services/management_fee_extractor.py:163-196 | a sound mapping stays sound one row further |
| ManagementFees.HeaderAndColumnsSound | server/services/management_fee_extractor.py:151-205 | from the first row: the header row has a header cell, at least three columns are mapped, and each points at a cell naming it |
| ManagementFees.AddRowColumns | server/services/management_fee_extractor.py:169-196 | the cell loop equals `AddColumns` |
| ManagementFees.FindHeaderAndColumns | server/services/management_fee_extractor.py:151-205 | the row loop equals `HeaderFrom` from the first row with an empty mapping |
| ManagementFees.RowReference | server/services/management_fee_extractor.py:207-226 | a reference found ends in 号, has no whitespace and at least three characters |
| ManagementFees.FirstReference | server/services/management_fee_extractor.py:114-125 | the reference of some row from `r` on, and none only when no row shows one |
| ManagementFees.FindTableReference | server/services/management_fee_extractor.py:111-125 | the loop stops at the first row with a reference |
| ManagementFees.NonSpaceEnd | server/services/management_fee_extractor.py:261 | a `[^\s]+` run: nothing taken is whitespace and the next character is |
| ManagementFees.FeeAt | server/services/management_fee_extractor.py:261 | the group matched at one position is non-empty without whitespace |
| ManagementFees.FeeSearch | server/services/management_fee_extractor.py:268-273 | the leftmost match's group; found exactly when the pattern matches at some position |
| ManagementFees.FeeSearchNeedsLabel | server/services/management_fee_extractor.py:261-273 | a notes text without the label 管理費区分 has no category |
| ManagementFees.FeeRow | server/services/management_fee_extractor.py:228-336 | an item exactly when the notes cell gives a category that is not a zero token; it keeps the category and the notes text, the row number `r + 1`, the page and the reference or "Unknown" |
| ManagementFees.FeeRowCategory | server/services/management_fee_extractor.py:250-281 | a qualifying row's category is non-empty, without whitespace, not a zero token, and the normalised notes contain the label |
| ManagementFees.RowsGoodCons | server/services/management_fee_extractor.py:128-147 | an item from row `r` before items from later rows keeps them all sound and increasing |
| ManagementFees.RowsGoodWiden | server/services/management_fee_extractor.py:128-147 | items from rows after `r + 1` are items from rows after `r` |
| ManagementFees.FeeRowsSound | server/services/management_fee_extractor.py:128-147 | each item comes from a qualifying row with that row's number, and row numbers increase |
| ManagementFees.FeeRowsComplete | server/services/management_fee_extractor.py:128-147 | every qualifying row has its item |
| ManagementFees.SheetFeesSound | server/services/management_fee_extractor.py:85-149 | no header, no items; otherwise each item comes from a qualifying row below the header, with the table's reference or "Unknown" and the page |
| ManagementFees.FeeRowAt | server/services/management_fee_extractor.py:129-147 | one row appends its item, if any |
| ManagementFees.CollectFeeRows | server/services/management_fee_extractor.py:128-147 | the rows loop equals `FeeRows` |
| ManagementFees.ExtractFromSheet | server/services/management_fee_extractor.py:85-149 | the method equals `SheetFees` with the first reference of the table |
| ManagementFees.ExtractManagementFeeFromTable | server/services/management_fee_extractor.py:85-149 | the method equals `ManagementFeeFromTable` |
| ManagementFees.PageFees | server/services/management_fee_extractor.py:64-74 | every item of a page carries that page's number |
| ManagementFees.TableFeesPage | server/services/management_fee_extractor.py:69-71 | every item of a table carries the page number it was read with |
| ManagementFees.PagesWithinCons | server/services/management_fee_extractor.py:54-74 | items of one page before those of later pages stay within the visited pages, in order |
| ManagementFees.PagesFeesInRange | server/services/management_fee_extractor.py:54-74 | from a 0-based index of 0 or more the pages loop never fails, and numbers its items within the pages it visits, in order |
| ManagementFees.ManagementFeeSubtablesPages | server/services/management_fee_extractor.py:23-83 | with a start page of 1 or more, extraction succeeds and every item's page lies between the start page and both the end page and the page count |
| ManagementFees.PrependStep | server/services/management_fee_extractor.py:74 | extending in two steps is extending once |
| ManagementFees.PagesFeesStep | server/services/management_fee_extractor.py:54-74 | one round of the pages loop: a negative index counts from the end, one out of range fails, and otherwise the page's items come first |
| ManagementFees.ExtractPageFees | server/services/management_fee_extractor.py:64-74 | the tables loop equals `PageFees` |
| ManagementFees.ExtractManagementFeeSubtables | server/services/management_fee_extractor.py:23-83 | the method equals `ManagementFeeSubtables` |
| ExtractionCache.NewEntry | server/services/extraction_cache_service.py:59-75 | the entry keeps the five results, is created and last read at `now`, has no access yet and expires `ttl` seconds later |
| ExtractionCache.Read | server/services/extraction_cache_service.py:83-123 | an unknown id reads nothing and changes nothing; an expired entry reads nothing and is deleted; a live one gives back what was stored, counts one more access at `now`, and no other entry changes |
| ExtractionCache.ReadableExactlyUntilTtl | server/services/extraction_cache_service.py:36-123 | a stored session reads back exactly what was stored until `ttl` seconds have passed, and nothing after |
| ExtractionCache.ReadCountsAccess | server/services/extraction_cache_service.py:110-112 | a successful read counts one more access, records the time and leaves the expiry alone |
| ExtractionCache.Extended | server/services/extraction_cache_service.py:136-147 | the expiry becomes the later of the old one and `now` plus the extension, and nothing else changes |
| ExtractionCache.ActiveIds | server/services/extraction_cache_service.py:210-216 | exactly the ids whose entries have not expired |
| ExtractionCache.ExpiredIds | server/services/extraction_cache_service.py:182-218 | exactly the ids whose entries have expired |
| ExtractionCache.ActivePlusExpired | server/services/extraction_cache_service.py:205-223 | active and expired sessions add up to all sessions |
| ExtractionCache.WithoutExpired | server/services/extraction_cache_service.py:171-187 | exactly the entries that have not expired, unchanged |
| ExtractionCache.CleanupLeavesNoExpired | server/services/extraction_cache_service.py:171-193 | after cleanup nothing is expired, and removed plus remaining sessions are all there were |
| ExtractionCache.SumOverRemove | server/services/extraction_cache_service.py:210-216 | the sizes summed do not depend on the order the entries are visited in |
| ExtractionCache.StatsStepActive | server/services/extraction_cache_service.py:211-216 | a live entry is counted as active and its sizes are added |
| ExtractionCache.StatsStepExpired | server/services/extraction_cache_service.py:217-218 | an expired entry is counted as expired only |
| ExtractionCache.StatsStart | server/services/extraction_cache_service.py:205-208 | before the loop every counter is zero |
| ExtractionCache.StatsDone | server/services/extraction_cache_service.py:210-226 | after the loop the counters are the statistics of the whole cache |
| ExtractionCache.StatsStep | server/services/extraction_cache_service.py:210-218 | one iteration keeps the running counters exact |
| ExtractionCache.ExtractionCacheService.constructor | server/services/extraction_cache_service.py:25-34 | an empty cache with a time-to-live of `defaultTtlMinutes * 60` seconds |
| ExtractionCache.ExtractionCacheService.Store | server/services/extraction_cache_service.py:36-81 | the id is the one given or a generated one, and only its entry is written, fresh |
| ExtractionCache.ExtractionCacheService.GetResults | server/services/extraction_cache_service.py:83-123 | the read and the new cache are those of `Read` |
| ExtractionCache.ExtractionCacheService.ExtendSession | server/services/extraction_cache_service.py:125-151 | false for an unknown id with the cache unchanged; otherwise only that entry's expiry moves, never earlier |
| ExtractionCache.ExtractionCacheService.CleanupSession | server/services/extraction_cache_service.py:153-169 | removes only the given id and says whether it was there |
| ExtractionCache.ExtractionCacheService.CleanupExpired | server/services/extraction_cache_service.py:171-193 | the cache keeps exactly its live entries and the count returned is the number of expired ones |
| ExtractionCache.ExtractionCacheService.GetStats | server/services/extraction_cache_service.py:195-226 | active and expired counts, the total, and the sizes summed over the active entries |
| RateLimiter.Current | server/helpers/rate_limiter.py:27-32 | a missing key or an expired window starts a new window at `now` with no calls; otherwise the stored window |
| RateLimiter.RateLimit | server/helpers/rate_limiter.py:12-42 | allowed exactly when the current window holds fewer calls than the limit; a refusal changes nothing; an allowed call stores its window with one more call and touches no other key |
| RateLimiter.RateLimitBounded | server/helpers/rate_limiter.py:12-42 | with one limit throughout, every stored count stays between 1 and the limit |
| RateLimiter.NonPositiveLimitRefuses | server/helpers/rate_limiter.py:34-36 | on a store whose counts are all at least one (every store `RateLimit` builds), a limit of zero or less refuses every call and changes nothing |
| RateLimiter.WindowAllowsAtMost | server/helpers/rate_limiter.py:12-42 | within one window no more calls are allowed than the limit leaves |
| RateLimiter.RateLimitHeaders | server/helpers/rate_limiter.py:44-63 | the limit, the remaining calls (never negative) and the end of the stored window, or of a new one at `now` |
| RateLimiter.CheckRateLimit | server/helpers/rate_limiter.py:65-83 | a request under `prefix:address` is refused with headers exactly when `rate_limit` with the defaults refuses it |
| RateLimiter.RefusalHeaders | server/helpers/rate_limiter.py:65-83 | a refused request changes nothing and is told that nothing remains of its stored window, which ends no earlier than `now` |
| RateLimiter.RateLimitStore.constructor | server/helpers/rate_limiter.py:10 | the store starts empty |
| RateLimiter.RateLimitStore.Check | server/helpers/rate_limiter.py:12-42 | the decision and the new store are those of `RateLimit` |
| RateLimiter.RateLimitStore.CheckRequest | server/helpers/rate_limiter.py:65-83 | the new store and the refusal are those of `CheckRateLimit` |
| SpecExtractor.DigitRun | server/services/spec_extractor.py:23 | the run of digits from `i`: all taken are digits and the next character is not |
| SpecExtractor.ArticleAt | server/services/spec_extractor.py:23-33 | a heading matched at the start of a word is a prefix `第`, digits, `条`, and its number is the value of those digits |
| SpecExtractor.DigitRunExact | server/services/spec_extractor.py:23 | a maximal run of `k` digits is what `DigitRun` counts |
| SpecExtractor.ArticleAtHeading | server/services/spec_extractor.py:23-33 | any word starting with `第N条` reads back as that heading with the number `N` |
| SpecExtractor.PageArticleSpec | server/services/spec_extractor.py:28-37 | a page's article comes from a word in the top-left corner, and no earlier top-left word holds a heading; none only when no top-left word does |
| SpecExtractor.FindPageArticle | server/services/spec_extractor.py:28-37 | the word loop equals `PageArticle` |
| SpecExtractor.RawFoundSpec | server/services/spec_extractor.py:24-37 | each article name is recorded once, at the first page it heads, in page order, and every heading any page shows is recorded |
| SpecExtractor.StepSpec | server/services/spec_extractor.py:25-37 | one more page keeps that true |
| SpecExtractor.CompleteSame | server/services/spec_extractor.py:34 | a page whose heading is already recorded adds nothing |
| SpecExtractor.RecordedAppend | server/services/spec_extractor.py:34-36 | a new heading is recorded with its page |
| SpecExtractor.OrderedAppend | server/services/spec_extractor.py:35-36 | records stay in page order |
| SpecExtractor.DistinctAppend | server/services/spec_extractor.py:34-36 | names stay distinct |
| SpecExtractor.CompleteAppend | server/services/spec_extractor.py:35-36 | every heading seen so far stays recorded |
| SpecExtractor.FirstSeenAppend | server/services/spec_extractor.py:34-36 | each name keeps its first page |
| SpecExtractor.InsertByNum | server/services/spec_extractor.py:39 | inserting keeps the same articles |
| SpecExtractor.InsertMembers | server/services/spec_extractor.py:39 | inserting adds nothing but the new article |
| SpecExtractor.InsertSorted | server/services/spec_extractor.py:39 | inserting keeps the order by number |
| SpecExtractor.InsertDistinct | server/services/spec_extractor.py:39 | inserting a new name keeps names distinct |
| SpecExtractor.ConsDistinct | server/services/spec_extractor.py:39 | an article with a new name can go in front |
| SpecExtractor.SortByNum | server/services/spec_extractor.py:39 | the sort is a permutation |
| SpecExtractor.SortMembers | server/services/spec_extractor.py:39 | the sort keeps exactly the same articles |
| SpecExtractor.SortByNumSorted | server/services/spec_extractor.py:39 | the sort orders by number |
| SpecExtractor.SortByNumDistinct | server/services/spec_extractor.py:39 | the sort keeps names distinct |
| SpecExtractor.MapOfAt | server/services/spec_extractor.py:41-47 | with distinct names every article maps to its own range |
| SpecExtractor.MapOfKeys | server/services/spec_extractor.py:41-47 | nothing but the articles' names is mapped |
| SpecExtractor.ArticleMapSpec | server/services/spec_extractor.py:17-47 | an article's range runs from its first page to the first page of the next article by number, or to the page count; a later number on an earlier page gives an empty range |
| SpecExtractor.PageBelow | server/services/spec_extractor.py:25-36 | every recorded page lies in the document |
| SpecExtractor.MapOfWithin | server/services/spec_extractor.py:41-47 | every range starts inside the document and ends no later than its end |
| SpecExtractor.ArticleMapWithin | server/services/spec_extractor.py:17-47 | the same for the whole map |
| SpecExtractor.ContentEmpty | server/services/spec_extractor.py:49-62 | an unknown article, or one with an empty range, reads as no text and no tables |
| SpecExtractor.ContentOnePage | server/services/spec_extractor.py:49-62 | a one-page article reads exactly that page's text and tables |
| SpecExtractor.CollectHeadings | server/services/spec_extractor.py:25-37 | the page loop equals `RawFound` |
| SpecExtractor.MapRanges | server/services/spec_extractor.py:40-47 | the map loop equals `MapOf` |
| SpecExtractor.SpecFinalExtractor.constructor | server/services/spec_extractor.py:9-15 | keeps the pages and indexes them |
| SpecExtractor.SpecFinalExtractor.IndexPdf | server/services/spec_extractor.py:17-47 | the article map becomes `ArticleMap` of the pages |
| SpecExtractor.SpecFinalExtractor.GetContentForArticle | server/services/spec_extractor.py:49-62 | the text and tables read are `ContentFor` the article |
| SpecExtractor.Search | server/services/spec_extractor.py:64-68 | "Not Found" for empty text or no match |
| SpecExtractor.SearchFound | server/services/spec_extractor.py:68 | a found value is the captured group, stripped |
| SpecExtractor.SecondArticleAnswer | server/services/spec_extractor.py:84-86 | the result is 有, 無 or "Not Found", and those three are kept as they are |
| SpecExtractor.ThirdArticleAnswer | server/services/spec_extractor.py:98-100 | the result is 有, 無 or "Not Found", and "Not Found" exactly when the value was |
| SpecExtractor.AnswersSettle | server/services/spec_extractor.py:84-100 | both rules are idempotent; a value mentioning 有 becomes 有 under either, unless it already was 無 |
| SpecExtractor.AnswersDifferOnNeither | server/services/spec_extractor.py:84-100 | a value mentioning neither 有 nor 無 is "Not Found" under the 第2条 rule but 無 under the 第3条 rule |
| SpecExtractor.NormalizeAnswers | server/services/spec_extractor.py:84-100 | every key is kept; a 対象の有無 value is rewritten by its article's rule, any other value is kept |
| SpecExtractor.NormalizeAnswersTwice | server/services/spec_extractor.py:84-100 | rewriting twice changes nothing more |
| SpecTables.ListingOf | server/services/spec_extractor.py:164 | "Not Found" exactly when nothing was listed (also lines 198, 230) |
| SpecTables.ReplaceNewlines | server/services/spec_extractor.py:160-195 | replacing line breaks leaves none |
| SpecTables.Squeeze | server/services/spec_extractor.py:155-156 | the header text has no line break and no space (also lines 189-190, 221-222) |
| SpecTables.Cleaned | server/services/spec_extractor.py:160-161 | a cleaned cell has no line break (also lines 194-195, 226-227) |
| SpecTables.RecordOf | server/services/spec_extractor.py:162-163 | no value of a record has a line break (also lines 196-197, 228-229) |
| SpecTables.PerTable | server/services/spec_extractor.py:152-163 | one list per table |
| SpecTables.PerTableAt | server/services/spec_extractor.py:152-163 | table `t`'s list is that table's records |
| SpecTables.FlattenSpec | server/services/spec_extractor.py:152-163 | a record is listed exactly when one table's list holds it |
| SpecTables.FlattenEmpty | server/services/spec_extractor.py:164 | nothing is listed exactly when every table's list is empty |
| SpecTables.AllRecordsStep | server/services/spec_extractor.py:152-163 | one more table adds its records at the end |
| SpecTables.MarkedRecordsSpec | server/services/spec_extractor.py:158-163 | a record is a member of the marked records exactly when some ■ row of at least four cells gives it (membership only; MarkedRows fixes the order) |
| SpecTables.AllRecordsSpec | server/services/spec_extractor.py:152-163 | a record is listed exactly when some table's own records hold it |
| SpecTables.MarkedRecordsEmpty | server/services/spec_extractor.py:158-163 | a table lists nothing exactly when it has no ■ row of at least four cells |
| SpecTables.AllRecordsEmpty | server/services/spec_extractor.py:152-163 | nothing is listed exactly when no table lists anything |
| SpecTables.TableRecordsEmpty | server/services/spec_extractor.py:153-163 | a table lists nothing exactly when its header does not announce the material or it has no ■ row |
| SpecTables.NotFoundIff | server/services/spec_extractor.py:150-230 | "Not Found" exactly when every table announcing the material has no ■ row of at least four cells |
| SpecTables.MarkedRows | server/services/spec_extractor.py:158-163 | the row loop equals `MarkedRecords` |
| SpecTables.ExtractMarked | server/services/spec_extractor.py:150-230 | the table loop equals the listing of `AllRecords` |
| SpecTables.ExtractAsphaltTable | server/services/spec_extractor.py:150-164 | the asphalt records: material name and place of use of each ■ row of a table whose header names both |
| SpecTables.ExtractStoneTable | server/services/spec_extractor.py:184-198 | the stone records: name, specification and place of each ■ row of a table whose header names 石材類, or both 材料名 and 適用箇所 |
| SpecTables.ExtractRebarTable | server/services/spec_extractor.py:216-230 | the rebar records of each ■ row of a table whose header names 鉄筋 |
| SpecTables.CollectKasetsuTables | server/services/spec_extractor.py:352-358 | the loop keeps the tables whose header holds all six temporary-works headers |
| SpecTables.KasetsuConcat | server/services/spec_extractor.py:353-358 | the filter works piece by piece |
| SpecTables.KasetsuNone | server/services/spec_extractor.py:353-358 | tables without those headers give none |
| SpecTables.ZipRowSpec | server/services/spec_extractor.py:360-361 | a zipped row pairs each header the row reaches with the stripped cell |
| SpecTables.AnyTextIff | server/services/spec_extractor.py:361 | a row counts exactly when it is not blank |
| SpecTables.DataRowsSpec | server/services/spec_extractor.py:360-361 | a record is listed exactly when some non-blank row gives it |
| SpecTables.ExtractDai10Tables | server/services/spec_extractor.py:352-370 | the method equals `Dai10Tables` |
| SpecTables.Dai10TwoTables | server/services/spec_extractor.py:359-370 | with two temporary-works tables, 任意仮設 lists the first's data rows and 指定仮設 the second's, whatever follows |
| SpecTables.KasetsuSingle | server/services/spec_extractor.py:353-358 | one table is kept exactly when it has the headers |
| SpecTables.KasetsuTwo | server/services/spec_extractor.py:353-358 | the first two such tables come first |
| SpecTables.KasetsuPrefix | server/services/spec_extractor.py:353-358 | the only such table is the one kept |
| SpecTables.Dai10OneTable | server/services/spec_extractor.py:359-370 | with one such table 指定仮設 is "Not Found"; with none, both are |
| SpecTables.PaddedRecord | server/services/spec_extractor.py:415-418 | the row is padded with empty cells, or cut, to the four headers and zipped with them |
| SpecTables.FilledRecordsEmpty | server/services/spec_extractor.py:413-418 | nothing is listed exactly when no row has three filled leading cells |
| SpecTables.FirstEntriesSpec | server/services/spec_extractor.py:407-422 | the records come from the first table that yields any, and are empty only when no table does |
| SpecTables.FirstTableEntries | server/services/spec_extractor.py:405-421 | the 建設副産物 loop equals `FirstEntries` |
| SpecTables.ExtractDai11Tables | server/services/spec_extractor.py:400-440 | the method reads 建設副産物 as written and 建設廃棄物 the same way: `Dai11Tables` |
| SpecTables.WasteAsWrittenNeverRecords | server/services/spec_extractor.py:425-439 | as written, the 建設廃棄物 loop never stores a record: the key is absent or "Not Found" |
| SpecTables.WasteRowsDropped | server/services/spec_extractor.py:430-439 | when the first waste table has a filled row, the loop as written leaves 建設廃棄物 out, while the corrected reading lists the row |
| SpecTables.WasteSpec | server/services/spec_extractor.py:423-439 | 建設廃棄物 lists records exactly when some waste table has a filled row, and then those of the first such table |
| TenderApi.ValidateProjectArea | server/api/tender.py:36-42 | accepted exactly for 岩手, 北上市 and 農政; anything else is a 400 naming the area |
| TenderApi.ExtendedAreaRejected | server/api/tender.py:38 | the test is on whole strings: a supported area with anything appended is rejected |
| TenderApi.CheckRange | server/api/tender.py:421-427 | accepted exactly when the start and end given are at least 1 and in order; a start below 1 is reported first |
| TenderApi.CheckPageRanges | server/api/tender.py:420-437 | accepted exactly when both the main and the sub-table range are valid; a bad main range is reported by its own check |
| TenderApi.AcceptedRangeNonEmpty | server/api/tender.py:420-427 | an accepted request with both bounds names a non-empty range of pages counted from 1 |
| TenderApi.MainRangeFirst | server/api/tender.py:420-437 | a bad main range is reported before anything about the sub-table range |
| TenderApi.MainUnitMismatches | server/api/tender.py:647-654 | exactly the main-table results with a unit difference (a unit mismatch, or a quantity mismatch flagged as one), in order |
| TenderApi.SubtableUnitMismatches | server/api/tender.py:670-673 | exactly the sub-table results with a unit difference, in order |
| TenderApi.SubtableQuantityMismatches | server/api/tender.py:659-668 | exactly the quantity mismatches whose PDF and Excel items are not 諸雑費(率+まるめ), in order |
| TenderApi.QuantityMismatchWithUnitIsReported | server/api/tender.py:659-673 | a quantity mismatch flagged with a unit difference is reported in both lists |
| TenderApi.AllTokensInIff | server/api/tender.py:683 | true exactly when every non-empty token occurs in the name |
| TenderApi.AnyTokenInIff | server/api/tender.py:684-685 | true exactly when some non-empty token occurs in the name |
| TenderApi.Category | server/api/tender.py:683-690 | the category is 0, 2 or 3 |
| TenderApi.CategorySpec | server/api/tender.py:683-686 | 2 exactly when every non-empty PDF token occurs in the normalised Excel name, 3 exactly when some does but not all |
| TenderApi.NoTokensIsCategoryTwo | server/api/tender.py:683 | with no non-empty token the test reports Category 2 whatever the Excel name |
| TenderApi.MainNameMismatches | server/api/tender.py:676-700 | exactly the examined name mismatches of Category 2 or 3, in order |
| TenderApi.References | server/api/tender.py:2302-2305 | one reading per item |
| TenderApi.ReferencesAt | server/api/tender.py:2302-2305 | reading `i` is item `i`'s |
| TenderApi.Present | server/api/tender.py:2304-2305 | no more values than readings |
| TenderApi.PresentSpec | server/api/tender.py:2304-2305 | a value is kept exactly when some reading holds it |
| TenderApi.StrippedRemarks | server/api/tender.py:2301-2305 | at most one reference per item |
| TenderApi.StrippedRemarksSpec | server/api/tender.py:2301-2305 | a reference is listed exactly when some item's stripped, non-blank 摘要 is it |
| TenderApi.ReferenceOfShape | server/api/tender.py:2303-2305 | an item gives a reference exactly when its 摘要 is not blank, and it is the stripped 摘要 |
| TenderApi.ValidReferencesSpec | server/api/tender.py:2301-2310 | a valid reference is exactly the stripped, non-blank 摘要 of some item that mentions 号 or 単; never empty, without surrounding whitespace |
| Text.DigitValue | server/services/spec_extractor.py:33 | a digit's value is below ten |
| Text.LStrip | server/services/normalizer.py:97 | the left strip is a suffix that does not start with whitespace |
| Text.LStripRemovesSpaces | server/services/normalizer.py:97 | everything it removes is whitespace |
| Text.RStrip | server/services/normalizer.py:97 | the right strip is a prefix that does not end with whitespace |
| Text.RStripRemovesSpaces | server/services/normalizer.py:97 | everything it removes is whitespace |
| Text.StripShape | server/services/normalizer.py:97 | a stripped string is no longer and neither starts nor ends with whitespace |
| Text.StripEmptyIffBlank | server/services/pdf_parser.py:524 | stripping leaves nothing exactly when the text is all whitespace |
| Text.StripUnspaced | server/services/normalizer.py:97 | a text without whitespace at its ends is its own strip |
| Text.StripAt | server/services/normalizer.py:97 | each character of the strip sits in the original past the leading whitespace |
| Text.StripTwice | server/services/normalizer.py:97 | stripping twice strips nothing more |
| Text.NotEndsWithLast | server/services/normalizer.py:87-92 | a text whose last character differs from a suffix's does not end with it |
| Text.Find | server/services/spec_extractor.py:379 | `find` gives the first position where the piece occurs, and none exactly when it does not occur |
| Text.ContainsAt | server/services/spec_extractor.py:379 | a piece found at a position is contained |
| Text.ContainsSelf | server/services/spec_extractor.py:379 | a text contains itself |
| Text.ContainsEmpty | server/services/spec_extractor.py:379 | a text contains the empty piece |
| Text.ContainsShorter | server/services/spec_extractor.py:379 | a contained piece is no longer than the text |
| Text.ContainsInConcat | server/services/spec_extractor.py:379 | a piece of one part is a piece of the whole |
| Text.ContainsChar | server/services/spec_extractor.py:382 | a one-character piece is contained exactly when the character occurs |
| Text.Filter | server/services/normalizer.py:82-83 | a character-class deletion keeps only kept characters, in order, and changes nothing when all are kept |
| Text.FilterConcat | server/services/normalizer.py:82-83 | the deletion works piece by piece |
| Text.RemoveSpaces | server/services/normalizer.py:80 | deleting whitespace never lengthens the text |
| Text.RemoveSpacesChars | server/services/normalizer.py:80 | the result has no whitespace and only characters of the input |
| Text.ReplaceAll | server/services/management_fee_extractor.py:177 | `replace` changes nothing when the pattern does not occur |
| Text.ReplaceCharLength | server/services/management_fee_extractor.py:177 | replacing one character with another maps the text character by character |
| Text.Join | server/services/normalizer.py:40-58 | joining one part gives that part |
| Text.ContainsAcrossSep | subtable_pdf_extractor.py:167 | a piece without the separator found in a joined text lies in one of the two sides |
| Text.SliceAt | subtable_pdf_extractor.py:167 | every character of an occurrence is a character of the piece |
| Text.JoinContains | subtable_pdf_extractor.py:167 | a piece without the separator occurs in the joined row exactly when it occurs in one of the cells |
| Text.SplitOn | server/services/normalizer.py:52 | splitting on one character gives at least one piece, none holding the separator |
| Text.JoinSplitOn | server/services/normalizer.py:52-58 | splitting and joining again gives the text back |
| Text.SplitOnPrefix | server/services/normalizer.py:52 | a prefix without the separator stays in the first piece |
| Text.SplitOnJoin | server/services/normalizer.py:52-58 | joining separator-free pieces and splitting again gives the pieces back |
| Text.Word | excel_subtable_extractor.py:323 | the first word is a prefix without whitespace, followed by whitespace or the end |
| Text.SplitWsWords | excel_subtable_extractor.py:323 | every piece `split()` gives is a non-empty run without whitespace |
| Text.WordAfter | excel_subtable_extractor.py:306-325 | the word after a marker: empty when the marker is missing, never holding whitespace |
| Text.CollapseSpaces | excel_table_extractor_corrected.py:57 | collapsing whitespace runs never lengthens the text |
| Text.LowerChar | server/services/normalizer.py:77 | a lower-cased character is never an upper-case ASCII letter, and letters stay letters |
| Text.Lower | server/services/normalizer.py:77 | lower-casing works character by character and keeps the length |
| Grid.CellStrings | subtable_pdf_extractor.py:167 | one string per cell: the cell's text, or empty for a missing cell |
| Grid.CellText | server/services/pdf_parser.py:278 | the stripped text of a filled cell, non-empty exactly when the cell has text |
| Grid.NonEmptyTexts | table_title_extractor.py:244-245 | at most one text per cell, none empty |
| Grid.NonEmptyTextsOfBlank | server/services/pdf_parser.py:524 | a row is blank exactly when no cell has text |
| Numbers.FracValue | server/services/pdf_parser.py:634 | the digits after a point are worth less than one |
| Numbers.FirstDot | server/services/pdf_parser.py:634 | the first point, with none before it |
| Numbers.ParseUnsigned | server/services/pdf_parser.py:634 | an unsigned decimal is never negative |
| Numbers.ParseFloatHasDigit | server/services/pdf_parser.py:634 | whatever `float` accepts here holds a digit |
| Numbers.SignedHasDigit | server/services/pdf_parser.py:634 | a signed decimal holds a digit |
| Numbers.UnsignedHasDigit | server/services/pdf_parser.py:634 | an unsigned decimal holds a digit |
| Numbers.DigitChar | server/services/pdf_parser.py:659 | each value below ten has its digit |
| Numbers.DecimalString | server/services/pdf_parser.py:659 | `str(n)` is a non-empty run of digits |
| Numbers.DecimalStringAscii | server/services/pdf_parser.py:659 | `str(n)` writes ASCII digits only |
| Numbers.NatValueOfDecimalString | server/services/spec_extractor.py:33 | `int(str(n)) == n` |
| Numbers.ParseDecimalString | server/services/excel_parser.py:282 | `float(str(n)) == n` |
| Numbers.ParseUnsignedParts | server/services/pdf_parser.py:634 | digits, a point and digits are worth the integer part plus the fraction |
| Numbers.ParseFloatUnsigned | server/services/pdf_parser.py:634 | a text starting and ending with a digit parses as an unsigned decimal |
| Numbers.ParseFloatParts | server/services/pdf_parser.py:634 | a plain decimal literal parses to the value of its two digit runs |
| Numbers.ParseFloatNoDigit | server/services/pdf_parser.py:634 | a text without a digit does not parse |
| Numbers.ParsePlainDigits | server/services/pdf_parser.py:634 | a run of digits parses to its value |
| Numbers.NoDot | server/services/pdf_parser.py:634 | a run of digits has no point |

## Left out

- NormalizeText (`Normalizer.NormalizeText`, through `Normalizer.IsWordChar` and `Text.LowerChar`): Python's `\w` keeps every Unicode letter and digit and `lower()` folds every cased letter; the model keeps ASCII letters, digits and `_`, kana, kanji, 々, half-width katakana and Latin-1 letters, and lower-cases ASCII only, so a Greek, Cyrillic or circled character ("φ300", "㉑") is dropped by the model where Python keeps it, and "Ⅱ" or "À" keep their case.
- NumberRow (`ExcelParser.NumberRow`, through `Text.IsDigit` and `Text.AllDigits`): `str.isdigit` is modelled as ASCII and full-width digits only; Python also accepts other decimal digits ("٣") and digit-like characters ("①", "²"), so a name row such as "①" that server/services/excel_parser.py:160 skips is kept by the model.
- TableNumberRow (`TableTitles.TableNumberRow`): `^\d+$` is read with the same two digit ranges; Python's `\d` matches every Unicode decimal digit, so a row whose only text is "٣" is a table-number row in Python and not in the model. `ExcelVerification.TableNumberRow` depends on `Numbers.ParseFloat` instead (next lines).
- ParseFloat (`Numbers.ParseFloat`): `float()` is modelled as optional surrounding whitespace, an optional sign and digits with at most one point; the exponent form ("1e3", "1e-05"), "inf", "nan" and `_` separators ("1_000") are not parsed. Consequences: `ExcelParser.FlatOf` gives `None` on a quantity "1e-05" and `ExcelParser.SheetItems` then drops the sheet, where Python reads 1e-05; `ExcelService.ParseQuantity` gives 0.0 for "1e3" and "inf" where Python gives 1000.0 and infinity; `ExcelVerification.TableNumberRow` misses a lone "1e3" or "inf" that excel_verification_api.py:125 accepts. The doc comments of `Numbers.ParseFloatHasDigit` and `Numbers.ParseFloatNoDigit` are about this parser, not about Python's `float`.
- BlockItem (`PdfBlocks.BlockItem`): the 数量 raw field of a 農政 sub-table row is the cell text with commas removed; server/services/pdf_parser.py:1032-1033 stores `str(qty)`, the float's repr, so "12" is "12.0" there, "1,000" is "1000.0" and "0.50" is "0.5". The parsed quantity itself is the same.
- TenderItem and MergeInto (`TenderSchema.TenderItem`, `PdfParser.MergeInto`): server/schemas/tender.py:5-12 declares only `item_key`, `raw_fields`, `quantity` and `source`, but the parsers construct items with `unit` and `page_number` and server/services/pdf_parser.py:516 assigns `item.unit`. Under the schema as written that assignment raises, and the row-level `except` at server/services/pdf_parser.py:424-430 would swallow it. server/services/pdf_parser.py:7 imports a `SubtableItem` the schema does not declare, so the schema file is evidently older than its callers; the model takes the fields the callers use, as optional fields, and `MergeInto` sets the unit.
- SubtableItem (`TenderSchema.SubtableItem`): server/schemas/tender.py does not declare it, although server/services/pdf_parser.py:7 imports it; its fields are taken from the constructor call at server/services/pdf_parser.py:863-874 and from the callers that read them, and the cache stores values of that type.
- Document loading (pdfplumber pages, words and tables; pandas and openpyxl workbooks, styles and borders), file paths, temporary files and logging: the model starts from the grids they produce.
- The catch-all `except` blocks that log and return an empty or failed result: modelled as that result where an error path is reachable (`None`, `Failed`, a `Failure` response), otherwise left out; error message texts are not modelled.
- rapidfuzz `process.extractOne`/`fuzz.ratio`: an uninterpreted scorer bounded in [0, 100], with the first best candidate at or above the cutoff winning.
- `jaconv.z2h` and `str.translate`: fixed character maps over the ranges those calls touch.
- Python regular expressions: one hand-written predicate per pattern used; patterns that are data (the header literal of excel_table_extractor_corrected.py:609, the prefix literals of excel_subtable_api.py:89-105) are kept as written or taken as parameters.
- `tokenize_item_name`, called by server/api/tender.py for the name-mismatch categories, does not exist in server/services/normalizer.py; the tokens are an input of the category predicates.
- Iteration order of Python `set`s (the reference list of server/api/tender.py:2301-2310, the matched keys of matcher.py): the model uses Dafny sets, or states order-free properties.
- Time: `datetime.now()` and `time.time()` are a `now` parameter of the cache and rate-limiter operations; `get_rate_limit_headers` reads the clock a second time in the source, and the model uses the same `now` for both reads.
- The threading lock of the extraction cache: every operation is one sequential step.
- server/services/spec_extractor.py beyond the article map and the table filters: the free-text regex fields of `extract_dai2jou` and `extract_dai3jou` (the searched value is an input; only the 有/無 rewriting is modelled), `_extract_concrete_table`, `_extract_other_asphalt_table`, `_extract_other_materials_table`, `_extract_other_table`, `extract_dai7jou`, `extract_dai8jou`, the paired items and detail tables of `extract_dai10jou`, the text fields of `extract_dai11jou`, `extract_dai13jou`, `extract_dai14jou` and `extract_all`: regex cascades over OCR text with no contract beyond the "Not Found" default.
- server/api/tender.py beyond the request checks and result filters: uploads, response shaping, the `round()`-based percentage fields, and the endpoints that call methods missing from server/services/matcher.py.
- Helpers that nothing calls: `find_hair_border_boundaries`, `find_next_boundary` and `extract_complete_logical_row` of excel_table_extractor_corrected.py, and `_extract_unit_value` and `_extract_unit_quantity_value` of subtable_pdf_extractor.py.
- The success message of excel_subtable_api.py's response is not modelled (left empty).

## Findings

| source | as written | input that shows it | evidently intended | confidence | as-written member | corrected member |
|---|---|---|---|---|---|---|
| excel_verification_api.py:379-387 | `_update_stack_across_tables` pads the stack with `None` when a level is skipped, and `_find_parent_across_tables` (368-377) then reads `.level` of that `None`, raising `AttributeError`, so the whole verification fails | names indented by 0, 2 and 1 ideographic spaces, in that order | pass over the `None` slots: the third item's parent is the first item, and the build completes on every sheet | not executed | `ExcelStack.SkippedLevelFails` (on `ExcelStack.Run`) | `ExcelStack.RepairedRunParentsEarlier`, `ExcelStack.SkippedLevelRepaired`, `ExcelStack.RepairedRunAgrees` (used by `ExcelBuild.RepairedHierarchy` and `ExcelAmounts.RepairedVerifyFileAgrees`) |
| server/services/spec_extractor.py:430-439 | the 建設廃棄物 loop assigns the key only after a matching table yields no rows; when a table yields rows it breaks before the assignment, so the rows are never stored and the key is absent | an article whose first waste table (a header naming 廃棄物名 and 受入施設名) has a row with three filled leading cells | store the rows, as the 建設副産物 loop above it (407-422) does | not executed | `SpecTables.WasteRowsDropped`, `SpecTables.WasteAsWrittenNeverRecords` (on `SpecTables.WasteEntryAsWritten`) | `SpecTables.WasteSpec` (used by `SpecTables.Dai11Tables` and `SpecTables.ExtractDai11Tables`) |

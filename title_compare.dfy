/**
 * The string predicates of `subtable_title_comparator.py`: whether an Excel
 * sub-table title carries the PDF title's quantity and unit, the comparison of
 * one PDF sub-table with one Excel sub-table, the reference key that makes
 * `第3号明` and `明3号` the same sub-table, and the clean-up of a quantity text.
 */
module TitleComparator {
  import opened Wrappers
  import opened Text
  import opened TitleText
  import opened TenderSchema
  import opened Numbers

  // ------------------------------------------------------------ quantity + unit

  /** The thousands variant `q[:-3] + ',' + q[-3:]`, offered only for comma-free texts of four or more characters. */
  function CommaVariant(q: string): Option<string> {
    if ',' !in q && |q| >= 4 then Some(q[..|q| - 3] + "," + q[|q| - 3..]) else None
  }

  /** `check_unit_quantity_presence_in_excel_title`: the quantity, comma-free or with a thousands comma, occurs in the title. */
  function QuantityInTitle(pdfUnitQuantity: string, excelTitle: string): (b: bool)
    ensures pdfUnitQuantity == [] || excelTitle == [] ==> !b
  {
    if pdfUnitQuantity == [] || excelTitle == [] then false
    else
      var q := NormalizeText(pdfUnitQuantity);
      var t := NormalizeText(excelTitle);
      Contains(t, q) || Contains(t, ReplaceAll(q, ",", []))
      || (CommaVariant(q).Some? && Contains(t, CommaVariant(q).value))
  }

  /** The nested `norm_unit`: spellings of square and cubic metres to `m2` and `m3`, in the source's order. */
  function NormUnit(u: string): string {
    var u1 := ReplaceAll(ReplaceAll(ReplaceAll(u, "ｍ", "m"), "㎡", "m2"), "㎥", "m3");
    ReplaceAll(ReplaceAll(ReplaceAll(ReplaceAll(u1, "m^2", "m2"), "m²", "m2"), "m^3", "m3"), "m³", "m3")
  }

  /**
   * `check_adjacent_unit_quantity_unit_pattern`: after normalisation the title
   * contains the quantity immediately followed by the unit, with the quantity
   * as given, without commas, or with one thousands comma.
   */
  function Adjacent(pdfUnitQuantity: string, pdfUnit: string, excelTitle: string): (b: bool)
    ensures pdfUnitQuantity == [] || pdfUnit == [] || excelTitle == [] ==> !b
  {
    if pdfUnitQuantity == [] || pdfUnit == [] || excelTitle == [] then false
    else
      var q := NormalizeText(pdfUnitQuantity);
      var u := NormUnit(NormalizeText(pdfUnit));
      var t := NormUnit(NormalizeText(excelTitle));
      Contains(t, q + u) || Contains(t, ReplaceAll(q, ",", []) + u)
      || (CommaVariant(q).Some? && Contains(t, CommaVariant(q).value + u))
  }

  /** Writing any argument in full-width digits, letters and spaces does not change the verdict. */
  lemma {:induction false} AdjacentIgnoresWidth(pdfUnitQuantity: string, pdfUnit: string, excelTitle: string)
    ensures Adjacent(Widen(pdfUnitQuantity), Widen(pdfUnit), Widen(excelTitle)) == Adjacent(pdfUnitQuantity, pdfUnit, excelTitle)
  {
    NormalizeTextIgnoresWidth(pdfUnitQuantity);
    NormalizeTextIgnoresWidth(pdfUnit);
    NormalizeTextIgnoresWidth(excelTitle);
  }

  /** A replacement whose pattern starts with a character absent from `a` leaves the prefix `a` alone. */
  lemma {:induction false} ReplacePrefix(a: string, b: string, pat: string, rep: string)
    requires |pat| > 0 && pat[0] !in a
    ensures ReplaceAll(a + b, pat, rep) == a + ReplaceAll(b, pat, rep)
    decreases |a|
  {
    if a == [] {
      assert a + b == b;
    } else {
      var s := a + b;
      assert s[0] == a[0] && s[1..] == a[1..] + b;
      assert !StartsWith(s, pat) by {
        if |pat| <= |s| { assert s[..|pat|][0] == s[0]; }
      }
      assert ReplaceAll(s, pat, rep) == [s[0]] + ReplaceAll(s[1..], pat, rep);
      assert pat[0] !in a[1..];
      ReplacePrefix(a[1..], b, pat, rep);
      assert a == [a[0]] + a[1..];
    }
  }

  /** No character that starts one of the unit spellings. */
  predicate UnitFree(a: string) {
    'm' !in a && 'ｍ' !in a && '㎡' !in a && '㎥' !in a
  }

  lemma {:induction false} NormUnitPrefix(a: string, b: string)
    requires UnitFree(a)
    ensures NormUnit(a + b) == a + NormUnit(b)
  {
    ReplacePrefix(a, b, "ｍ", "m");
    var b1 := ReplaceAll(b, "ｍ", "m");
    ReplacePrefix(a, b1, "㎡", "m2");
    var b2 := ReplaceAll(b1, "㎡", "m2");
    ReplacePrefix(a, b2, "㎥", "m3");
    var b3 := ReplaceAll(b2, "㎥", "m3");
    ReplacePrefix(a, b3, "m^2", "m2");
    var b4 := ReplaceAll(b3, "m^2", "m2");
    ReplacePrefix(a, b4, "m²", "m2");
    var b5 := ReplaceAll(b4, "m²", "m2");
    ReplacePrefix(a, b5, "m^3", "m3");
    var b6 := ReplaceAll(b5, "m^3", "m3");
    ReplacePrefix(a, b6, "m³", "m3");
  }

  /** Normalisation works piece by piece on a concatenation. */
  lemma {:induction false} NormalizeTextConcat(a: string, b: string)
    ensures NormalizeText(a + b) == NormalizeText(a) + NormalizeText(b)
  {
    NormalizeTextPlain(a + b);
    NormalizeTextPlain(a);
    NormalizeTextPlain(b);
    NarrowConcat(a, b);
    RemoveSpacesConcat(Narrow(a), Narrow(b));
  }

  /** A quantity written in plain ASCII digits normalises to itself. */
  lemma {:induction false} DigitsNormalized(q: string)
    requires forall i :: 0 <= i < |q| ==> IsAsciiDigit(q[i])
    ensures NormalizeText(q) == q
  {
    NormalizeTextPlain(q);
    var n := Narrow(q);
    forall i | 0 <= i < |q| ensures n[i] == q[i] && !IsSpace(q[i]) {
      DigitSettled(q[i]);
    }
    assert n == q;
    RemoveSpacesUnspaced(q);
  }

  /** An ASCII digit passes the translation table unchanged and is not whitespace. */
  lemma {:induction false} DigitSettled(c: char)
    requires IsAsciiDigit(c)
    ensures NarrowChar(c) == c && !IsSpace(c)
  {
  }

  /** Narrowing never produces a unit letter from other characters. */
  lemma {:induction false} UnitFreeNormalized(a: string)
    requires UnitFree(a)
    ensures UnitFree(NormalizeText(a))
  {
    var n := Narrow(Strip(a));
    RemoveSpacesChars(n);
    assert UnitFree(n) by {
      var lo, hi := StripPieces(a);
      forall i | 0 <= i < |n| ensures n[i] != 'm' && n[i] != 'ｍ' && n[i] != '㎡' && n[i] != '㎥' {
        assert Strip(a)[i] == a[lo + i];
      }
    }
  }

  /** The title check succeeds as soon as the normalised title contains the normalised quantity and unit. */
  lemma {:induction false} AdjacentFromContains(q: string, u: string, t: string)
    requires q != [] && u != [] && t != []
    requires Contains(NormUnit(NormalizeText(t)), NormalizeText(q) + NormUnit(NormalizeText(u)))
    ensures Adjacent(q, u, t)
  {
  }

  /** A title made of a metre-free prefix, an ASCII-digit quantity and a unit normalises piece by piece. */
  lemma {:induction false} NormalizedTitle(prefix: string, q: string, u: string)
    requires PlainDigits(q) && UnitFree(prefix)
    ensures NormUnit(NormalizeText(prefix + q + u)) == NormalizeText(prefix) + q + NormUnit(NormalizeText(u))
  {
    var np, nu := NormalizeText(prefix), NormalizeText(u);
    DigitsNormalized(q);
    NormalizeTextConcat(prefix + q, u);
    NormalizeTextConcat(prefix, q);
    UnitFreeNormalized(prefix);
    assert UnitFree(np + q) by {
      assert forall i :: 0 <= i < |q| ==> q[i] != 'm' && q[i] != 'ｍ' && q[i] != '㎡' && q[i] != '㎥';
    }
    assert NormalizeText(prefix + q + u) == (np + q) + nu;
    NormUnitPrefix(np + q, nu);
  }

  /**
   * A title that ends in the quantity, written in ASCII digits, followed by the
   * unit matches, whatever text without a metre sign comes before them.
   */
  lemma {:induction false} AdjacentWhenTitleEndsWithQuantityUnit(prefix: string, q: string, u: string)
    requires q != [] && u != []
    requires PlainDigits(q)
    requires UnitFree(prefix)
    ensures Adjacent(q, u, prefix + q + u)
  {
    TitleContainsQuantityUnit(prefix, q, u);
    AdjacentFromContains(q, u, prefix + q + u);
  }

  lemma {:induction false} TitleContainsQuantityUnit(prefix: string, q: string, u: string)
    requires PlainDigits(q) && UnitFree(prefix)
    ensures Contains(NormUnit(NormalizeText(prefix + q + u)), NormalizeText(q) + NormUnit(NormalizeText(u)))
  {
    NormalizedTitle(prefix, q, u);
    DigitsNormalized(q);
    ContainsSuffix(NormalizeText(prefix), q, NormUnit(NormalizeText(u)));
  }

  lemma {:induction false} ContainsSuffix(a: string, b: string, c: string)
    ensures Contains(a + b + c, b + c)
  {
    var t := a + b + c;
    assert t[|a|..|a| + |b + c|] == b + c;
    ContainsAt(t, b + c, |a|);
  }

  /** Already in normal form: no whitespace and no full-width digit or letter. */
  predicate Normalized(s: string) {
    NoSpace(s) && forall i :: 0 <= i < |s| ==> !IsWideAlnum(s[i])
  }

  lemma {:induction false} NormalizedFixed(s: string)
    requires Normalized(s)
    ensures NormalizeText(s) == s
  {
    NormalizeTextPlain(s);
    assert Narrow(s) == s;
    RemoveSpacesUnspaced(s);
  }

  /** A normalised, metre-free prefix passes through both normalisations of a title untouched. */
  lemma {:induction false} NormalPrefixTitle(c: string, u: string)
    requires Normalized(c) && UnitFree(c)
    ensures NormUnit(NormalizeText(c + u)) == c + NormUnit(NormalizeText(u))
  {
    NormalizedFixed(c);
    NormalizeTextConcat(c, u);
    NormUnitPrefix(c, NormalizeText(u));
  }

  lemma {:induction false} ContainsNormalPrefix(c: string, u: string)
    requires Normalized(c) && UnitFree(c)
    ensures Contains(NormUnit(NormalizeText(c + u)), c + NormUnit(NormalizeText(u)))
  {
    NormalPrefixTitle(c, u);
    ContainsSelf(c + NormUnit(NormalizeText(u)));
  }

  /** The title check also succeeds when the normalised title contains the thousands spelling and the unit. */
  lemma {:induction false} AdjacentFromCommaContains(q: string, u: string, t: string)
    requires q != [] && u != [] && t != []
    requires CommaVariant(NormalizeText(q)).Some?
    requires Contains(NormUnit(NormalizeText(t)), CommaVariant(NormalizeText(q)).value + NormUnit(NormalizeText(u)))
    ensures Adjacent(q, u, t)
  {
  }

  lemma {:induction false} AdjacentViaComma(q: string, u: string, c: string)
    requires q != [] && u != []
    requires CommaVariant(NormalizeText(q)) == Some(c) && Normalized(c) && UnitFree(c)
    ensures Adjacent(q, u, c + u)
  {
    ContainsNormalPrefix(c, u);
    AdjacentFromCommaContains(q, u, c + u);
  }

  lemma {:induction false} CommaVariantOfDigits(q: string)
    requires |q| >= 4 && PlainDigits(q)
    ensures CommaVariant(NormalizeText(q)) == Some(q[..|q| - 3] + "," + q[|q| - 3..])
  {
    assert CommaVariant(q) == Some(q[..|q| - 3] + "," + q[|q| - 3..]) by {
      assert ',' !in q;
    }
    DigitsNormalized(q);
  }

  /** The thousands spelling of an ASCII-digit quantity is normalised and has no metre sign. */
  lemma {:induction false} CommaSpellingPlain(q: string)
    requires |q| >= 4 && PlainDigits(q)
    ensures Normalized(q[..|q| - 3] + "," + q[|q| - 3..]) && UnitFree(q[..|q| - 3] + "," + q[|q| - 3..])
  {
    var c := q[..|q| - 3] + "," + q[|q| - 3..];
    assert forall i :: 0 <= i < |c| ==> IsAsciiDigit(c[i]) || c[i] == ',';
  }

  /** A title that writes the quantity with a thousands comma still matches. */
  lemma {:induction false} AdjacentWithThousandsComma(q: string, u: string)
    requires |q| >= 4 && u != []
    requires PlainDigits(q)
    ensures Adjacent(q, u, q[..|q| - 3] + "," + q[|q| - 3..] + u)
  {
    CommaVariantOfDigits(q);
    CommaSpellingPlain(q);
    AdjacentViaComma(q, u, q[..|q| - 3] + "," + q[|q| - 3..]);
  }

  // ------------------------------------------------------------ one comparison

  /** A sub-table's `table_title`: absent, a plain string, or a dict of strings. */
  datatype Title = NoTitle | TextTitle(text: string) | DictTitle(fields: Fields)

  /** Python truthiness of the title: `None`, `""` and `{}` are false. */
  predicate Present(t: Title) {
    match t
    case NoTitle => false
    case TextTitle(s) => s != []
    case DictTitle(f) => f != []
  }

  /** `title.get(k, '')` for a dict title, and `''` for any other title. */
  function TitleField(t: Title, k: string): string {
    if t.DictTitle? then GetOrEmpty(t.fields, k) else []
  }

  /** The Excel title text: the dict's `item_name`, or the string itself. */
  function TitleString(t: Title): string {
    match t
    case DictTitle(f) => GetOrEmpty(f, "item_name")
    case TextTitle(s) => s
    case NoTitle => "None"
  }

  /** What the comparator reads of a sub-table. */
  datatype Subtable = Subtable(reference: string, title: Title, page: Option<int>)

  datatype Reason = NoPdfTitle | NoExcelTitle | PdfMissingUnitOrQuantity | ContainsQuantityUnit | MissingQuantityUnit

  /** The result dict of `compare_subtable_titles`. */
  datatype Comparison = Comparison(
    pdfReference: string,
    excelReference: string,
    pdfTitle: Title,
    excelTitle: Title,
    pdfPageNumber: Option<int>,
    pdfItemName: string,
    unitMatch: bool,
    unitQuantityMatch: bool,
    overallMatch: bool,
    matchScore: int,
    reason: Reason)

  /**
   * `compare_subtable_titles`: both titles must be present and the PDF title
   * must give a unit and a quantity; then the verdict is the adjacency check,
   * and the two detail flags and the score all follow it.
   */
  function CompareTitles(pdf: Subtable, excel: Subtable): (c: Comparison)
    ensures c.overallMatch == c.unitMatch == c.unitQuantityMatch
    ensures c.matchScore == if c.overallMatch then 100 else 0
    ensures c.overallMatch <==>
      && Present(pdf.title) && Present(excel.title)
      && Adjacent(TitleField(pdf.title, "unit_quantity"), TitleField(pdf.title, "unit"), TitleString(excel.title))
    ensures !Present(pdf.title) ==> c.reason == NoPdfTitle
    ensures Present(pdf.title) && !Present(excel.title) ==> c.reason == NoExcelTitle
    ensures Present(pdf.title) && Present(excel.title)
            && (TitleField(pdf.title, "unit") == [] || TitleField(pdf.title, "unit_quantity") == []) ==>
            c.reason == PdfMissingUnitOrQuantity
    ensures c.pdfReference == pdf.reference && c.excelReference == excel.reference && c.pdfPageNumber == pdf.page
  {
    var base := Comparison(pdf.reference, excel.reference, pdf.title, excel.title, pdf.page,
                           TitleField(pdf.title, "item_name"), false, false, false, 0, NoPdfTitle);
    if !Present(pdf.title) then base
    else if !Present(excel.title) then base.(reason := NoExcelTitle)
    else
      var unit := TitleField(pdf.title, "unit");
      var qty := TitleField(pdf.title, "unit_quantity");
      if unit == [] || qty == [] then base.(reason := PdfMissingUnitOrQuantity)
      else
        var adjacent := Adjacent(qty, unit, TitleString(excel.title));
        base.(unitMatch := adjacent, unitQuantityMatch := adjacent, overallMatch := adjacent,
              matchScore := if adjacent then 100 else 0,
              reason := if adjacent then ContainsQuantityUnit else MissingQuantityUnit)
  }

  // ------------------------------------------------------------ reference keys

  /** The two shapes `kitakami_key` recognises and what it yields for each: the trailing or leading kanji and the number. */
  function PdfShape(r: string): Option<(char, string)> {
    var t := if r != [] && r[0] == '第' then r[1..] else r;
    if |t| >= 3 && AllDigits(t[..|t| - 2]) && t[|t| - 2] == '号' && IsKanji(t[|t| - 1])
    then Some((t[|t| - 1], t[..|t| - 2]))
    else None
  }

  function ExcelShape(r: string): Option<(char, string)> {
    if |r| >= 3 && IsKanji(r[0]) && AllDigits(r[1..|r| - 1]) && r[|r| - 1] == '号'
    then Some((r[0], r[1..|r| - 1]))
    else None
  }

  /** `f"{tail}:{num}"` */
  function KeyOf(tail: char, num: string): string {
    [tail] + ":" + num
  }

  /**
   * `kitakami_key`: whitespace removed, then `第?N号K` (the PDF spelling) and
   * `KN号` (the Excel spelling) both become `K:N`; anything else is the
   * whitespace-free text.
   */
  function KitakamiKey(r: string): (k: string)
    ensures PdfShape(RemoveSpaces(r)).Some? ==> k == KeyOf(PdfShape(RemoveSpaces(r)).value.0, PdfShape(RemoveSpaces(r)).value.1)
    ensures PdfShape(RemoveSpaces(r)).None? && ExcelShape(RemoveSpaces(r)).Some? ==>
      k == KeyOf(ExcelShape(RemoveSpaces(r)).value.0, ExcelShape(RemoveSpaces(r)).value.1)
    ensures PdfShape(RemoveSpaces(r)).None? && ExcelShape(RemoveSpaces(r)).None? ==> k == RemoveSpaces(r)
  {
    var n := RemoveSpaces(r);
    match PdfShape(n)
    case Some((tail, num)) => KeyOf(tail, num)
    case None =>
      match ExcelShape(n)
      case Some((tail, num)) => KeyOf(tail, num)
      case None => n
  }

  /** `第N号K`, `N号K` and `KN号` all name the same sub-table. */
  lemma {:induction false} KitakamiSpellingsAgree(num: string, tail: char)
    requires AllDigits(num) && IsKanji(tail)
    ensures KitakamiKey("第" + num + "号" + [tail]) == KeyOf(tail, num)
    ensures KitakamiKey(num + "号" + [tail]) == KeyOf(tail, num)
    ensures KitakamiKey([tail] + num + "号") == KeyOf(tail, num)
  {
    OrdinalSpelling(num, tail);
    PlainSpelling(num, tail);
    ExcelSpelling(num, tail);
  }

  lemma {:induction false} OrdinalSpelling(num: string, tail: char)
    requires AllDigits(num) && IsKanji(tail)
    ensures KitakamiKey("第" + num + "号" + [tail]) == KeyOf(tail, num)
  {
    var a := "第" + num + "号" + [tail];
    assert forall i :: 0 <= i < |num| ==> !IsSpace(num[i]);
    RemoveSpacesUnspaced(a);
    assert a[1..][..|a| - 3] == num;
    assert PdfShape(a) == Some((tail, num));
  }

  lemma {:induction false} PlainSpelling(num: string, tail: char)
    requires AllDigits(num) && IsKanji(tail)
    ensures KitakamiKey(num + "号" + [tail]) == KeyOf(tail, num)
  {
    var b := num + "号" + [tail];
    assert forall i :: 0 <= i < |num| ==> !IsSpace(num[i]);
    RemoveSpacesUnspaced(b);
    assert b[..|b| - 2] == num;
    assert PdfShape(b) == Some((tail, num));
  }

  lemma {:induction false} ExcelSpelling(num: string, tail: char)
    requires AllDigits(num) && IsKanji(tail)
    ensures KitakamiKey([tail] + num + "号") == KeyOf(tail, num)
  {
    var c := [tail] + num + "号";
    assert forall i :: 0 <= i < |num| ==> !IsSpace(num[i]);
    RemoveSpacesUnspaced(c);
    assert c[1..|c| - 1] == num;
  }

  /** A key has no whitespace and is its own key again. */
  lemma {:induction false} KitakamiKeyIdempotent(r: string)
    ensures KitakamiKey(KitakamiKey(r)) == KitakamiKey(r)
  {
    var n := RemoveSpaces(r);
    RemoveSpacesChars(r);
    var k := KitakamiKey(r);
    if PdfShape(n).Some? || ExcelShape(n).Some? {
      var (tail, num) := if PdfShape(n).Some? then PdfShape(n).value else ExcelShape(n).value;
      assert k == KeyOf(tail, num);
      assert AllDigits(num);
      assert NoSpace(k) by {
        assert !IsSpace(tail) && !IsSpace(':');
        assert forall i :: 0 <= i < |num| ==> !IsSpace(num[i]);
      }
      RemoveSpacesUnspaced(k);
      KeyHasNoShape(tail, num);
    } else {
      RemoveSpacesUnspaced(n);
    }
  }

  /** A key `K:N` matches neither shape, because `:` is neither a digit, `号` nor a kanji. */
  lemma {:induction false} KeyHasNoShape(tail: char, num: string)
    requires AllDigits(num)
    ensures PdfShape(KeyOf(tail, num)).None? && ExcelShape(KeyOf(tail, num)).None?
  {
  }

  // ------------------------------------------------------------ quantity text

  /** Index of the last `.`, if any. */
  function LastDot(s: string): (r: Option<nat>)
    ensures r.Some? ==> r.value < |s| && s[r.value] == '.' && '.' !in s[r.value + 1..]
    ensures r.None? ==> '.' !in s
    decreases |s|
  {
    if s == [] then None
    else if s[|s| - 1] == '.' then Some(|s| - 1)
    else
      var r := LastDot(s[..|s| - 1]);
      assert s == s[..|s| - 1] + [s[|s| - 1]];
      if r.Some? then
        assert s[r.value + 1..] == s[..|s| - 1][r.value + 1..] + [s[|s| - 1]];
        r
      else r
  }

  /** `s` without its trailing run of `'0'`. */
  function DropZeros(s: string): (r: string)
    ensures |r| <= |s| && r == s[..|r|]
    ensures r == [] || r[|r| - 1] != '0'
    ensures forall i :: |r| <= i < |s| ==> s[i] == '0'
    decreases |s|
  {
    if s != [] && s[|s| - 1] == '0' then DropZeros(s[..|s| - 1]) else s
  }

  /** `re.sub(r'(\.\d*?)0+$', r'\1', s)`: zeros ending a run of digits after the last dot are cut. */
  function TrimFractionZeros(s: string): string {
    match LastDot(s)
    case Some(i) =>
      if |s| > i + 1 && DigitString(s[i + 1..]) && s[|s| - 1] == '0' then s[..i + 1] + DropZeros(s[i + 1..]) else s
    case None => s
  }

  /** `re.sub(r'\.$', '', s)` */
  function DropFinalDot(s: string): string {
    if s != [] && s[|s| - 1] == '.' then s[..|s| - 1] else s
  }

  /** `re.match(r'^(\d+)\.(0+)$', s)`: group 1. */
  function ZeroFraction(s: string): Option<string> {
    match LastDot(s)
    case Some(i) =>
      if AllDigits(s[..i]) && |s| > i + 1 && forall j :: i < j < |s| ==> s[j] == '0' then Some(s[..i]) else None
    case None => None
  }

  /** The text after both comma widths are removed and trailing fraction zeros and a dangling dot are cut. */
  function QtyTrimmed(q: string): string {
    var plain := ReplaceAll(ReplaceAll(q, "，", ","), ",", []);
    if '.' in plain then DropFinalDot(TrimFractionZeros(plain)) else plain
  }

  /** `_normalize_qty_text` */
  function NormalizeQtyText(q: string): string {
    if q == [] then []
    else
      var t := QtyTrimmed(q);
      match ZeroFraction(t)
      case Some(g) => g
      case None => t
  }

  function Zeros(n: nat): (z: string)
    ensures |z| == n && forall i :: 0 <= i < n ==> z[i] == '0'
  {
    seq(n, _ => '0')
  }

  predicate PlainDigits(s: string) {
    forall i :: 0 <= i < |s| ==> IsAsciiDigit(s[i])
  }

  /** Neither comma width occurs in a string of plain digits and dots, so their removal leaves it alone. */
  lemma {:induction false} NoCommasToRemove(s: string)
    requires forall i :: 0 <= i < |s| ==> IsAsciiDigit(s[i]) || s[i] == '.'
    ensures ReplaceAll(ReplaceAll(s, "，", ","), ",", []) == s
  {
    ContainsChar(s, '，');
    ContainsChar(s, ',');
  }

  /** An integer keeps its trailing zeros: `"100"` stays `"100"`. */
  lemma {:induction false} IntegerZerosStay(d: string)
    requires PlainDigits(d)
    ensures NormalizeQtyText(d) == d
  {
    NoCommasToRemove(d);
    assert '.' !in d;
    assert LastDot(d).None?;
  }

  /** An all-zero fraction goes with its dot: `"1.00"` becomes `"1"`. */
  lemma {:induction false} ZeroFractionDropped(d: string, n: nat)
    requires PlainDigits(d) && d != [] && n > 0
    ensures NormalizeQtyText(d + "." + Zeros(n)) == d
  {
    ZeroFractionTrimmed(d, n);
    assert '.' !in d;
    assert LastDot(d).None?;
  }

  lemma {:induction false} ZeroFractionTrimmed(d: string, n: nat)
    requires PlainDigits(d) && d != [] && n > 0
    ensures QtyTrimmed(d + "." + Zeros(n)) == d
  {
    var s := d + "." + Zeros(n);
    NoCommasToRemove(s);
    assert s[|d|] == '.';
    ZeroFractionCut(d, n);
    assert DropFinalDot(d + ".") == d;
  }

  lemma {:induction false} ZeroFractionCut(d: string, n: nat)
    requires PlainDigits(d) && n > 0
    ensures TrimFractionZeros(d + "." + Zeros(n)) == d + "."
  {
    var s := d + "." + Zeros(n);
    assert s[|d|] == '.';
    assert s[|d| + 1..] == Zeros(n);
    LastDotAt(s, |d|);
    assert DigitString(s[|d| + 1..]);
    assert DropZeros(Zeros(n)) == [];
    assert s[..|d| + 1] == d + ".";
  }

  /** A significant fraction keeps its digits and loses only the zeros after them: `"2.50"` becomes `"2.5"`. */
  lemma {:induction false} SignificantFractionKept(d: string, f: string, n: nat)
    requires PlainDigits(d) && PlainDigits(f) && f != [] && f[|f| - 1] != '0'
    ensures NormalizeQtyText(d + "." + f + Zeros(n)) == d + "." + f
  {
    SignificantTrimmed(d, f, n);
    SignificantNotZeroFraction(d, f);
  }

  lemma {:induction false} SignificantTrimmed(d: string, f: string, n: nat)
    requires PlainDigits(d) && PlainDigits(f) && f != [] && f[|f| - 1] != '0'
    ensures QtyTrimmed(d + "." + f + Zeros(n)) == d + "." + f
  {
    var s := d + "." + f + Zeros(n);
    NoCommasToRemove(s);
    assert s[|d|] == '.';
    SignificantZerosCut(d, f, n);
  }

  lemma {:induction false} SignificantZerosCut(d: string, f: string, n: nat)
    requires PlainDigits(d) && PlainDigits(f) && f != [] && f[|f| - 1] != '0'
    ensures TrimFractionZeros(d + "." + f + Zeros(n)) == d + "." + f
  {
    var s := d + "." + f + Zeros(n);
    assert s[|d| + 1..] == f + Zeros(n);
    LastDotAt(s, |d|);
    if n > 0 {
      DropZerosOf(f, n);
      assert s[..|d| + 1] == d + ".";
    } else {
      assert s == d + "." + f;
    }
  }

  lemma {:induction false} SignificantNotZeroFraction(d: string, f: string)
    requires PlainDigits(d) && PlainDigits(f) && f != [] && f[|f| - 1] != '0'
    ensures ZeroFraction(d + "." + f).None?
  {
    var r := d + "." + f;
    assert r[|d| + 1..] == f;
    LastDotAt(r, |d|);
    assert r[|r| - 1] == f[|f| - 1];
  }

  lemma {:induction false} DropZerosOf(f: string, n: nat)
    requires f != [] && f[|f| - 1] != '0'
    ensures DropZeros(f + Zeros(n)) == f
    decreases n
  {
    if n > 0 {
      assert (f + Zeros(n))[..|f| + n - 1] == f + Zeros(n - 1);
      DropZerosOf(f, n - 1);
    } else {
      assert f + Zeros(0) == f;
    }
  }

  /** The dot at `i` is the last dot when everything after it is digits. */
  lemma {:induction false} LastDotAt(s: string, i: nat)
    requires i < |s| && s[i] == '.'
    requires forall j :: i < j < |s| ==> s[j] != '.'
    ensures LastDot(s) == Some(i)
  {
  }
}

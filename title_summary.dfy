/**
 * The cached-data side of `subtable_title_comparator.py`: the 農政 title a
 * `内N号` reference takes from the N-th triple-dot main row, and
 * `compare_all_subtable_titles_from_cached_data`, which groups the PDF
 * sub-tables by their reference key, pairs them with the Excel sub-tables of
 * the same key and summarises the comparisons.
 */
module TitleSummary {
  import opened Wrappers
  import opened Text
  import opened TenderSchema
  import opened Numbers
  import opened RefNames
  import opened TitleComparator
  import PdfParser

  // ------------------------------------------------------ 算出数量 in the remarks

  /** A character of the class `[\d,，\.]`. */
  predicate IsQtyChar(c: char) {
    IsDigit(c) || c == ',' || c == '，' || c == '.'
  }

  /** The end of the run of `\s` starting at `i`. */
  function SkipSpaces(s: string, i: nat): (j: nat)
    requires i <= |s|
    ensures i <= j <= |s|
    ensures forall k :: i <= k < j ==> IsSpace(s[k])
    ensures j == |s| || !IsSpace(s[j])
    decreases |s| - i
  {
    if i < |s| && IsSpace(s[i]) then SkipSpaces(s, i + 1) else i
  }

  /** The end of the run of quantity characters starting at `i`. */
  function QtyEnd(s: string, i: nat): (j: nat)
    requires i <= |s|
    ensures i <= j <= |s|
    ensures forall k :: i <= k < j ==> IsQtyChar(s[k])
    ensures j == |s| || !IsQtyChar(s[j])
    decreases |s| - i
  {
    if i < |s| && IsQtyChar(s[i]) then QtyEnd(s, i + 1) else i
  }

  /** The end of the run of non-whitespace characters starting at `i`. */
  function WordEnd(s: string, i: nat): (j: nat)
    requires i <= |s|
    ensures i <= j <= |s|
    ensures forall k :: i <= k < j ==> !IsSpace(s[k])
    ensures j == |s| || IsSpace(s[j])
    decreases |s| - i
  {
    if i < |s| && !IsSpace(s[i]) then WordEnd(s, i + 1) else i
  }

  /** `c\s*` at `i`: the position after the character and the whitespace that follows it. */
  function AfterChar(s: string, i: nat, c: char): (r: Option<nat>)
    requires i <= |s|
    ensures r.Some? ==> i < r.value <= |s|
  {
    if i < |s| && s[i] == c then Some(SkipSpaces(s, i + 1)) else None
  }

  /** `算\s*出\s*数\s*量\s*[:：]?\s*` at `i`: where the quantity may start. */
  function Keyword(s: string, i: nat): (r: Option<nat>)
    requires i <= |s|
    ensures r.Some? ==> i < r.value <= |s|
  {
    match AfterChar(s, i, '算')
    case None => None
    case Some(a) =>
      match AfterChar(s, a, '出')
      case None => None
      case Some(b) =>
        match AfterChar(s, b, '数')
        case None => None
        case Some(c) =>
          match AfterChar(s, c, '量')
          case None => None
          case Some(d) =>
            if d < |s| && (s[d] == ':' || s[d] == '：') then Some(SkipSpaces(s, d + 1)) else Some(d)
  }

  /**
   * The two groups of `([\d,，\.]+)\s*([^\s]+)` matched at `k`. The quantity run
   * is greedy; only when nothing but whitespace follows it does the engine
   * give back its last character, which then forms the second group alone.
   */
  function GroupsAt(s: string, k: nat): (r: Option<(string, string)>)
    requires k <= |s|
    ensures r.Some? ==> r.value.0 != [] && r.value.1 != [] && NoSpace(r.value.1)
    ensures r.Some? ==> forall i :: 0 <= i < |r.value.0| ==> IsQtyChar(r.value.0[i])
  {
    var e := QtyEnd(s, k);
    if e == k then None
    else
      var p := SkipSpaces(s, e);
      if p < |s| then Some((s[k..e], s[p..WordEnd(s, p)]))
      else if e - k >= 2 then Some((s[k..e - 1], s[e - 1..e]))
      else None
  }

  /** The whole pattern matched at `i`. */
  function MatchAt(s: string, i: nat): (r: Option<(string, string)>)
    requires i <= |s|
    ensures r.Some? ==> r.value.0 != [] && r.value.1 != [] && NoSpace(r.value.1)
    ensures r.Some? ==> forall j :: 0 <= j < |r.value.0| ==> IsQtyChar(r.value.0[j])
  {
    match Keyword(s, i)
    case None => None
    case Some(k) => GroupsAt(s, k)
  }

  /** `re.search` of the pattern from position `i` on: the leftmost match. */
  function Search(s: string, i: nat): (r: Option<(string, string)>)
    requires i <= |s|
    ensures r.Some? ==> r.value.0 != [] && r.value.1 != [] && NoSpace(r.value.1)
    ensures r.Some? ==> forall j :: 0 <= j < |r.value.0| ==> IsQtyChar(r.value.0[j])
    decreases |s| - i
  {
    if i == |s| then None
    else
      match MatchAt(s, i)
      case Some(m) => Some(m)
      case None => Search(s, i + 1)
  }

  /**
   * The quantity and unit a remarks text states: the spaced pattern first,
   * then the same pattern without `\s*` on the text with all whitespace
   * removed, where the two patterns coincide.
   */
  function RemarksQuantity(remarks: string): (r: Option<(string, string)>)
    ensures r.Some? ==> r.value.0 != [] && r.value.1 != [] && NoSpace(r.value.1)
  {
    match Search(remarks, 0)
    case Some(m) => Some(m)
    case None => Search(RemoveSpaces(remarks), 0)
  }

  /** `"算出数量"`, then the quantity, one space and a unit: those are the groups. */
  lemma {:induction false} RemarksWithQuantityAndUnit(q: string, u: string)
    requires q != [] && forall i :: 0 <= i < |q| ==> IsAsciiDigit(q[i])
    requires u != [] && NoSpace(u)
    ensures RemarksQuantity("算出数量" + q + " " + u) == Some((q, u))
  {
    var s := "算出数量" + q + " " + u;
    assert s[..4] == "算出数量";
    assert s[4] == q[0];
    KeywordAtStart(s);
    QuantityAndUnitGroups(q, u);
    assert MatchAt(s, 0) == Some((q, u));
  }

  /** `算出数量` followed directly by a digit: the quantity may start right after the keyword. */
  lemma {:induction false} KeywordAtStart(s: string)
    requires |s| > 4 && s[..4] == "算出数量" && IsAsciiDigit(s[4])
    ensures Keyword(s, 0) == Some(4)
  {
    assert s[0] == '算' && s[1] == '出' && s[2] == '数' && s[3] == '量';
    assert SkipSpaces(s, 1) == 1 && SkipSpaces(s, 2) == 2 && SkipSpaces(s, 3) == 3;
    assert SkipSpaces(s, 4) == 4;
  }

  /** After the keyword, the digits, one space and a word without whitespace are the two groups. */
  lemma {:induction false} QuantityAndUnitGroups(q: string, u: string)
    requires q != [] && forall i :: 0 <= i < |q| ==> IsAsciiDigit(q[i])
    requires u != [] && NoSpace(u)
    ensures GroupsAt("算出数量" + q + " " + u, 4) == Some((q, u))
  {
    var s := "算出数量" + q + " " + u;
    var e := 4 + |q|;
    assert s[4..e] == q;
    QtyEndAt(s, 4, e);
    assert s[e] == ' ';
    assert SkipSpaces(s, e) == e + 1 by {
      assert SkipSpaces(s, e + 1) == e + 1 by { assert s[e + 1] == u[0]; }
    }
    assert s[e + 1..] == u;
    WordEndAtEnd(s, e + 1);
    assert s[e + 1..WordEnd(s, e + 1)] == u;
  }

  lemma {:induction false} QtyEndAt(s: string, i: nat, e: nat)
    requires i <= e < |s| && forall k :: i <= k < e ==> IsQtyChar(s[k])
    requires !IsQtyChar(s[e])
    ensures QtyEnd(s, i) == e
    decreases e - i
  {
    if i < e {
      QtyEndAt(s, i + 1, e);
    }
  }

  lemma {:induction false} WordEndAtEnd(s: string, i: nat)
    requires i <= |s| && forall k :: i <= k < |s| ==> !IsSpace(s[k])
    ensures WordEnd(s, i) == |s|
    decreases |s| - i
  {
    if i < |s| {
      WordEndAtEnd(s, i + 1);
    }
  }

  // ------------------------------------------------------------ 農政 titles

  /** `raw.get(a) or raw.get(b) or ''` */
  function EitherField(raw: Fields, a: string, b: string): string {
    if GetOrEmpty(raw, a) != [] then GetOrEmpty(raw, a) else GetOrEmpty(raw, b)
  }

  /** A main row the PDF reader flagged as opened by three dots. */
  predicate IsTripleItem(item: TenderItem) {
    GetOrEmpty(item.rawFields, PdfParser.TripleDotField) != []
  }

  /** The title one triple-dot row gives: its stripped name, and the unit and quantity its remarks state. */
  function TripleTitle(item: TenderItem): (t: Fields)
    ensures |t| == 3 && t[0].0 == "item_name" && t[1].0 == "unit" && t[2].0 == "unit_quantity"
    ensures t[1].1 != [] ==> NoSpace(t[1].1)
  {
    var raw := item.rawFields;
    var name := Strip(EitherField(raw, PdfParser.NouseiNameCol, PdfParser.NameCol));
    var remarks := EitherField(raw, PdfParser.RemarksCol, PdfParser.NoteCol);
    var found: Option<(string, string)> := if remarks == [] then None else RemarksQuantity(remarks);
    if found.Some? then
      [("item_name", name), ("unit", found.value.1), ("unit_quantity", NormalizeQtyText(ReplaceAll(found.value.0, "，", ",")))]
    else [("item_name", name), ("unit", []), ("unit_quantity", [])]
  }

  /** The titles of the triple-dot rows, in row order. */
  function TripleTitles(items: seq<TenderItem>): (ts: seq<Fields>)
    ensures |ts| <= |items|
    decreases |items|
  {
    if items == [] then []
    else
      var last := items[|items| - 1];
      TripleTitles(items[..|items| - 1]) + (if IsTripleItem(last) then [TripleTitle(last)] else [])
  }

  /**
   * `_build_nousei_pdf_title_for_ref`: the titles of the triple-dot rows are
   * collected in order, and `内N号` takes the N-th of them.
   */
  method NouseiTitleForRef(reference: string, items: seq<TenderItem>) returns (title: Option<Fields>)
    ensures title == NouseiTitle(reference, items)
    ensures title.Some? <==> RefNum(reference).Some? && 1 <= RefNum(reference).value <= |TripleTitles(items)|
    ensures title.Some? ==> title.value == TripleTitles(items)[RefNum(reference).value - 1]
  {
    if items == [] {
      return None;
    }
    var titles: seq<Fields> := [];
    for i := 0 to |items|
      invariant titles == TripleTitles(items[..i])
    {
      assert items[..i + 1][..i] == items[..i];
      if IsTripleItem(items[i]) {
        titles := titles + [TripleTitle(items[i])];
      }
    }
    assert items[..|items|] == items;
    if titles == [] {
      return None;
    }
    match RefNum(reference) {
      case None => title := None;
      case Some(n) =>
        if 1 <= n <= |titles| {
          title := Some(titles[n - 1]);
        } else {
          title := None;
        }
    }
  }

  /** The title `NouseiTitleForRef` returns, as a value. */
  function NouseiTitle(reference: string, items: seq<TenderItem>): Option<Fields> {
    var titles := TripleTitles(items);
    match RefNum(reference)
    case Some(n) => if 1 <= n <= |titles| then Some(titles[n - 1]) else None
    case None => None
  }

  /** The positions of the triple-dot rows. */
  function Flagged(items: seq<TenderItem>): set<int> {
    set i | 0 <= i < |items| && IsTripleItem(items[i])
  }

  /** There is one title per flagged row. */
  lemma {:induction false} TripleTitlesCount(items: seq<TenderItem>)
    ensures |TripleTitles(items)| == |Flagged(items)|
    decreases |items|
  {
    if items != [] {
      var n := |items| - 1;
      TripleTitlesCount(items[..n]);
      FlaggedStep(items);
      if IsTripleItem(items[n]) {
        assert n !in Flagged(items[..n]);
      }
    }
  }

  /** The last row adds its own position to the flagged ones, when it is flagged. */
  lemma {:induction false} FlaggedStep(items: seq<TenderItem>)
    requires items != []
    ensures Flagged(items) == Flagged(items[..|items| - 1])
                              + (if IsTripleItem(items[|items| - 1]) then {|items| - 1} else {})
  {
    var n := |items| - 1;
    var before := Flagged(items[..n]);
    assert before == set i | 0 <= i < n && IsTripleItem(items[i]);
    forall i | i in Flagged(items)
      ensures i in before + (if IsTripleItem(items[n]) then {n} else {})
    {
      if i != n { assert i < n; }
    }
  }

  /** Items that are not flagged never change which title a reference gets. */
  lemma {:induction false} UnflaggedRowsIgnored(items: seq<TenderItem>, other: TenderItem)
    requires !IsTripleItem(other)
    ensures TripleTitles(items + [other]) == TripleTitles(items)
  {
    assert (items + [other])[..|items|] == items;
  }

  // ------------------------------------------------------------ the summary

  /** The key `ref_to_subs` files a PDF sub-table under; none when it has no reference. */
  function PdfKey(sub: Subtable): Option<string> {
    if sub.reference == [] then None else Some(KitakamiKey(sub.reference))
  }

  /** `ref_to_subs` (its keys in insertion order and its lists) and `ref_to_first_page`. */
  datatype Groups = Groups(keys: seq<string>, lists: map<string, seq<Subtable>>, firstPage: map<string, int>)

  /** One step of the grouping loop: `setdefault(key, []).append(sub)` and the running minimum page. */
  function GroupStep(g: Groups, sub: Subtable): Groups {
    match PdfKey(sub)
    case None => g
    case Some(k) =>
      var keys := if k in g.lists then g.keys else g.keys + [k];
      var list := if k in g.lists then g.lists[k] + [sub] else [sub];
      Groups(keys, g.lists[k := list], LowerPage(g.firstPage, k, sub.page))
  }

  /** The running minimum page of key `k` after a sub-table on `page`. */
  function LowerPage(fp: map<string, int>, k: string, page: Option<int>): map<string, int> {
    if page.Some? && (k !in fp || page.value < fp[k]) then fp[k := page.value] else fp
  }

  /** The grouping of a run of PDF sub-tables. */
  function Grouped(subs: seq<Subtable>): Groups
    decreases |subs|
  {
    if subs == [] then Groups([], map[], map[])
    else GroupStep(Grouped(subs[..|subs| - 1]), subs[|subs| - 1])
  }

  /** The sub-tables filed under `k`, in order. */
  function WithKey(subs: seq<Subtable>, k: string): seq<Subtable>
    decreases |subs|
  {
    if subs == [] then []
    else WithKey(subs[..|subs| - 1], k) + (if PdfKey(subs[|subs| - 1]) == Some(k) then [subs[|subs| - 1]] else [])
  }

  /** The smallest page among sub-tables, if any of them has one. */
  function MinPage(subs: seq<Subtable>): Option<int>
    decreases |subs|
  {
    if subs == [] then None
    else
      var m := MinPage(subs[..|subs| - 1]);
      var p := subs[|subs| - 1].page;
      if p.Some? && (m.None? || p.value < m.value) then p else m
  }

  /** `MinPage` is the minimum: some sub-table has it, and no page is smaller. */
  lemma {:induction false} MinPageIsMinimum(subs: seq<Subtable>)
    ensures MinPage(subs).None? <==> forall x :: x in subs ==> x.page.None?
    ensures MinPage(subs).Some? ==> exists x :: x in subs && x.page == MinPage(subs)
    ensures forall x :: x in subs && x.page.Some? ==> MinPage(subs).Some? && MinPage(subs).value <= x.page.value
    decreases |subs|
  {
    if subs != [] {
      var n := |subs| - 1;
      MinPageIsMinimum(subs[..n]);
      assert subs == subs[..n] + [subs[n]];
    }
  }

  /**
   * What a grouping holds for a run of sub-tables: a key is listed exactly
   * when some sub-table has it, once, with all its sub-tables in order, and
   * with the minimum of their pages when any has one.
   */
  ghost predicate GroupsOf(g: Groups, subs: seq<Subtable>) {
    ListsOf(g, subs) && PagesOf(g, subs)
  }

  ghost predicate ListsOf(g: Groups, subs: seq<Subtable>) {
    KeysListed(g) && ListsHold(g, subs)
  }

  /** The keys in insertion order are the keys of the lists, each once. */
  ghost predicate KeysListed(g: Groups) {
    && (forall k :: k in g.lists <==> k in g.keys)
    && (forall i, j :: 0 <= i < j < |g.keys| ==> g.keys[i] != g.keys[j])
  }

  /** Each key's list holds its sub-tables in order, and a key is there exactly when it has one. */
  ghost predicate ListsHold(g: Groups, subs: seq<Subtable>) {
    && (forall k :: k in g.lists ==> g.lists[k] == WithKey(subs, k) && WithKey(subs, k) != [])
    && (forall k :: k !in g.lists ==> WithKey(subs, k) == [])
  }

  ghost predicate PagesOf(g: Groups, subs: seq<Subtable>) {
    PagesHold(g.firstPage, subs)
  }

  /** A key has a first page exactly when one of its sub-tables has a page, and it is their minimum. */
  ghost predicate PagesHold(fp: map<string, int>, subs: seq<Subtable>) {
    && (forall k :: k in fp <==> MinPage(WithKey(subs, k)).Some?)
    && (forall k :: k in fp ==> fp[k] == MinPage(WithKey(subs, k)).value)
  }

  lemma {:induction false} WithKeySnoc(subs: seq<Subtable>, sub: Subtable, k: string)
    ensures WithKey(subs + [sub], k) == WithKey(subs, k) + (if PdfKey(sub) == Some(k) then [sub] else [])
  {
    assert (subs + [sub])[..|subs|] == subs;
  }

  lemma {:induction false} GroupStepKeeps(g: Groups, subs: seq<Subtable>, sub: Subtable)
    requires GroupsOf(g, subs)
    ensures GroupsOf(GroupStep(g, sub), subs + [sub])
  {
    var subs' := subs + [sub];
    forall k ensures WithKey(subs', k) == WithKey(subs, k) + (if PdfKey(sub) == Some(k) then [sub] else []) {
      WithKeySnoc(subs, sub, k);
    }
    if PdfKey(sub).Some? {
      GroupStepKeepsKey(g, subs, sub, PdfKey(sub).value);
    }
  }

  lemma {:induction false} GroupStepKeepsKey(g: Groups, subs: seq<Subtable>, sub: Subtable, key: string)
    requires GroupsOf(g, subs) && PdfKey(sub) == Some(key)
    requires forall k :: WithKey(subs + [sub], k) == WithKey(subs, k) + (if k == key then [sub] else [])
    ensures GroupsOf(GroupStep(g, sub), subs + [sub])
  {
    GroupStepLists(g, subs, sub, key);
    GroupStepPages(g, subs, sub, key);
  }

  lemma {:induction false} GroupStepLists(g: Groups, subs: seq<Subtable>, sub: Subtable, key: string)
    requires ListsOf(g, subs) && PdfKey(sub) == Some(key)
    requires forall k :: WithKey(subs + [sub], k) == WithKey(subs, k) + (if k == key then [sub] else [])
    ensures ListsOf(GroupStep(g, sub), subs + [sub])
  {
    GroupStepKeys(g, sub, key);
    GroupStepHolds(g, subs, sub, key);
  }

  lemma {:induction false} GroupStepKeys(g: Groups, sub: Subtable, key: string)
    requires KeysListed(g) && PdfKey(sub) == Some(key)
    ensures KeysListed(GroupStep(g, sub))
  {
    var g' := GroupStep(g, sub);
    if key !in g.lists {
      assert g'.keys == g.keys + [key];
      forall i, j | 0 <= i < j < |g'.keys| ensures g'.keys[i] != g'.keys[j] {
        if j == |g.keys| {
          assert g'.keys[i] == g.keys[i];
        }
      }
    }
    assert forall k :: k in g'.keys <==> k in g.keys || k == key;
  }

  lemma {:induction false} GroupStepHolds(g: Groups, subs: seq<Subtable>, sub: Subtable, key: string)
    requires ListsHold(g, subs) && PdfKey(sub) == Some(key)
    requires forall k :: WithKey(subs + [sub], k) == WithKey(subs, k) + (if k == key then [sub] else [])
    ensures ListsHold(GroupStep(g, sub), subs + [sub])
  {
    var g', subs' := GroupStep(g, sub), subs + [sub];
    forall k | k != key
      ensures WithKey(subs', k) == WithKey(subs, k)
      ensures (k in g'.lists) == (k in g.lists)
      ensures k in g.lists ==> g'.lists[k] == g.lists[k]
    {
    }
    assert key in g'.lists && g'.lists[key] == WithKey(subs', key);
  }

  lemma {:induction false} GroupStepPages(g: Groups, subs: seq<Subtable>, sub: Subtable, key: string)
    requires PagesOf(g, subs) && PdfKey(sub) == Some(key)
    requires forall k :: WithKey(subs + [sub], k) == WithKey(subs, k) + (if k == key then [sub] else [])
    ensures PagesOf(GroupStep(g, sub), subs + [sub])
  {
    assert GroupStep(g, sub).firstPage == LowerPage(g.firstPage, key, sub.page);
    LowerPageHolds(g.firstPage, subs, sub, key);
  }

  lemma {:induction false} LowerPageHolds(fp: map<string, int>, subs: seq<Subtable>, sub: Subtable, key: string)
    requires PagesHold(fp, subs)
    requires forall k :: WithKey(subs + [sub], k) == WithKey(subs, k) + (if k == key then [sub] else [])
    ensures PagesHold(LowerPage(fp, key, sub.page), subs + [sub])
  {
    var fp', subs' := LowerPage(fp, key, sub.page), subs + [sub];
    MinPageSnoc(WithKey(subs, key), sub);
    assert WithKey(subs', key) == WithKey(subs, key) + [sub];
    forall k | k != key
      ensures WithKey(subs', k) == WithKey(subs, k)
      ensures (k in fp') == (k in fp)
      ensures k in fp ==> fp'[k] == fp[k]
    {
    }
  }

  lemma {:induction false} MinPageSnoc(w: seq<Subtable>, sub: Subtable)
    ensures MinPage(w + [sub]) == if sub.page.Some? && (MinPage(w).None? || sub.page.value < MinPage(w).value)
                                  then sub.page else MinPage(w)
  {
    assert (w + [sub])[..|w|] == w;
  }

  /** The grouping loop establishes what a grouping holds. */
  lemma {:induction false} GroupedSpec(subs: seq<Subtable>)
    ensures GroupsOf(Grouped(subs), subs)
    decreases |subs|
  {
    if subs != [] {
      var n := |subs| - 1;
      GroupedSpec(subs[..n]);
      assert subs == subs[..n] + [subs[n]];
      GroupStepKeeps(Grouped(subs[..n]), subs[..n], subs[n]);
    }
  }

  /** A sub-table whose reference reads `内N号` in full. */
  predicate IsNouseiRef(r: string) {
    RefDigits(r).Some?
  }

  /**
   * `pdf_by_ref[key]`: the first sub-table of the key; for a 農政 reference,
   * when main items are given, a new record with the title built from the
   * triple-dot rows (or none) and the first page of the key.
   */
  function PdfEntry(base: Subtable, firstPage: Option<int>, items: seq<TenderItem>): (e: Subtable)
    ensures e.reference == base.reference
    ensures !IsNouseiRef(base.reference) || items == [] ==> e == base
  {
    if IsNouseiRef(base.reference) && items != [] then
      var t := NouseiTitle(base.reference, items);
      Subtable(base.reference, if t.Some? then DictTitle(t.value) else NoTitle,
               if firstPage.Some? then firstPage else base.page)
    else base
  }

  /** `pdf_by_ref` built from a grouping. */
  function PdfByRef(g: Groups, items: seq<TenderItem>): map<string, Subtable> {
    map k | k in g.lists && g.lists[k] != [] :: PdfEntry(g.lists[k][0], if k in g.firstPage then Some(g.firstPage[k]) else None, items)
  }

  /** `excel_by_ref`: every Excel sub-table under its key, a later one replacing an earlier one. */
  function ExcelByRef(subs: seq<Subtable>): map<string, Subtable>
    decreases |subs|
  {
    if subs == [] then map[]
    else ExcelByRef(subs[..|subs| - 1])[KitakamiKey(subs[|subs| - 1].reference) := subs[|subs| - 1]]
  }

  /** The comparisons of the keys present on both sides, in the order of `keys`. */
  function Comparisons(keys: seq<string>, pdf: map<string, Subtable>, excel: map<string, Subtable>): seq<Comparison>
    decreases |keys|
  {
    if keys == [] then []
    else
      var k := keys[|keys| - 1];
      Comparisons(keys[..|keys| - 1], pdf, excel) + (if k in pdf && k in excel then [CompareTitles(pdf[k], excel[k])] else [])
  }

  /** The keys compared: those of `keys` the Excel side also has. */
  function Matched(keys: seq<string>, excel: map<string, Subtable>): set<string> {
    set k | k in keys && k in excel
  }

  /** With distinct keys all on the PDF side, there is one comparison per matched key. */
  lemma {:induction false} ComparisonsPerMatchedKey(keys: seq<string>, pdf: map<string, Subtable>, excel: map<string, Subtable>)
    requires forall k :: k in keys ==> k in pdf
    requires forall i, j :: 0 <= i < j < |keys| ==> keys[i] != keys[j]
    ensures |Comparisons(keys, pdf, excel)| == |Matched(keys, excel)|
    decreases |keys|
  {
    if keys != [] {
      var n := |keys| - 1;
      var k := keys[n];
      ComparisonsPerMatchedKey(keys[..n], pdf, excel);
      assert k !in keys[..n];
      if k in excel {
        assert Matched(keys, excel) == Matched(keys[..n], excel) + {k};
      } else {
        assert Matched(keys, excel) == Matched(keys[..n], excel);
      }
    }
  }

  /** Every comparison pairs the PDF and Excel sub-tables of one matched key. */
  lemma {:induction false} ComparisonsOfMatchedKeys(keys: seq<string>, pdf: map<string, Subtable>, excel: map<string, Subtable>, i: nat)
    requires i < |Comparisons(keys, pdf, excel)|
    ensures exists k :: k in Matched(keys, excel) && k in pdf && Comparisons(keys, pdf, excel)[i] == CompareTitles(pdf[k], excel[k])
    decreases |keys|
  {
    var n := |keys| - 1;
    var before := Comparisons(keys[..n], pdf, excel);
    if i < |before| {
      ComparisonsOfMatchedKeys(keys[..n], pdf, excel, i);
      var k :| k in Matched(keys[..n], excel) && k in pdf && before[i] == CompareTitles(pdf[k], excel[k]);
      assert k in Matched(keys, excel);
    } else {
      assert keys[n] in Matched(keys, excel);
    }
  }

  /** The number of comparisons that match. */
  function Successes(cs: seq<Comparison>): (n: nat)
    ensures n <= |cs|
    decreases |cs|
  {
    if cs == [] then 0 else Successes(cs[..|cs| - 1]) + (if cs[|cs| - 1].overallMatch then 1 else 0)
  }

  /** The `summary` dict, with the comparisons beside it. */
  datatype Summary = Summary(
    totalPdfSubtables: nat,
    totalExcelSubtables: nat,
    pdfSubtablesWithTitles: nat,
    excelSubtablesWithTitles: nat,
    totalComparisons: nat,
    successfulMatches: nat,
    failedMatches: int,
    matchRate: real,
    pdfOnly: set<string>,
    excelOnly: set<string>,
    comparisons: seq<Comparison>)

  /** `match_rate`: a percentage, zero when nothing was compared. */
  function MatchRate(successful: nat, total: nat): (rate: real)
    requires successful <= total
    ensures 0.0 <= rate <= 100.0
    ensures total == 0 ==> rate == 0.0
    ensures successful == total && total > 0 ==> rate == 100.0
  {
    if total > 0 then (successful as real) / (total as real) * 100.0 else 0.0
  }

  /**
   * `compare_all_subtable_titles_from_cached_data`: the PDF sub-tables grouped
   * by key with their first page, each key's entry (a 農政 one rebuilt from
   * the main items), the Excel sub-tables by key, one comparison per key on
   * both sides, and the counts.
   */
  method CompareAllFromCachedData(pdfSubs: seq<Subtable>, excelSubs: seq<Subtable>, items: seq<TenderItem>)
    returns (r: Summary)
    ensures r.totalPdfSubtables == |pdfSubs| && r.totalExcelSubtables == |excelSubs|
    ensures r.pdfSubtablesWithTitles == |PdfByRef(Grouped(pdfSubs), items)| && r.excelSubtablesWithTitles == |ExcelByRef(excelSubs)|
    ensures r.comparisons == Comparisons(Grouped(pdfSubs).keys, PdfByRef(Grouped(pdfSubs), items), ExcelByRef(excelSubs))
    ensures r.totalComparisons == |r.comparisons| == |Matched(Grouped(pdfSubs).keys, ExcelByRef(excelSubs))|
    ensures r.successfulMatches == Successes(r.comparisons)
    ensures r.successfulMatches + r.failedMatches == r.totalComparisons && r.failedMatches >= 0
    ensures r.matchRate == MatchRate(r.successfulMatches, r.totalComparisons)
    ensures r.pdfOnly == PdfByRef(Grouped(pdfSubs), items).Keys - Matched(Grouped(pdfSubs).keys, ExcelByRef(excelSubs))
    ensures r.excelOnly == ExcelByRef(excelSubs).Keys - Matched(Grouped(pdfSubs).keys, ExcelByRef(excelSubs))
    ensures forall k :: k in r.pdfOnly ==> k !in ExcelByRef(excelSubs)
    ensures forall k :: k in r.excelOnly ==> k !in PdfByRef(Grouped(pdfSubs), items)
  {
    var g := GroupPdf(pdfSubs);
    var pdfByRef := BuildPdfByRef(g, items);
    var excelByRef := BuildExcelByRef(excelSubs);
    var results, matched := CompareKeys(g.keys, pdfByRef, excelByRef);
    ComparisonsPerMatchedKey(g.keys, pdfByRef, excelByRef);
    var successful := CountSuccesses(results);
    var total := |results|;
    r := Summary(|pdfSubs|, |excelSubs|, |pdfByRef|, |excelByRef|, total, successful, total - successful,
                 MatchRate(successful, total), pdfByRef.Keys - matched, excelByRef.Keys - matched, results);
  }

  /** The loop that fills `ref_to_subs` and `ref_to_first_page`. */
  method GroupPdf(pdfSubs: seq<Subtable>) returns (g: Groups)
    ensures g == Grouped(pdfSubs)
    ensures forall k :: k in g.lists <==> k in g.keys
    ensures forall k :: k in g.lists ==> g.lists[k] != []
    ensures forall i, j :: 0 <= i < j < |g.keys| ==> g.keys[i] != g.keys[j]
  {
    var keys: seq<string>, lists: map<string, seq<Subtable>>, firstPage: map<string, int> := [], map[], map[];
    for i := 0 to |pdfSubs|
      invariant Groups(keys, lists, firstPage) == Grouped(pdfSubs[..i])
    {
      assert pdfSubs[..i + 1][..i] == pdfSubs[..i];
      var sub := pdfSubs[i];
      if sub.reference != [] {
        var key := KitakamiKey(sub.reference);
        if key in lists {
          lists := lists[key := lists[key] + [sub]];
        } else {
          keys := keys + [key];
          lists := lists[key := [sub]];
        }
        if sub.page.Some? && (key !in firstPage || sub.page.value < firstPage[key]) {
          firstPage := firstPage[key := sub.page.value];
        }
      }
    }
    assert pdfSubs[..|pdfSubs|] == pdfSubs;
    g := Groups(keys, lists, firstPage);
    GroupedSpec(pdfSubs);
  }

  /** The loop that fills `excel_by_ref`. */
  method BuildExcelByRef(excelSubs: seq<Subtable>) returns (excelByRef: map<string, Subtable>)
    ensures excelByRef == ExcelByRef(excelSubs)
  {
    excelByRef := map[];
    for i := 0 to |excelSubs|
      invariant excelByRef == ExcelByRef(excelSubs[..i])
    {
      assert excelSubs[..i + 1][..i] == excelSubs[..i];
      excelByRef := excelByRef[KitakamiKey(excelSubs[i].reference) := excelSubs[i]];
    }
    assert excelSubs[..|excelSubs|] == excelSubs;
  }

  /** The loop that compares every PDF key the Excel side also has and collects `matched_refs`. */
  method CompareKeys(keys: seq<string>, pdfByRef: map<string, Subtable>, excelByRef: map<string, Subtable>)
    returns (results: seq<Comparison>, matched: set<string>)
    requires forall k :: k in keys ==> k in pdfByRef
    ensures results == Comparisons(keys, pdfByRef, excelByRef)
    ensures matched == Matched(keys, excelByRef)
  {
    results, matched := [], {};
    for j := 0 to |keys|
      invariant results == Comparisons(keys[..j], pdfByRef, excelByRef)
      invariant matched == Matched(keys[..j], excelByRef)
    {
      assert keys[..j + 1][..j] == keys[..j];
      var key := keys[j];
      if key in excelByRef {
        results := results + [CompareTitles(pdfByRef[key], excelByRef[key])];
        matched := matched + {key};
      }
    }
    assert keys[..|keys|] == keys;
  }

  /** `sum(1 for comp in comparison_results if comp["overall_match"])` */
  method CountSuccesses(results: seq<Comparison>) returns (successful: nat)
    ensures successful == Successes(results)
  {
    successful := 0;
    for j := 0 to |results|
      invariant successful == Successes(results[..j])
    {
      assert results[..j + 1][..j] == results[..j];
      if results[j].overallMatch {
        successful := successful + 1;
      }
    }
    assert results[..|results|] == results;
  }

  /** The loop over the keys of `ref_to_subs` that builds `pdf_by_ref`. */
  method BuildPdfByRef(g: Groups, items: seq<TenderItem>) returns (pdfByRef: map<string, Subtable>)
    requires forall k :: k in g.lists <==> k in g.keys
    requires forall k :: k in g.lists ==> g.lists[k] != []
    ensures pdfByRef == PdfByRef(g, items)
    ensures pdfByRef.Keys == g.lists.Keys
  {
    pdfByRef := map[];
    for j := 0 to |g.keys|
      invariant forall k :: k in pdfByRef <==> k in g.keys[..j]
      invariant forall k :: k in pdfByRef ==> pdfByRef[k] == PdfByRef(g, items)[k]
    {
      var key := g.keys[j];
      var subs := g.lists[key];
      var base := subs[0];
      var origRef := base.reference;
      if IsNouseiRef(origRef) && items != [] {
        var refPage := if key in g.firstPage then Some(g.firstPage[key]) else None;
        var title := NouseiTitleForRef(origRef, items);
        var augmented := Subtable(origRef, NoTitle, base.page);
        if title.Some? {
          augmented := augmented.(title := DictTitle(title.value));
        }
        if refPage.Some? {
          augmented := augmented.(page := refPage);
        }
        pdfByRef := pdfByRef[key := augmented];
      } else {
        pdfByRef := pdfByRef[key := base];
      }
    }
  }

  /** The first page recorded for a key is the page of one of its sub-tables. */
  lemma {:induction false} FirstPageAttained(subs: seq<Subtable>, k: string)
    requires k in Grouped(subs).firstPage
    ensures exists i :: 0 <= i < |subs| && PdfKey(subs[i]) == Some(k) && subs[i].page == Some(Grouped(subs).firstPage[k])
  {
    GroupedSpec(subs);
    var w := WithKey(subs, k);
    MinPageIsMinimum(w);
    WithKeyMembers(subs, k);
    var x :| x in w && x.page == MinPage(w);
    var i :| 0 <= i < |subs| && subs[i] == x;
  }

  /** No sub-table of a key has a page smaller than the first page recorded for the key. */
  lemma {:induction false} FirstPageBelow(subs: seq<Subtable>, k: string, i: int)
    requires 0 <= i < |subs| && PdfKey(subs[i]) == Some(k) && subs[i].page.Some?
    ensures k in Grouped(subs).firstPage && Grouped(subs).firstPage[k] <= subs[i].page.value
  {
    GroupedSpec(subs);
    var w := WithKey(subs, k);
    MinPageIsMinimum(w);
    WithKeyMembers(subs, k);
    assert subs[i] in w;
  }

  lemma {:induction false} WithKeyMembers(subs: seq<Subtable>, k: string)
    ensures forall x :: x in WithKey(subs, k) <==> x in subs && PdfKey(x) == Some(k)
    decreases |subs|
  {
    if subs != [] {
      var n := |subs| - 1;
      WithKeyMembers(subs[..n], k);
      assert subs == subs[..n] + [subs[n]];
    }
  }
}

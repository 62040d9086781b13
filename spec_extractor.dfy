/**
 * The article index of `server/services/spec_extractor.py`: which pages of a
 * specification PDF belong to each article (第N条), the text and tables read
 * for one article, the `_search` helper and the 有/無 normalisation of the
 * 第2条 and 第3条 answers. pdfplumber is I/O: a page is given as the words
 * `extract_words` reports, the text `extract_text` returns and the tables
 * `extract_tables` returns; a regular expression is given as the function from
 * a text to the group it captures (`None` when it does not match).
 */
module SpecExtractor {
  import opened Wrappers
  import opened Text
  import opened Grid
  import opened Numbers
  import opened TenderSchema

  // ------------------------------------------------------------- pages

  /** A word with the left and top coordinates pdfplumber reports, in points. */
  datatype PdfWord = PdfWord(text: string, x0: real, top: real)

  datatype Page = Page(words: seq<PdfWord>, text: string, tables: seq<Table>)

  /** A word in the top-left corner of a page, where article headings stand. */
  predicate TopLeft(w: PdfWord) {
    w.x0 < 100.0 && w.top < 150.0
  }

  // ----------------------------------------------------- article headings

  /** The number of digits in `s` from position `i` on. */
  function DigitRun(s: string, i: nat): (k: nat)
    requires i <= |s|
    ensures i + k <= |s|
    ensures forall j :: i <= j < i + k ==> IsDigit(s[j])
    ensures i + k == |s| || !IsDigit(s[i + k])
    decreases |s| - i
  {
    if i < |s| && IsDigit(s[i]) then 1 + DigitRun(s, i + 1) else 0
  }

  /**
   * `re.compile(r"(第(\d+)条)").match(text)`: the heading at the start of the
   * text and its number. The digit run is maximal, so the character after it
   * must be 条.
   */
  function ArticleAt(text: string): (r: Option<(string, nat)>)
    ensures r.Some? ==> var name := r.value.0;
      3 <= |name| <= |text| && name == text[..|name|] && name[0] == '第' && name[|name| - 1] == '条'
      && DigitString(name[1..|name| - 1]) && r.value.1 == NatValue(name[1..|name| - 1])
  {
    if |text| < 3 || text[0] != '第' then None
    else
      var k := DigitRun(text, 1);
      if k == 0 || 1 + k >= |text| || text[1 + k] != '条' then None
      else
        var name := text[..k + 2];
        assert name[1..|name| - 1] == text[1..1 + k];
        Some((name, NatValue(text[1..1 + k])))
  }

  /** A run of `k` digits from `i`, followed by a non-digit or the end, is what `DigitRun` counts. */
  lemma {:induction false} DigitRunExact(s: string, i: nat, k: nat)
    requires i + k <= |s|
    requires forall j :: i <= j < i + k ==> IsDigit(s[j])
    requires i + k == |s| || !IsDigit(s[i + k])
    ensures DigitRun(s, i) == k
    decreases k
  {
    if k > 0 {
      DigitRunExact(s, i + 1, k - 1);
    }
  }

  /** Any heading written `第N条` is read back with its number, whatever follows it on the word. */
  lemma {:induction false} ArticleAtHeading(n: nat, rest: string)
    ensures ArticleAt("第" + DecimalString(n) + "条" + rest) == Some(("第" + DecimalString(n) + "条", n))
  {
    var d := DecimalString(n);
    var name := "第" + d + "条";
    var text := name + rest;
    assert text[0] == '第';
    assert forall j :: 1 <= j < 1 + |d| ==> text[j] == d[j - 1];
    assert text[1 + |d|] == '条';
    DigitRunExact(text, 1, |d|);
    assert text[..|d| + 2] == name;
    assert text[1..1 + |d|] == d;
    NatValueOfDecimalString(n);
  }

  /**
   * The article a page's word list names: the first top-left word that starts
   * with a heading (the inner loop breaks after it).
   */
  function PageArticle(words: seq<PdfWord>): (r: Option<(string, nat)>)
    decreases |words|
  {
    if words == [] then None
    else if TopLeft(words[0]) && ArticleAt(words[0].text).Some? then ArticleAt(words[0].text)
    else PageArticle(words[1..])
  }

  /** The article of a page comes from a top-left word, and no earlier top-left word holds a heading. */
  lemma {:induction false} PageArticleSpec(words: seq<PdfWord>)
    ensures PageArticle(words).Some? ==> exists j :: 0 <= j < |words| && TopLeft(words[j]) && ArticleAt(words[j].text) == PageArticle(words)
                                          && forall k :: 0 <= k < j && TopLeft(words[k]) ==> ArticleAt(words[k].text).None?
    ensures PageArticle(words).None? ==> forall k :: 0 <= k < |words| && TopLeft(words[k]) ==> ArticleAt(words[k].text).None?
    decreases |words|
  {
    if words != [] && !(TopLeft(words[0]) && ArticleAt(words[0].text).Some?) {
      var tail := words[1..];
      PageArticleSpec(tail);
      assert forall k :: 1 <= k < |words| ==> words[k] == tail[k - 1];
      if PageArticle(tail).Some? {
        var j :| 0 <= j < |tail| && TopLeft(tail[j]) && ArticleAt(tail[j].text) == PageArticle(tail)
                 && forall k :: 0 <= k < j && TopLeft(tail[k]) ==> ArticleAt(tail[k].text).None?;
        assert TopLeft(words[j + 1]) && ArticleAt(words[j + 1].text) == PageArticle(words);
      }
    }
  }

  /** The inner loop of `_index_pdf` over one page's words. */
  method FindPageArticle(words: seq<PdfWord>) returns (r: Option<(string, nat)>)
    ensures r == PageArticle(words)
  {
    var j := 0;
    while j < |words|
      invariant j <= |words|
      invariant PageArticle(words[j..]) == PageArticle(words)
      decreases |words| - j
    {
      assert words[j..][1..] == words[j + 1..];
      if TopLeft(words[j]) {
        var found := ArticleAt(words[j].text);
        if found.Some? {
          return found;
        }
      }
      j := j + 1;
    }
    return None;
  }

  // ------------------------------------------------------------ raw_found

  /** One entry of `raw_found`: the heading, its number and the 0-based page it was first seen on. */
  datatype Article = Article(name: string, num: nat, page: nat)

  /** `any(a['name'] == name for a in found)` */
  predicate Named(found: seq<Article>, name: string) {
    exists i :: 0 <= i < |found| && found[i].name == name
  }

  /** The heading page `p` shows, if any. */
  function Heading(pages: seq<Page>, p: nat): Option<(string, nat)>
    requires p < |pages|
  {
    PageArticle(pages[p].words)
  }

  /** One page of the loop: the page's heading is appended when no entry has its name yet. */
  function Step(pages: seq<Page>, before: seq<Article>, p: nat): seq<Article>
    requires p < |pages|
  {
    match Heading(pages, p)
    case None => before
    case Some(a) => if Named(before, a.0) then before else before + [Article(a.0, a.1, p)]
  }

  /** `raw_found` after the first `n` pages: each new heading, once, at the first page naming it. */
  function RawFound(pages: seq<Page>, n: nat): (found: seq<Article>)
    requires n <= |pages|
    decreases n
  {
    if n == 0 then [] else Step(pages, RawFound(pages, n - 1), n - 1)
  }

  /** Every entry is the heading of its page, a page among the first `n`. */
  ghost predicate Recorded(pages: seq<Page>, found: seq<Article>, n: nat)
    requires n <= |pages|
  {
    forall i :: 0 <= i < |found| ==> found[i].page < n && Heading(pages, found[i].page) == Some((found[i].name, found[i].num))
  }

  /** Entries are in page order, so no page gives two. */
  predicate PageOrdered(found: seq<Article>) {
    forall i, j :: 0 <= i < j < |found| ==> found[i].page < found[j].page
  }

  predicate DistinctNames(s: seq<Article>) {
    forall i, j :: 0 <= i < j < |s| ==> s[i].name != s[j].name
  }

  /** Every heading shown on the first `n` pages is listed. */
  ghost predicate Complete(pages: seq<Page>, found: seq<Article>, n: nat)
    requires n <= |pages|
  {
    forall p :: 0 <= p < n && Heading(pages, p).Some? ==> Named(found, Heading(pages, p).value.0)
  }

  /** No page before an entry's page shows that entry's name. */
  ghost predicate FirstSeen(pages: seq<Page>, found: seq<Article>) {
    forall i, p :: 0 <= i < |found| && 0 <= p < found[i].page && p < |pages| && Heading(pages, p).Some? ==>
      Heading(pages, p).value.0 != found[i].name
  }

  ghost predicate FoundAfter(pages: seq<Page>, found: seq<Article>, n: nat)
    requires n <= |pages|
  {
    Recorded(pages, found, n) && PageOrdered(found) && DistinctNames(found) && Complete(pages, found, n) && FirstSeen(pages, found)
  }

  /**
   * Each article name is recorded once, at the first page where it heads the
   * page, in page order, and every heading any page shows is recorded.
   */
  lemma {:induction false} RawFoundSpec(pages: seq<Page>, n: nat)
    requires n <= |pages|
    ensures FoundAfter(pages, RawFound(pages, n), n)
    decreases n
  {
    if n > 0 {
      RawFoundSpec(pages, n - 1);
      StepSpec(pages, RawFound(pages, n - 1), n);
    }
  }

  lemma {:induction false} StepSpec(pages: seq<Page>, before: seq<Article>, n: nat)
    requires 0 < n <= |pages| && FoundAfter(pages, before, n - 1)
    ensures FoundAfter(pages, Step(pages, before, n - 1), n)
  {
    match Heading(pages, n - 1)
    case None =>
      CompleteSame(pages, before, n);
    case Some(a) =>
      if Named(before, a.0) {
        CompleteSame(pages, before, n);
      } else {
        RecordedAppend(pages, before, n, a);
        OrderedAppend(pages, before, n, a);
        DistinctAppend(before, Article(a.0, a.1, n - 1));
        CompleteAppend(pages, before, n, a);
        FirstSeenAppend(pages, before, n, a);
      }
  }

  lemma {:induction false} CompleteSame(pages: seq<Page>, before: seq<Article>, n: nat)
    requires 0 < n <= |pages| && Complete(pages, before, n - 1)
    requires Heading(pages, n - 1).Some? ==> Named(before, Heading(pages, n - 1).value.0)
    ensures Complete(pages, before, n)
  {
  }

  lemma {:induction false} RecordedAppend(pages: seq<Page>, before: seq<Article>, n: nat, a: (string, nat))
    requires 0 < n <= |pages| && Recorded(pages, before, n - 1) && Heading(pages, n - 1) == Some(a)
    ensures Recorded(pages, before + [Article(a.0, a.1, n - 1)], n)
  {
  }

  lemma {:induction false} OrderedAppend(pages: seq<Page>, before: seq<Article>, n: nat, a: (string, nat))
    requires 0 < n <= |pages| && Recorded(pages, before, n - 1) && PageOrdered(before)
    ensures PageOrdered(before + [Article(a.0, a.1, n - 1)])
  {
  }

  lemma {:induction false} DistinctAppend(before: seq<Article>, x: Article)
    requires DistinctNames(before) && !Named(before, x.name)
    ensures DistinctNames(before + [x])
  {
    var found := before + [x];
    forall i, j | 0 <= i < j < |found| ensures found[i].name != found[j].name {
      if j == |before| {
        assert found[i] == before[i];
      }
    }
  }

  lemma {:induction false} CompleteAppend(pages: seq<Page>, before: seq<Article>, n: nat, a: (string, nat))
    requires 0 < n <= |pages| && Complete(pages, before, n - 1) && Heading(pages, n - 1) == Some(a)
    ensures Complete(pages, before + [Article(a.0, a.1, n - 1)], n)
  {
    var found := before + [Article(a.0, a.1, n - 1)];
    forall p | 0 <= p < n && Heading(pages, p).Some?
      ensures Named(found, Heading(pages, p).value.0)
    {
      if p < n - 1 {
        var i :| 0 <= i < |before| && before[i].name == Heading(pages, p).value.0;
        assert found[i] == before[i];
      } else {
        assert found[|before|].name == a.0;
      }
    }
  }

  lemma {:induction false} FirstSeenAppend(pages: seq<Page>, before: seq<Article>, n: nat, a: (string, nat))
    requires 0 < n <= |pages| && Complete(pages, before, n - 1) && FirstSeen(pages, before) && !Named(before, a.0)
    ensures FirstSeen(pages, before + [Article(a.0, a.1, n - 1)])
  {
    var found := before + [Article(a.0, a.1, n - 1)];
    forall i, p | 0 <= i < |found| && 0 <= p < found[i].page && p < |pages| && Heading(pages, p).Some?
      ensures Heading(pages, p).value.0 != found[i].name
    {
      if i < |before| {
        assert found[i] == before[i];
      } else {
        assert Named(before, Heading(pages, p).value.0);
      }
    }
  }

  // ----------------------------------------------------- sorted by number

  predicate SortedByNum(s: seq<Article>) {
    forall i, j :: 0 <= i < j < |s| ==> s[i].num <= s[j].num
  }

  /** Inserts `a` before the first entry whose number is not smaller, so that equal numbers keep their order. */
  function InsertByNum(a: Article, s: seq<Article>): (r: seq<Article>)
    ensures multiset(r) == multiset([a] + s)
    decreases |s|
  {
    if s == [] || a.num <= s[0].num then [a] + s
    else
      assert s == [s[0]] + s[1..];
      [s[0]] + InsertByNum(a, s[1..])
  }

  lemma {:induction false} InsertMembers(a: Article, s: seq<Article>, x: Article)
    requires x in InsertByNum(a, s)
    ensures x == a || x in s
  {
    assert x in multiset(InsertByNum(a, s));
    assert x in multiset([a] + s);
  }

  lemma {:induction false} InsertSorted(a: Article, s: seq<Article>)
    requires SortedByNum(s)
    ensures SortedByNum(InsertByNum(a, s))
    decreases |s|
  {
    var r := InsertByNum(a, s);
    if s != [] && a.num > s[0].num {
      var t := InsertByNum(a, s[1..]);
      InsertSorted(a, s[1..]);
      assert r == [s[0]] + t;
      forall j | 0 <= j < |t| ensures s[0].num <= t[j].num {
        InsertMembers(a, s[1..], t[j]);
      }
      forall i, j | 0 <= i < j < |r| ensures r[i].num <= r[j].num {
        if i > 0 {
          assert r[i] == t[i - 1] && r[j] == t[j - 1];
        } else {
          assert r[j] == t[j - 1];
        }
      }
    }
  }

  lemma {:induction false} InsertDistinct(a: Article, s: seq<Article>)
    requires DistinctNames(s) && !Named(s, a.name)
    ensures DistinctNames(InsertByNum(a, s))
    decreases |s|
  {
    var r := InsertByNum(a, s);
    if s == [] || a.num <= s[0].num {
      ConsDistinct(a, s);
    } else {
      var tail := s[1..];
      assert DistinctNames(tail);
      assert !Named(tail, a.name) by {
        forall k | 0 <= k < |tail| ensures tail[k].name != a.name {
          assert tail[k] == s[k + 1];
        }
      }
      var t := InsertByNum(a, tail);
      InsertDistinct(a, tail);
      assert r == [s[0]] + t;
      forall j | 0 <= j < |t| ensures s[0].name != t[j].name {
        InsertMembers(a, tail, t[j]);
        if t[j] != a {
          var m :| 0 <= m < |tail| && tail[m] == t[j];
          assert s[m + 1] == t[j];
        }
      }
      assert !Named(t, s[0].name);
      ConsDistinct(s[0], t);
    }
  }

  /** An article whose name is new can go in front. */
  lemma {:induction false} ConsDistinct(a: Article, s: seq<Article>)
    requires DistinctNames(s) && !Named(s, a.name)
    ensures DistinctNames([a] + s)
  {
    var r := [a] + s;
    forall i, j | 0 <= i < j < |r| ensures r[i].name != r[j].name {
      if i == 0 {
        assert r[j] == s[j - 1];
      } else {
        assert r[i] == s[i - 1] && r[j] == s[j - 1];
      }
    }
  }

  /** `sorted(raw_found, key=lambda x: x['num'])`: a stable insertion sort by number. */
  function SortByNum(s: seq<Article>): (r: seq<Article>)
    ensures multiset(r) == multiset(s)
    decreases |s|
  {
    if s == [] then []
    else
      assert s == [s[0]] + s[1..];
      InsertByNum(s[0], SortByNum(s[1..]))
  }

  lemma {:induction false} SortMembers(s: seq<Article>, x: Article)
    ensures x in SortByNum(s) <==> x in s
  {
    assert x in SortByNum(s) <==> x in multiset(SortByNum(s));
    assert x in s <==> x in multiset(s);
  }

  /** The sort orders by number. */
  lemma {:induction false} SortByNumSorted(s: seq<Article>)
    ensures SortedByNum(SortByNum(s))
    decreases |s|
  {
    if s != [] {
      SortByNumSorted(s[1..]);
      InsertSorted(s[0], SortByNum(s[1..]));
    }
  }

  /** The sort keeps names distinct. */
  lemma {:induction false} SortByNumDistinct(s: seq<Article>)
    requires DistinctNames(s)
    ensures DistinctNames(SortByNum(s))
    decreases |s|
  {
    if s != [] {
      var tail := s[1..];
      var t := SortByNum(tail);
      assert DistinctNames(tail) by {
        forall i, j | 0 <= i < j < |tail| ensures tail[i].name != tail[j].name {
          assert tail[i] == s[i + 1] && tail[j] == s[j + 1];
        }
      }
      SortByNumDistinct(tail);
      assert !Named(t, s[0].name) by {
        forall k | 0 <= k < |t| ensures t[k].name != s[0].name {
          SortMembers(tail, t[k]);
          var m :| 0 <= m < |tail| && tail[m] == t[k];
          assert s[m + 1] == t[k];
        }
      }
      InsertDistinct(s[0], t);
    }
  }

  // --------------------------------------------------------- the page map

  /** The pages of one article: from `start` up to, not including, `end`. */
  datatype PageRange = PageRange(start: nat, end: nat)

  /** The range of the `i`-th article by number: up to the page of the next one, or to the end of the document. */
  function RangeAt(sorted: seq<Article>, pageCount: nat, i: nat): PageRange
    requires i < |sorted|
  {
    PageRange(sorted[i].page, if i + 1 < |sorted| then sorted[i + 1].page else pageCount)
  }

  /** `article_map` after the first `n` articles by number. */
  function MapOf(sorted: seq<Article>, pageCount: nat, n: nat): map<string, PageRange>
    requires n <= |sorted|
    decreases n
  {
    if n == 0 then map[] else MapOf(sorted, pageCount, n - 1)[sorted[n - 1].name := RangeAt(sorted, pageCount, n - 1)]
  }

  /** The `article_map` that `_index_pdf` builds for a document. */
  function ArticleMap(pages: seq<Page>): map<string, PageRange> {
    var sorted := SortByNum(RawFound(pages, |pages|));
    MapOf(sorted, |pages|, |sorted|)
  }

  /** With distinct names, every article maps to its own range. */
  lemma {:induction false} MapOfAt(sorted: seq<Article>, pageCount: nat, n: nat, i: nat)
    requires i < n <= |sorted| && DistinctNames(sorted)
    ensures sorted[i].name in MapOf(sorted, pageCount, n)
    ensures MapOf(sorted, pageCount, n)[sorted[i].name] == RangeAt(sorted, pageCount, i)
    decreases n
  {
    if i < n - 1 {
      MapOfAt(sorted, pageCount, n - 1, i);
      assert sorted[i].name != sorted[n - 1].name;
    }
  }

  /** Nothing but the articles' names is mapped. */
  lemma {:induction false} MapOfKeys(sorted: seq<Article>, pageCount: nat, n: nat)
    requires n <= |sorted|
    ensures forall name :: name in MapOf(sorted, pageCount, n) ==> exists i :: 0 <= i < n && sorted[i].name == name
    decreases n
  {
    if n > 0 {
      MapOfKeys(sorted, pageCount, n - 1);
    }
  }

  /**
   * An article's pages run from its first page to the first page of the next
   * article by number (or to the end of the document): an article numbered
   * after one that appears later in the document gets an empty range.
   */
  lemma {:induction false} ArticleMapSpec(pages: seq<Page>, i: nat)
    requires i < |SortByNum(RawFound(pages, |pages|))|
    ensures var sorted := SortByNum(RawFound(pages, |pages|));
      && SortedByNum(sorted)
      && sorted[i].name in ArticleMap(pages) && ArticleMap(pages)[sorted[i].name] == RangeAt(sorted, |pages|, i)
      && sorted[i].page < |pages| && RangeAt(sorted, |pages|, i).end <= |pages|
  {
    var found := RawFound(pages, |pages|);
    var sorted := SortByNum(found);
    RawFoundSpec(pages, |pages|);
    SortByNumSorted(found);
    SortByNumDistinct(found);
    MapOfAt(sorted, |pages|, |sorted|, i);
    PageBelow(pages, found, i);
    if i + 1 < |sorted| {
      PageBelow(pages, found, i + 1);
    }
  }

  lemma {:induction false} PageBelow(pages: seq<Page>, found: seq<Article>, i: nat)
    requires Recorded(pages, found, |pages|) && i < |SortByNum(found)|
    ensures SortByNum(found)[i].page < |pages|
  {
    var x := SortByNum(found)[i];
    SortMembers(found, x);
    var k :| 0 <= k < |found| && found[k] == x;
  }

  /** Every range in the map lies within the document, and its start is a page of it. */
  ghost predicate RangesWithin(m: map<string, PageRange>, pageCount: nat) {
    forall name :: name in m ==> m[name].start < pageCount && m[name].end <= pageCount
  }

  lemma {:induction false} MapOfWithin(sorted: seq<Article>, pageCount: nat, n: nat)
    requires n <= |sorted|
    requires forall i :: 0 <= i < |sorted| ==> sorted[i].page < pageCount
    ensures RangesWithin(MapOf(sorted, pageCount, n), pageCount)
    decreases n
  {
    if n > 0 {
      MapOfWithin(sorted, pageCount, n - 1);
    }
  }

  lemma {:induction false} ArticleMapWithin(pages: seq<Page>)
    ensures RangesWithin(ArticleMap(pages), |pages|)
  {
    var found := RawFound(pages, |pages|);
    var sorted := SortByNum(found);
    RawFoundSpec(pages, |pages|);
    forall i | 0 <= i < |sorted| ensures sorted[i].page < |pages| {
      PageBelow(pages, found, i);
    }
    MapOfWithin(sorted, |pages|, |sorted|);
  }

  // -------------------------------------------------------- article text

  /** The texts of pages `lo` to `hi - 1`, one after another (nothing when `hi <= lo`). */
  function TextOf(pages: seq<Page>, lo: nat, hi: nat): string
    requires hi <= |pages|
    decreases hi
  {
    if hi <= lo then [] else TextOf(pages, lo, hi - 1) + pages[hi - 1].text
  }

  /** The tables of pages `lo` to `hi - 1`, one page after another. */
  function TablesOf(pages: seq<Page>, lo: nat, hi: nat): seq<Table>
    requires hi <= |pages|
    decreases hi
  {
    if hi <= lo then [] else TablesOf(pages, lo, hi - 1) + pages[hi - 1].tables
  }

  /** What `_get_content_for_article` returns for `name`. */
  function ContentFor(pages: seq<Page>, m: map<string, PageRange>, name: string): (string, seq<Table>)
    requires RangesWithin(m, |pages|)
  {
    if name !in m then ([], [])
    else (TextOf(pages, m[name].start, m[name].end), TablesOf(pages, m[name].start, m[name].end))
  }

  /** An unknown article, or one whose range is empty, reads as no text and no tables. */
  lemma {:induction false} ContentEmpty(pages: seq<Page>, m: map<string, PageRange>, name: string)
    requires RangesWithin(m, |pages|)
    requires name !in m || m[name].end <= m[name].start
    ensures ContentFor(pages, m, name) == ([], [])
  {
  }

  /** A one-page article reads exactly that page. */
  lemma {:induction false} ContentOnePage(pages: seq<Page>, m: map<string, PageRange>, name: string)
    requires RangesWithin(m, |pages|)
    requires name in m && m[name].end == m[name].start + 1
    ensures ContentFor(pages, m, name) == (pages[m[name].start].text, pages[m[name].start].tables)
  {
    var lo := m[name].start;
    assert TextOf(pages, lo, lo) == [] && TablesOf(pages, lo, lo) == [];
    assert TextOf(pages, lo, lo + 1) == TextOf(pages, lo, lo) + pages[lo].text;
    assert TablesOf(pages, lo, lo + 1) == TablesOf(pages, lo, lo) + pages[lo].tables;
    assert [] + pages[lo].text == pages[lo].text && [] + pages[lo].tables == pages[lo].tables;
  }

  /** The page loop of `_index_pdf`: each page's heading, kept when its name is new. */
  method CollectHeadings(pages: seq<Page>) returns (found: seq<Article>)
    ensures found == RawFound(pages, |pages|)
  {
    found := [];
    var i := 0;
    while i < |pages|
      invariant i <= |pages| && found == RawFound(pages, i)
      decreases |pages| - i
    {
      var article := FindPageArticle(pages[i].words);
      if article.Some? && !Named(found, article.value.0) {
        found := found + [Article(article.value.0, article.value.1, i)];
      }
      i := i + 1;
    }
  }

  /** The map loop of `_index_pdf`: each article by number runs up to the next one's page. */
  method MapRanges(sorted: seq<Article>, pageCount: nat) returns (m: map<string, PageRange>)
    ensures m == MapOf(sorted, pageCount, |sorted|)
  {
    m := map[];
    var k := 0;
    while k < |sorted|
      invariant k <= |sorted| && m == MapOf(sorted, pageCount, k)
      decreases |sorted| - k
    {
      var end := pageCount;
      if k + 1 < |sorted| {
        end := sorted[k + 1].page;
      }
      m := m[sorted[k].name := PageRange(sorted[k].page, end)];
      k := k + 1;
    }
  }

  // ----------------------------------------------------------- the class

  /** `SpecFinalExtractor`: the document's pages and the article map built from them. */
  class SpecFinalExtractor {
    var pages: seq<Page>
    var articleMap: map<string, PageRange>

    ghost predicate Valid()
      reads this
    {
      RangesWithin(articleMap, |pages|)
    }

    /** `__init__`: stores the pages and indexes them (the file-existence check is I/O and left out). */
    constructor (pages: seq<Page>)
      ensures this.pages == pages && articleMap == ArticleMap(pages) && Valid()
    {
      this.pages := pages;
      articleMap := map[];
      new;
      IndexPdf();
    }

    /** `_index_pdf`: records each heading at its first page, sorts by number and maps each name to its pages. */
    method IndexPdf()
      modifies this
      ensures pages == old(pages) && articleMap == ArticleMap(pages) && Valid()
    {
      var found := CollectHeadings(pages);
      var m := MapRanges(SortByNum(found), |pages|);
      articleMap := m;
      ArticleMapWithin(pages);
    }

    /** `_get_content_for_article`: the text and the tables of the article's pages, or nothing for an unknown article. */
    method GetContentForArticle(name: string) returns (text: string, tables: seq<Table>)
      requires Valid()
      ensures (text, tables) == ContentFor(pages, articleMap, name)
    {
      if name !in articleMap {
        return [], [];
      }
      var range := articleMap[name];
      text, tables := [], [];
      var i := range.start;
      while i < range.end
        invariant range.start <= i && (i <= range.end || i == range.start)
        invariant text == TextOf(pages, range.start, i) && tables == TablesOf(pages, range.start, i)
        decreases range.end - i
      {
        text := text + pages[i].text;
        tables := tables + pages[i].tables;
        i := i + 1;
      }
    }
  }

  // ------------------------------------------------------------- _search

  const NotFound := "Not Found"

  /**
   * `_search(pattern, text)`: "Not Found" for empty text or no match, else the
   * captured group stripped; `find` stands for `re.search` with the pattern
   * (a group that took no part in the match is given as "").
   */
  function Search(text: string, find: string -> Option<string>): (r: string)
    ensures text == [] ==> r == NotFound
    ensures text != [] && find(text).None? ==> r == NotFound
  {
    if text == [] then NotFound
    else match find(text)
      case None => NotFound
      case Some(g) => Strip(g)
  }

  /** A found value is the captured group with its surrounding whitespace cut off. */
  lemma {:induction false} SearchFound(text: string, find: string -> Option<string>)
    requires text != [] && find(text).Some?
    ensures var r := Search(text, find);
      r == Strip(find(text).value) && (r == [] || (!IsSpace(r[0]) && !IsSpace(r[|r| - 1])))
  {
    StripShape(find(text).value);
  }

  // ----------------------------------------------------- 有/無 answers

  predicate IsAnswer(v: string) {
    v == "有" || v == "無" || v == NotFound
  }

  /** The 第2条 rule: an answer other than 有, 無 or Not Found becomes 有 if it mentions 有, else 無 if it mentions 無, else Not Found. */
  function SecondArticleAnswer(v: string): (r: string)
    ensures IsAnswer(r)
    ensures IsAnswer(v) ==> r == v
  {
    if IsAnswer(v) then v
    else if '有' in v then "有"
    else if '無' in v then "無"
    else NotFound
  }

  /** The 第3条 rule: any value other than Not Found becomes 有 if it mentions 有, else 無. */
  function ThirdArticleAnswer(v: string): (r: string)
    ensures IsAnswer(r)
    ensures r == NotFound <==> v == NotFound
  {
    if v == NotFound then v
    else if '有' in v then "有"
    else "無"
  }

  /** Both rules are idempotent, and where they both apply to a checked box they agree. */
  lemma {:induction false} AnswersSettle(v: string)
    ensures SecondArticleAnswer(SecondArticleAnswer(v)) == SecondArticleAnswer(v)
    ensures ThirdArticleAnswer(ThirdArticleAnswer(v)) == ThirdArticleAnswer(v)
    ensures '有' in v ==> SecondArticleAnswer(v) == "有" || v == "無" || v == NotFound
    ensures '有' in v && v != NotFound ==> ThirdArticleAnswer(v) == "有"
  {
    assert '有' !in NotFound;
    assert '有' in "有";
  }

  /** A value that mentions neither 有 nor 無 is Not Found under the 第2条 rule but 無 under the 第3条 rule. */
  lemma {:induction false} AnswersDifferOnNeither(v: string)
    requires '有' !in v && '無' !in v && v != NotFound
    ensures SecondArticleAnswer(v) == NotFound && ThirdArticleAnswer(v) == "無"
  {
  }

  datatype Clause = SecondArticle | ThirdArticle

  const AnswerKeyMark := "対象の有無"

  function Answer(clause: Clause, v: string): string {
    match clause
    case SecondArticle => SecondArticleAnswer(v)
    case ThirdArticle => ThirdArticleAnswer(v)
  }

  /** The loop over `results.items()`: every 対象の有無 entry rewritten by the clause's rule, the others kept. */
  function NormalizeAnswers(results: Fields, clause: Clause): (r: Fields)
    ensures |r| == |results|
    ensures forall i :: 0 <= i < |r| ==> r[i].0 == results[i].0
    ensures forall i :: 0 <= i < |r| && !Contains(results[i].0, AnswerKeyMark) ==> r[i].1 == results[i].1
    ensures forall i :: 0 <= i < |r| && Contains(results[i].0, AnswerKeyMark) ==> IsAnswer(r[i].1)
    ensures forall i :: 0 <= i < |r| && Contains(results[i].0, AnswerKeyMark) ==> r[i].1 == Answer(clause, results[i].1)
    decreases |results|
  {
    if results == [] then []
    else
      var key := results[0].0;
      var value := if Contains(key, AnswerKeyMark) then Answer(clause, results[0].1) else results[0].1;
      var rest := NormalizeAnswers(results[1..], clause);
      var r := [(key, value)] + rest;
      assert forall i :: 1 <= i < |r| ==> r[i] == rest[i - 1] && results[i] == results[1..][i - 1];
      r
  }

  /** Normalising the answers twice changes nothing more. */
  lemma {:induction false} NormalizeAnswersTwice(results: Fields, clause: Clause)
    ensures NormalizeAnswers(NormalizeAnswers(results, clause), clause) == NormalizeAnswers(results, clause)
  {
    var once := NormalizeAnswers(results, clause);
    var twice := NormalizeAnswers(once, clause);
    forall i | 0 <= i < |once| ensures twice[i] == once[i] {
      AnswersSettle(results[i].1);
    }
  }
}

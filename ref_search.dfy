/**
 * The reference-number regular expressions the sub-table extractors search
 * with: `[一-龯]+\d+号` (written `[一-龯]+\d+号` in
 * `excel_subtable_extractor.py`, the same class) and
 * `([一-龯々]+)\s*(\d+)\s*号`. Each is a run of kanji, an optional
 * whitespace gap, a run of digits, another optional gap and 号.
 *
 * No part of either pattern can give back a character to the part after it
 * (kanji are neither whitespace nor digits, digits are not whitespace), so
 * the greedy reading below is the only way the pattern matches at a
 * position; `MatchIsUnique` proves it.
 */
module RefSearch {
  import opened Wrappers
  import opened Text

  /** Which of the two patterns: whether 々 counts as a kanji and whether `\s*` gaps are allowed. */
  datatype Pattern = Pattern(iterationMark: bool, gaps: bool)

  /** `[一-龯]+\d+号` */
  const Tight := Pattern(false, false)

  /** `([一-龯々]+)\s*(\d+)\s*号` */
  const Loose := Pattern(true, true)

  const RefMark: char := '号'

  predicate IsHan(c: char, p: Pattern) {
    IsKanji(c) || (p.iterationMark && c == '々')
  }

  /** One match: the kanji group is `[start, hanEnd)`, the digit group `[digitStart, digitEnd)`, and 号 sits at `end - 1`. */
  datatype Match = Match(start: nat, hanEnd: nat, digitStart: nat, digitEnd: nat, end: nat)

  /** `s[m.start..m.end]` reads as the pattern, split into its groups as `m` says. */
  predicate Shaped(s: string, m: Match, p: Pattern) {
    m.start < m.hanEnd <= m.digitStart < m.digitEnd < m.end <= |s|
    && (forall i :: m.start <= i < m.hanEnd ==> IsHan(s[i], p))
    && (forall i :: m.hanEnd <= i < m.digitStart ==> IsSpace(s[i]))
    && (forall i :: m.digitStart <= i < m.digitEnd ==> IsDigit(s[i]))
    && (forall i :: m.digitEnd <= i < m.end - 1 ==> IsSpace(s[i]))
    && (!p.gaps ==> m.hanEnd == m.digitStart && m.digitEnd == m.end - 1)
    && s[m.end - 1] == RefMark
  }

  // ------------------------------------------------------------ greedy runs

  function HanEnd(s: string, i: nat, p: Pattern): (j: nat)
    requires i <= |s|
    ensures i <= j <= |s|
    ensures forall k :: i <= k < j ==> IsHan(s[k], p)
    ensures j < |s| ==> !IsHan(s[j], p)
    decreases |s| - i
  {
    if i < |s| && IsHan(s[i], p) then HanEnd(s, i + 1, p) else i
  }

  function DigitEnd(s: string, i: nat): (j: nat)
    requires i <= |s|
    ensures i <= j <= |s|
    ensures forall k :: i <= k < j ==> IsDigit(s[k])
    ensures j < |s| ==> !IsDigit(s[j])
    decreases |s| - i
  {
    if i < |s| && IsDigit(s[i]) then DigitEnd(s, i + 1) else i
  }

  function SpaceEnd(s: string, i: nat): (j: nat)
    requires i <= |s|
    ensures i <= j <= |s|
    ensures forall k :: i <= k < j ==> IsSpace(s[k])
    ensures j < |s| ==> !IsSpace(s[j])
    decreases |s| - i
  {
    if i < |s| && IsSpace(s[i]) then SpaceEnd(s, i + 1) else i
  }

  /** `\s*` where the pattern has a gap, nothing where it has none. */
  function GapEnd(s: string, i: nat, p: Pattern): (j: nat)
    requires i <= |s|
    ensures i <= j <= |s|
  {
    if p.gaps then SpaceEnd(s, i) else i
  }

  /** The pattern anchored at `i` (`re.match` on `s[i..]`). */
  function MatchAt(s: string, i: nat, p: Pattern): (r: Option<Match>)
    requires i <= |s|
    ensures r.Some? ==> r.value.start == i && Shaped(s, r.value, p)
  {
    var a := HanEnd(s, i, p);
    var b := GapEnd(s, a, p);
    var c := DigitEnd(s, b);
    var d := GapEnd(s, c, p);
    if a > i && c > b && d < |s| && s[d] == RefMark then Some(Match(i, a, b, c, d + 1)) else None
  }

  /** `re.search` from `i`: the leftmost match. */
  function Search(s: string, i: nat, p: Pattern): (r: Option<Match>)
    requires i <= |s|
    ensures r.Some? ==> i <= r.value.start && Shaped(s, r.value, p)
    decreases |s| - i
  {
    match MatchAt(s, i, p)
    case Some(m) => Some(m)
    case None => if i == |s| then None else Search(s, i + 1, p)
  }

  /** `re.findall` / `re.finditer` from `i`: leftmost matches, each search resuming where the last match ended. */
  function FindAll(s: string, i: nat, p: Pattern): (ms: seq<Match>)
    requires i <= |s|
    decreases |s| - i
  {
    match Search(s, i, p)
    case None => []
    case Some(m) => [m] + FindAll(s, m.end, p)
  }

  /** The whole matched text (`m.group(0)`). */
  function MatchText(s: string, m: Match): string
    requires m.start <= m.end <= |s|
  {
    s[m.start..m.end]
  }

  /** `f"{kanji}{number}号"` from the two groups: the match with its gaps removed. */
  function CleanRef(s: string, m: Match): string
    requires m.start <= m.hanEnd <= m.digitStart <= m.digitEnd <= |s|
  {
    s[m.start..m.hanEnd] + s[m.digitStart..m.digitEnd] + [RefMark]
  }

  // ---------------------------------------------------------------- lemmas

  lemma {:induction false} HanEndAt(s: string, i: nat, j: nat, p: Pattern)
    requires i <= j <= |s|
    requires forall k :: i <= k < j ==> IsHan(s[k], p)
    requires j < |s| ==> !IsHan(s[j], p)
    ensures HanEnd(s, i, p) == j
    decreases j - i
  {
    if i < j { HanEndAt(s, i + 1, j, p); }
  }

  lemma {:induction false} DigitEndAt(s: string, i: nat, j: nat)
    requires i <= j <= |s|
    requires forall k :: i <= k < j ==> IsDigit(s[k])
    requires j < |s| ==> !IsDigit(s[j])
    ensures DigitEnd(s, i) == j
    decreases j - i
  {
    if i < j { DigitEndAt(s, i + 1, j); }
  }

  lemma {:induction false} SpaceEndAt(s: string, i: nat, j: nat)
    requires i <= j <= |s|
    requires forall k :: i <= k < j ==> IsSpace(s[k])
    requires j < |s| ==> !IsSpace(s[j])
    ensures SpaceEnd(s, i) == j
    decreases j - i
  {
    if i < j { SpaceEndAt(s, i + 1, j); }
  }

  /** Whatever reading of `s` from `m.start` has the pattern's shape is the one `MatchAt` finds there. */
  lemma {:induction false} MatchIsUnique(s: string, m: Match, p: Pattern)
    requires Shaped(s, m, p)
    ensures MatchAt(s, m.start, p) == Some(m)
  {
    MatchFront(s, m, p);
    MatchBack(s, m, p);
    assert m == Match(m.start, m.hanEnd, m.digitStart, m.digitEnd, m.end);
  }

  /** The greedy runs of a shaped reading end where its kanji run and the gap after it end. */
  lemma {:induction false} MatchFront(s: string, m: Match, p: Pattern)
    requires Shaped(s, m, p)
    ensures HanEnd(s, m.start, p) == m.hanEnd && GapEnd(s, m.hanEnd, p) == m.digitStart
  {
    var c := s[m.hanEnd];
    assert !IsHan(c, p) by {
      if m.hanEnd < m.digitStart { assert IsSpace(c); } else { assert IsDigit(c); }
    }
    HanEndAt(s, m.start, m.hanEnd, p);
    if p.gaps {
      assert !IsSpace(s[m.digitStart]);
      SpaceEndAt(s, m.hanEnd, m.digitStart);
    }
  }

  /** The greedy runs of a shaped reading end where its digit run and the gap before the mark end. */
  lemma {:induction false} MatchBack(s: string, m: Match, p: Pattern)
    requires Shaped(s, m, p)
    ensures DigitEnd(s, m.digitStart) == m.digitEnd && GapEnd(s, m.digitEnd, p) == m.end - 1
  {
    var e := s[m.digitEnd];
    assert !IsDigit(e) by {
      if m.digitEnd < m.end - 1 { assert IsSpace(e); } else { assert e == RefMark; }
    }
    DigitEndAt(s, m.digitStart, m.digitEnd);
    if p.gaps {
      assert !IsSpace(s[m.end - 1]);
      SpaceEndAt(s, m.digitEnd, m.end - 1);
    }
  }

  /**
   * `re.search` succeeds exactly when the pattern occurs somewhere from `i`
   * on, and no occurrence starts before the one it finds.
   */
  lemma {:induction false} SearchFindsShaped(s: string, i: nat, m: Match, p: Pattern)
    requires i <= m.start && Shaped(s, m, p)
    ensures Search(s, i, p).Some? && Search(s, i, p).value.start <= m.start
    decreases m.start - i
  {
    if MatchAt(s, i, p).None? {
      if i == m.start {
        MatchIsUnique(s, m, p);
      } else {
        SearchFindsShaped(s, i + 1, m, p);
      }
    }
  }

  /** Every match `FindAll` returns has the pattern's shape, lies after `i`, and they do not overlap. */
  lemma {:induction false} FindAllShaped(s: string, i: nat, p: Pattern)
    requires i <= |s|
    ensures forall k :: 0 <= k < |FindAll(s, i, p)| ==> i <= FindAll(s, i, p)[k].start && Shaped(s, FindAll(s, i, p)[k], p)
    decreases |s| - i
  {
    match Search(s, i, p)
    case None =>
    case Some(m) =>
      FindAllShaped(s, m.end, p);
      assert FindAll(s, i, p) == [m] + FindAll(s, m.end, p);
  }

  /** The matches `FindAll` returns do not overlap and come in order. */
  lemma {:induction false} FindAllOrdered(s: string, i: nat, p: Pattern)
    requires i <= |s|
    ensures forall k :: 0 <= k < |FindAll(s, i, p)| - 1 ==> FindAll(s, i, p)[k].end <= FindAll(s, i, p)[k + 1].start
    decreases |s| - i
  {
    match Search(s, i, p)
    case None =>
    case Some(m) =>
      FindAllOrdered(s, m.end, p);
      FindAllShaped(s, m.end, p);
      assert FindAll(s, i, p) == [m] + FindAll(s, m.end, p);
  }

  /** Without gaps the cleaned reference is the matched text itself. */
  lemma {:induction false} TightCleanIsText(s: string, m: Match)
    requires Shaped(s, m, Tight)
    ensures CleanRef(s, m) == MatchText(s, m)
  {
    assert s[m.start..m.end] == s[m.start..m.hanEnd] + s[m.digitStart..m.digitEnd] + s[m.digitEnd..m.end];
    assert s[m.digitEnd..m.end] == [RefMark];
  }

  /** A cleaned reference is kanji, then digits, then 号, with no whitespace. */
  lemma {:induction false} CleanRefShape(s: string, m: Match, p: Pattern)
    requires Shaped(s, m, p)
    ensures var r := CleanRef(s, m);
      |r| >= 3 && IsHan(r[0], p) && IsDigit(r[|r| - 2]) && r[|r| - 1] == RefMark && NoSpace(r)
  {
    var r := CleanRef(s, m);
    var h := m.hanEnd - m.start;
    forall k | 0 <= k < |r| ensures !IsSpace(r[k]) {
      if k < h {
        assert r[k] == s[m.start + k];
      } else if k < |r| - 1 {
        assert r[k] == s[m.digitStart + k - h];
      }
    }
  }
}

/**
 * The Python `str` built-ins the extractors rely on (`isspace`, `strip`, `in`,
 * `startswith`, `find`, `split`, `join`, `replace`, `isdigit`) and the character
 * classes their regular expressions use, over `string` = `seq<char>` (one `char`
 * per Unicode code point).
 */
module Text {
  import opened Wrappers

  // ---------------------------------------------------------------- characters

  /** `c.isspace()`; the regex class `\s` on `str` patterns matches the same set. */
  predicate IsSpace(c: char) {
    c == ' ' || ('\t' <= c <= '\r') || ('\U{1C}' <= c <= '\U{1F}') || c == '\U{85}' || c == '\U{A0}'
    || c == '\U{1680}' || ('\U{2000}' <= c <= '\U{200A}') || c == '\U{2028}' || c == '\U{2029}'
    || c == '\U{202F}' || c == '\U{205F}' || c == '\U{3000}'
  }

  const IdeographicSpace: char := '\U{3000}'
  const NoBreakSpace: char := '\U{A0}'
  const ZeroWidthSpace: char := '\U{200B}'

  predicate IsAsciiDigit(c: char) { '0' <= c <= '9' }

  /**
   * The digits this model lets `\d` and `str.isdigit` accept: ASCII and
   * full-width only. Python accepts every Unicode decimal digit.
   */
  predicate IsDigit(c: char) { IsAsciiDigit(c) || ('\U{FF10}' <= c <= '\U{FF19}') }

  function DigitValue(c: char): (d: nat)
    requires IsDigit(c)
    ensures d < 10
  {
    if IsAsciiDigit(c) then (c as int - '0' as int) as nat else (c as int - 0xFF10) as nat
  }

  predicate IsAsciiUpper(c: char) { 'A' <= c <= 'Z' }
  predicate IsAsciiLower(c: char) { 'a' <= c <= 'z' }
  predicate IsAsciiLetter(c: char) { IsAsciiUpper(c) || IsAsciiLower(c) }

  /** The regex class `[一-龯]` (U+4E00 to U+9FAF). */
  predicate IsKanji(c: char) { '\U{4E00}' <= c <= '\U{9FAF}' }
  predicate IsHiragana(c: char) { '\U{3040}' <= c <= '\U{309F}' }
  predicate IsKatakana(c: char) { '\U{30A0}' <= c <= '\U{30FF}' }

  /** `str.isdigit()`: non-empty and every character a digit. */
  predicate AllDigits(s: string) {
    |s| > 0 && forall i :: 0 <= i < |s| ==> IsDigit(s[i])
  }

  /** No character is whitespace. */
  predicate NoSpace(s: string) {
    forall i :: 0 <= i < |s| ==> !IsSpace(s[i])
  }

  /** `not s.strip()`: nothing but whitespace (or nothing at all). */
  predicate Blank(s: string) {
    forall i :: 0 <= i < |s| ==> IsSpace(s[i])
  }

  // ------------------------------------------------------------------- strip

  function LStrip(s: string): (r: string)
    ensures |r| <= |s| && r == s[|s| - |r|..]
    ensures r == [] || !IsSpace(r[0])
    decreases |s|
  {
    if s != [] && IsSpace(s[0]) then LStrip(s[1..]) else s
  }

  /** Everything `LStrip` removes is whitespace. */
  lemma {:induction false} LStripRemovesSpaces(s: string)
    ensures forall i :: 0 <= i < |s| - |LStrip(s)| ==> IsSpace(s[i])
    decreases |s|
  {
    if s != [] && IsSpace(s[0]) {
      LStripRemovesSpaces(s[1..]);
      assert forall i :: 1 <= i < |s| ==> s[1..][i - 1] == s[i];
    }
  }

  function RStrip(s: string): (r: string)
    ensures |r| <= |s| && r == s[..|r|]
    ensures r == [] || !IsSpace(r[|r| - 1])
    decreases |s|
  {
    if s != [] && IsSpace(s[|s| - 1]) then RStrip(s[..|s| - 1]) else s
  }

  /** Everything `RStrip` removes is whitespace. */
  lemma {:induction false} RStripRemovesSpaces(s: string)
    ensures forall i :: |RStrip(s)| <= i < |s| ==> IsSpace(s[i])
    decreases |s|
  {
    if s != [] && IsSpace(s[|s| - 1]) {
      RStripRemovesSpaces(s[..|s| - 1]);
      assert forall i :: 0 <= i < |s| - 1 ==> s[..|s| - 1][i] == s[i];
    }
  }

  /** `s.strip()` */
  function Strip(s: string): string {
    RStrip(LStrip(s))
  }

  /** A stripped string is no longer than the original and neither begins nor ends with whitespace. */
  lemma {:induction false} StripShape(s: string)
    ensures var r := Strip(s);
            |r| <= |s| && (r == [] || (!IsSpace(r[0]) && !IsSpace(r[|r| - 1])))
  {
    var l := LStrip(s);
    var r := RStrip(l);
    if r != [] {
      assert r[0] == l[0];
    }
  }

  lemma {:induction false} StripEmptyIffBlank(s: string)
    ensures Strip(s) == [] <==> Blank(s)
  {
    var l := LStrip(s);
    LStripRemovesSpaces(s);
    RStripRemovesSpaces(l);
    if l != [] {
      assert !IsSpace(l[0]) && l[0] == s[|s| - |l|];
    }
  }

  lemma {:induction false} StripUnspaced(s: string)
    requires s == [] || (!IsSpace(s[0]) && !IsSpace(s[|s| - 1]))
    ensures Strip(s) == s
  {
  }

  /** Each character of the stripped string sits in the original, past the leading whitespace. */
  lemma {:induction false} StripAt(s: string, i: int)
    requires 0 <= i < |Strip(s)|
    ensures |s| - |LStrip(s)| + i < |s| && Strip(s)[i] == s[|s| - |LStrip(s)| + i]
  {
    var l := LStrip(s);
    assert Strip(s)[i] == l[i];
  }

  /** Stripping twice strips nothing more. */
  lemma {:induction false} StripTwice(s: string)
    ensures Strip(Strip(s)) == Strip(s)
  {
    StripShape(s);
    StripUnspaced(Strip(s));
  }

  // ---------------------------------------------------------- search and test

  predicate StartsWith(s: string, p: string) {
    |p| <= |s| && s[..|p|] == p
  }

  predicate EndsWith(s: string, p: string) {
    |p| <= |s| && s[|s| - |p|..] == p
  }

  /** A string whose last character differs from the last character of `p` does not end with `p`. */
  lemma {:induction false} NotEndsWithLast(s: string, p: string)
    requires p != [] && (s == [] || s[|s| - 1] != p[|p| - 1])
    ensures !EndsWith(s, p)
  {
    if |p| <= |s| {
      assert s[|s| - |p|..][|p| - 1] == s[|s| - 1];
    }
  }

  /** `s in words` for a list of words, one word at a time. */
  predicate Listed(s: string, words: seq<string>)
    decreases |words|
  {
    words != [] && (words[0] == s || Listed(s, words[1..]))
  }

  /** `t in s` for strings: `t` occurs as a contiguous substring (the empty string always does). */
  predicate Contains(s: string, t: string)
    decreases |s|
  {
    StartsWith(s, t) || (s != [] && Contains(s[1..], t))
  }

  /** `any(w in s for w in words)` */
  predicate ContainsAny(s: string, words: seq<string>)
    decreases |words|
  {
    words != [] && (Contains(s, words[0]) || ContainsAny(s, words[1..]))
  }

  /** `s.find(t)`, with -1 as `None`: the first index where `t` occurs. */
  function Find(s: string, t: string): (r: Option<nat>)
    ensures r.Some? <==> Contains(s, t)
    ensures r.Some? ==> r.value + |t| <= |s| && s[r.value..r.value + |t|] == t
    ensures r.Some? ==> forall j :: 0 <= j < r.value ==> !StartsWith(s[j..], t)
    decreases |s|
  {
    if StartsWith(s, t) then Some(0)
    else if s == [] then None
    else
      match Find(s[1..], t)
      case Some(i) =>
        assert forall j :: 1 <= j < i + 1 ==> s[j..] == s[1..][j - 1..];
        Some(i + 1)
      case None => None
  }

  lemma {:induction false} ContainsAt(s: string, t: string, i: nat)
    requires i + |t| <= |s| && s[i..i + |t|] == t
    ensures Contains(s, t)
    decreases i
  {
    if i > 0 {
      assert s[1..][i - 1..i - 1 + |t|] == t;
      ContainsAt(s[1..], t, i - 1);
    }
  }

  lemma {:induction false} ContainsSelf(s: string)
    ensures Contains(s, s)
  {
  }

  lemma {:induction false} ContainsEmpty(s: string)
    ensures Contains(s, [])
  {
  }

  lemma {:induction false} ContainsShorter(s: string, t: string)
    requires Contains(s, t)
    ensures |t| <= |s|
    decreases |s|
  {
    if !StartsWith(s, t) { ContainsShorter(s[1..], t); }
  }

  lemma {:induction false} ContainsInConcat(a: string, b: string, t: string)
    requires Contains(b, t)
    ensures Contains(a + b, t) && Contains(b + a, t)
  {
    var i := Find(b, t).value;
    assert (a + b)[|a| + i..|a| + i + |t|] == t;
    ContainsAt(a + b, t, |a| + i);
    assert (b + a)[i..i + |t|] == t;
    ContainsAt(b + a, t, i);
  }

  /** `c in s` for one character. */
  lemma {:induction false} ContainsChar(s: string, c: char)
    ensures Contains(s, [c]) <==> c in s
  {
    if c in s {
      var i :| 0 <= i < |s| && s[i] == c;
      assert s[i..i + 1] == [c];
      ContainsAt(s, [c], i);
    }
    if Contains(s, [c]) {
      var i := Find(s, [c]).value;
      assert s[i] == s[i..i + 1][0];
    }
  }

  // -------------------------------------------------------------- transforms

  /** The characters of `s` that satisfy `keep`, in order (`re.sub` of a character class with ''). */
  function Filter(s: string, keep: char -> bool): (r: string)
    ensures |r| <= |s|
    ensures forall i :: 0 <= i < |r| ==> keep(r[i])
    ensures forall c :: c in r ==> c in s
    ensures (forall i :: 0 <= i < |s| ==> keep(s[i])) ==> r == s
    decreases |s|
  {
    if s == [] then []
    else if keep(s[0]) then [s[0]] + Filter(s[1..], keep)
    else Filter(s[1..], keep)
  }

  lemma {:induction false} FilterConcat(a: string, b: string, keep: char -> bool)
    ensures Filter(a + b, keep) == Filter(a, keep) + Filter(b, keep)
    decreases |a|
  {
    if a != [] {
      assert (a + b)[0] == a[0] && (a + b)[1..] == a[1..] + b;
      FilterConcat(a[1..], b, keep);
    } else {
      assert a + b == b;
    }
  }

  /** `re.sub(r'\s+', '', s)` */
  function RemoveSpaces(s: string): (r: string)
    ensures |r| <= |s|
    decreases |s|
  {
    if s == [] then []
    else if IsSpace(s[0]) then RemoveSpaces(s[1..])
    else [s[0]] + RemoveSpaces(s[1..])
  }

  /** `RemoveSpaces` leaves no whitespace and only characters of its input. */
  lemma {:induction false} RemoveSpacesChars(s: string)
    ensures NoSpace(RemoveSpaces(s))
    ensures forall c :: c in RemoveSpaces(s) ==> c in s
    decreases |s|
  {
    if s != [] {
      RemoveSpacesChars(s[1..]);
    }
  }

  /** `s.replace(pat, rep)`: every non-overlapping occurrence, scanning left to right. */
  function ReplaceAll(s: string, pat: string, rep: string): (r: string)
    requires |pat| > 0
    ensures !Contains(s, pat) ==> r == s
    decreases |s|
  {
    if StartsWith(s, pat) then rep + ReplaceAll(s[|pat|..], pat, rep)
    else if s == [] then []
    else [s[0]] + ReplaceAll(s[1..], pat, rep)
  }

  /** `s.replace(c, d)` for single characters: a character-wise map. */
  lemma {:induction false} ReplaceCharLength(s: string, c: char, d: char)
    ensures |ReplaceAll(s, [c], [d])| == |s|
    ensures forall i :: 0 <= i < |s| ==> ReplaceAll(s, [c], [d])[i] == if s[i] == c then d else s[i]
    decreases |s|
  {
    if s != [] { ReplaceCharLength(s[1..], c, d); }
  }

  /** `sep.join(parts)` */
  function Join(parts: seq<string>, sep: string): (r: string)
    ensures |parts| == 1 ==> r == parts[0]
    decreases |parts|
  {
    if |parts| == 0 then []
    else if |parts| == 1 then parts[0]
    else parts[0] + sep + Join(parts[1..], sep)
  }

  /** A piece without `sep` that occurs in `a + sep + b` occurs in `a` or in `b`. */
  lemma {:induction false} ContainsAcrossSep(a: string, b: string, sep: char, t: string)
    requires sep !in t && Contains(a + [sep] + b, t)
    ensures Contains(a, t) || Contains(b, t)
  {
    var s := a + [sep] + b;
    var i := OccursAt(s, t);
    if i + |t| <= |a| {
      SliceOfLeft(a, [sep] + b, i, |t|);
      assert s == a + ([sep] + b);
      ContainsAt(a, t, i);
    } else if i > |a| {
      SliceOfRight(a + [sep], b, i, |t|);
      ContainsAt(b, t, i - |a| - 1);
    } else {
      SliceAt(s, i, t, |a|);
      assert false;
    }
  }

  /** Where a contained piece occurs. */
  lemma {:induction false} OccursAt(s: string, t: string) returns (i: nat)
    requires Contains(s, t)
    ensures i + |t| <= |s| && s[i..i + |t|] == t
  {
    i := Find(s, t).value;
  }

  /** A slice inside the left operand of a concatenation is a slice of that operand. */
  lemma {:induction false} SliceOfLeft(x: string, y: string, i: nat, n: nat)
    requires i + n <= |x|
    ensures (x + y)[i..i + n] == x[i..i + n]
  {
    var l, r := (x + y)[i..i + n], x[i..i + n];
    forall k | 0 <= k < n ensures l[k] == r[k] {
      assert (x + y)[i + k] == x[i + k];
    }
  }

  /** A slice inside the right operand of a concatenation is a slice of that operand. */
  lemma {:induction false} SliceOfRight(x: string, y: string, i: nat, n: nat)
    requires |x| <= i && i + n <= |x| + |y|
    ensures (x + y)[i..i + n] == y[i - |x|..i - |x| + n]
  {
    var l, r := (x + y)[i..i + n], y[i - |x|..i - |x| + n];
    forall k | 0 <= k < n ensures l[k] == r[k] {
      assert (x + y)[i + k] == y[i - |x| + k];
    }
  }

  lemma {:induction false} SliceAt(s: string, i: nat, t: string, j: nat)
    requires i + |t| <= |s| && s[i..i + |t|] == t && i <= j < i + |t|
    ensures s[j] in t
  {
    assert t[j - i] == s[j];
  }

  /** A piece without `sep` occurs in `sep.join(parts)` exactly when it occurs in one of the parts. */
  lemma {:induction false} JoinContains(parts: seq<string>, sep: char, t: string)
    requires sep !in t && t != []
    ensures Contains(Join(parts, [sep]), t) <==> exists k :: 0 <= k < |parts| && Contains(parts[k], t)
    decreases |parts|
  {
    if |parts| > 1 {
      var rest := Join(parts[1..], [sep]);
      assert Join(parts, [sep]) == parts[0] + [sep] + rest;
      JoinContains(parts[1..], sep, t);
      if Contains(Join(parts, [sep]), t) {
        ContainsAcrossSep(parts[0], rest, sep, t);
        if !Contains(parts[0], t) {
          var k :| 0 <= k < |parts[1..]| && Contains(parts[1..][k], t);
          assert parts[1..][k] == parts[k + 1];
        }
      }
      if exists k :: 0 <= k < |parts| && Contains(parts[k], t) {
        var k :| 0 <= k < |parts| && Contains(parts[k], t);
        if k == 0 {
          ContainsInConcat([sep] + rest, parts[0], t);
          assert parts[0] + ([sep] + rest) == parts[0] + [sep] + rest;
        } else {
          assert parts[1..][k - 1] == parts[k];
          ContainsInConcat(parts[0] + [sep], rest, t);
        }
      }
    } else if |parts| == 0 {
      assert Join(parts, [sep]) == [];
      if Contains([], t) { ContainsShorter([], t); }
    }
  }

  /** `s.split(sep)` for a one-character separator: keeps empty pieces. */
  function SplitOn(s: string, sep: char): (r: seq<string>)
    ensures |r| >= 1
    ensures forall i :: 0 <= i < |r| ==> sep !in r[i]
    decreases |s|
  {
    if s == [] then [[]]
    else
      var rest := SplitOn(s[1..], sep);
      if s[0] == sep then [[]] + rest else [[s[0]] + rest[0]] + rest[1..]
  }

  /** Splitting on a separator and joining with it gives back the string. */
  lemma {:induction false} JoinSplitOn(s: string, sep: char)
    ensures Join(SplitOn(s, sep), [sep]) == s
    decreases |s|
  {
    if s != [] {
      var rest := SplitOn(s[1..], sep);
      JoinSplitOn(s[1..], sep);
      if s[0] == sep {
        assert SplitOn(s, sep) == [[]] + rest;
        assert Join([[]] + rest, [sep]) == [] + [sep] + Join(rest, [sep]);
      } else {
        var r := SplitOn(s, sep);
        assert r == [[s[0]] + rest[0]] + rest[1..];
        if |rest| == 1 {
          assert Join(r, [sep]) == [s[0]] + rest[0];
        } else {
          assert r[1..] == rest[1..];
          assert Join(r, [sep]) == [s[0]] + rest[0] + [sep] + Join(rest[1..], [sep]);
          assert Join(rest, [sep]) == rest[0] + [sep] + Join(rest[1..], [sep]);
        }
      }
    }
  }

  lemma {:induction false} SplitOnPrefix(a: string, rest: string, sep: char)
    requires sep !in a
    ensures SplitOn(a + rest, sep) == [a + SplitOn(rest, sep)[0]] + SplitOn(rest, sep)[1..]
    decreases |a|
  {
    if a == [] {
      var r := SplitOn(rest, sep);
      assert a + rest == rest && a + r[0] == r[0];
      assert r == [r[0]] + r[1..];
    } else {
      SplitOnPrefix(a[1..], rest, sep);
      assert (a + rest)[0] == a[0] && (a + rest)[1..] == a[1..] + rest;
      assert [a[0]] + (a[1..] + SplitOn(rest, sep)[0]) == a + SplitOn(rest, sep)[0];
    }
  }

  /** Joining pieces free of the separator and splitting again gives back the pieces. */
  lemma {:induction false} SplitOnJoin(parts: seq<string>, sep: char)
    requires |parts| >= 1
    requires forall i :: 0 <= i < |parts| ==> sep !in parts[i]
    ensures SplitOn(Join(parts, [sep]), sep) == parts
    decreases |parts|
  {
    if |parts| == 1 {
      SplitOnPrefix(parts[0], [], sep);
      assert parts[0] + [] == parts[0];
    } else {
      var rest := Join(parts[1..], [sep]);
      SplitOnJoin(parts[1..], sep);
      SplitOnPrefix(parts[0], [sep] + rest, sep);
      assert parts[0] + [sep] + rest == parts[0] + ([sep] + rest);
      assert SplitOn([sep] + rest, sep) == [[]] + SplitOn(rest, sep);
      assert parts[0] + [] == parts[0];
      assert parts == [parts[0]] + parts[1..];
    }
  }

  /** The first run of non-space characters of `s` and what follows it. */
  function Word(s: string): (r: string)
    ensures |r| <= |s| && r == s[..|r|]
    ensures forall i :: 0 <= i < |r| ==> !IsSpace(s[i])
    ensures |r| < |s| ==> IsSpace(s[|r|])
    ensures s != [] && !IsSpace(s[0]) ==> |r| > 0
    decreases |s|
  {
    if s == [] || IsSpace(s[0]) then [] else [s[0]] + Word(s[1..])
  }

  /** `s.split()`: the maximal runs of non-whitespace characters, in order. */
  function SplitWs(s: string): seq<string>
    decreases |s|
  {
    var t := LStrip(s);
    if t == [] then []
    else
      var w := Word(t);
      [w] + SplitWs(t[|w|..])
  }

  /** Every piece `s.split()` gives is a non-empty run without whitespace. */
  lemma {:induction false} SplitWsWords(s: string)
    ensures forall i :: 0 <= i < |SplitWs(s)| ==> |SplitWs(s)[i]| > 0 && NoSpace(SplitWs(s)[i])
    decreases |s|
  {
    var t := LStrip(s);
    if t != [] {
      var w := Word(t);
      assert |w| > 0 && NoSpace(w);
      var rest := SplitWs(t[|w|..]);
      SplitWsWords(t[|w|..]);
      var r := [w] + rest;
      assert SplitWs(s) == r;
      forall i | 0 <= i < |r| ensures |r[i]| > 0 && NoSpace(r[i]) {
        if i > 0 { assert r[i] == rest[i - 1]; }
      }
    }
  }

  /** `text[text.find(marker) + len(marker):].strip().split()[0]`, or "" when the marker or the word is missing. */
  function WordAfter(text: string, marker: string): (r: string)
    ensures !Contains(text, marker) ==> r == []
    ensures NoSpace(r)
  {
    match Find(text, marker)
    case None => []
    case Some(i) =>
      var words := SplitWs(Strip(text[i + |marker|..]));
      SplitWsWords(Strip(text[i + |marker|..]));
      if words == [] then [] else words[0]
  }

  /** `re.sub(r'\s+', ' ', s)`: every whitespace run becomes one space. */
  function CollapseSpaces(s: string): (r: string)
    ensures |r| <= |s|
    decreases |s|
  {
    if s == [] then []
    else if IsSpace(s[0]) then " " + CollapseSpaces(LStrip(s))
    else [s[0]] + CollapseSpaces(s[1..])
  }

  /** `c.lower()` for ASCII letters; every other character is left as it is. */
  function LowerChar(c: char): (d: char)
    ensures !IsAsciiUpper(d)
    ensures IsAsciiLetter(c) <==> IsAsciiLetter(d)
  {
    if IsAsciiUpper(c) then (c as int + 32) as char else c
  }

  /** `s.lower()`, ASCII letters only. */
  function Lower(s: string): (r: string)
    ensures |r| == |s|
    ensures forall i :: 0 <= i < |r| ==> r[i] == LowerChar(s[i])
    decreases |s|
  {
    if s == [] then [] else [LowerChar(s[0])] + Lower(s[1..])
  }
}

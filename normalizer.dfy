/**
 * The text normaliser that turns item fields and item keys into comparable
 * keys, and the character-overlap similarity score built on it
 * (server/services/normalizer.py).
 */
module Normalizer {
  import opened Text
  import opened TenderSchema
  import Sorting

  // ------------------------------------------------------------ synonyms

  /** Field names that denote the same column under another heading. */
  const Synonyms: map<string, string> := map[
    "工事区分" := "工種",
    "工種区分" := "工種",
    "種別区分" := "種別",
    "細目" := "細別",
    "名称・規格" := "名称",
    "品名" := "名称",
    "項目" := "名称",
    "数量" := "数量"
  ]

  /** `synonyms.get(name, name)` */
  function Canonical(name: string): string {
    if name in Synonyms then Synonyms[name] else name
  }

  // ------------------------------------------------- character classes

  /** Full-width ASCII forms and the ideographic space become their half-width forms (`jaconv.z2h` with `ascii` and `digit`, not `kana`). */
  function ZenToHanChar(c: char): char {
    if '\U{FF01}' <= c <= '\U{FF5E}' then (c as int - 0xFEE0) as char
    else if c == '\U{3000}' then ' '
    else c
  }

  /** The inverse direction for printable ASCII: the full-width spelling of a character. */
  function WideChar(c: char): char {
    if '!' <= c <= '~' then (c as int + 0xFEE0) as char else c
  }

  /** `\w` of Python's `re` on the scripts that occur in tender documents. */
  predicate IsWordChar(c: char) {
    IsAsciiLetter(c) || IsDigit(c) || c == '_'
    || c == 'ª' || c == '²' || c == '³' || c == 'µ'
    || c == '¹' || c == 'º' || ('¼' <= c <= '¾')
    || ('À' <= c <= 'Ö') || ('Ø' <= c <= 'ö') || ('ø' <= c <= 'ÿ')
    || ('Ⅰ' <= c <= 'ↈ') || ('①' <= c <= '⒛')
    || ('々' <= c <= '〇')
    || ('㐀' <= c <= '䶿') || ('一' <= c <= '鿿')
    || ('豈' <= c <= '﫿') || ('가' <= c <= '힣')
    || ('\U{FF21}' <= c <= '\U{FF3A}') || ('\U{FF41}' <= c <= '\U{FF5A}')
    || ('\U{FF66}' <= c <= '\U{FF9F}')
  }

  /** The characters `[\w぀-ゟ゠-ヿ一-龯]` keeps. */
  predicate Keep(c: char) {
    IsWordChar(c) || IsHiragana(c) || IsKatakana(c) || IsKanji(c)
  }

  lemma {:induction false} KeepIsNotSpace(c: char)
    requires Keep(c)
    ensures !IsSpace(c) && c != '|' && c != ':'
  {
  }

  // ------------------------------------------------------- folding

  function ZenToHan(s: string): (r: string)
    ensures |r| == |s|
    ensures forall i :: 0 <= i < |s| ==> r[i] == ZenToHanChar(s[i])
    decreases |s|
  {
    if s == [] then [] else [ZenToHanChar(s[0])] + ZenToHan(s[1..])
  }

  function Widen(s: string): (r: string)
    ensures |r| == |s|
    ensures forall i :: 0 <= i < |s| ==> r[i] == WideChar(s[i])
    decreases |s|
  {
    if s == [] then [] else [WideChar(s[0])] + Widen(s[1..])
  }

  function UpperChar(c: char): char {
    if IsAsciiLower(c) then (c as int - 32) as char else c
  }

  function Upper(s: string): (r: string)
    ensures |r| == |s|
    ensures forall i :: 0 <= i < |s| ==> r[i] == UpperChar(s[i])
    decreases |s|
  {
    if s == [] then [] else [UpperChar(s[0])] + Upper(s[1..])
  }

  /** Width folding then lower-casing (normalizer.py lines 74-77). */
  function Fold(s: string): (r: string)
    ensures |r| == |s|
    ensures forall i :: 0 <= i < |s| ==> r[i] == LowerChar(ZenToHanChar(s[i]))
  {
    Lower(ZenToHan(s))
  }

  /** `re.sub(r'[^\w぀-ゟ゠-ヿ一-龯]', '', s)` */
  function KeepOnly(s: string): (r: string)
    ensures |r| <= |s|
    decreases |s|
  {
    if s == [] then []
    else if Keep(s[0]) then [s[0]] + KeepOnly(s[1..])
    else KeepOnly(s[1..])
  }

  lemma {:induction false} KeepOnlyChars(s: string)
    ensures forall i :: 0 <= i < |KeepOnly(s)| ==> Keep(KeepOnly(s)[i])
    ensures forall c :: c in KeepOnly(s) ==> c in s
    decreases |s|
  {
    if s != [] {
      KeepOnlyChars(s[1..]);
    }
  }

  /** Folding, then dropping whitespace and every character outside the kept classes (lines 74-84). */
  function Clean(s: string): (r: string)
    ensures |r| <= |s|
  {
    KeepOnly(RemoveSpaces(Fold(s)))
  }

  /** Only kept characters come out of `Clean`, and no upper-case ASCII letter. */
  lemma {:induction false} CleanChars(s: string)
    ensures forall i :: 0 <= i < |Clean(s)| ==> Keep(Clean(s)[i]) && !IsAsciiUpper(Clean(s)[i])
  {
    var f := Fold(s);
    var ns := RemoveSpaces(f);
    var k := KeepOnly(ns);
    KeepOnlyChars(ns);
    RemoveSpacesChars(f);
    forall i | 0 <= i < |k| ensures !IsAsciiUpper(k[i]) {
      assert k[i] in k;
      assert k[i] in f;
    }
  }

  /** Full-width spellings and upper-case ASCII fold to the same text as the plain spelling. */
  lemma {:induction false} FoldIgnoresWidthAndCase(s: string)
    ensures Fold(Widen(s)) == Fold(s)
    ensures Fold(Upper(s)) == Fold(s)
  {
    var w, u, f := Widen(s), Upper(s), Fold(s);
    assert Fold(w) == f by {
      forall i | 0 <= i < |s| ensures Fold(w)[i] == f[i] { FoldCharWide(s[i]); }
    }
    assert Fold(u) == f by {
      forall i | 0 <= i < |s| ensures Fold(u)[i] == f[i] { FoldCharUpper(s[i]); }
    }
  }

  lemma {:induction false} FoldCharWide(c: char)
    ensures LowerChar(ZenToHanChar(WideChar(c))) == LowerChar(ZenToHanChar(c))
  {
  }

  lemma {:induction false} FoldCharUpper(c: char)
    ensures LowerChar(ZenToHanChar(UpperChar(c))) == LowerChar(ZenToHanChar(c))
  {
  }

  /** Characters that `Clean` leaves exactly as they are. */
  predicate Settled(c: char) {
    Keep(c) && !IsAsciiUpper(c) && !('\U{FF01}' <= c <= '\U{FF5E}')
  }

  lemma {:induction false} KeepOnlyKept(s: string)
    requires forall i :: 0 <= i < |s| ==> Keep(s[i])
    ensures KeepOnly(s) == s
    decreases |s|
  {
    if s != [] {
      KeepOnlyKept(s[1..]);
      assert s == [s[0]] + s[1..];
    }
  }

  lemma {:induction false} RemoveSpacesUnspaced(s: string)
    requires forall i :: 0 <= i < |s| ==> !IsSpace(s[i])
    ensures RemoveSpaces(s) == s
    decreases |s|
  {
    if s != [] {
      RemoveSpacesUnspaced(s[1..]);
      assert s == [s[0]] + s[1..];
    }
  }

  /** A text made of settled characters is its own cleaned form. */
  lemma {:induction false} CleanSettled(s: string)
    requires forall i :: 0 <= i < |s| ==> Settled(s[i])
    ensures Clean(s) == s
  {
    assert Fold(s) == s by {
      forall i | 0 <= i < |s| ensures Fold(s)[i] == s[i] {
        assert s[i] != '\U{3000}' by { assert Keep(s[i]); }
      }
    }
    forall i | 0 <= i < |s| ensures !IsSpace(s[i]) { KeepIsNotSpace(s[i]); }
    RemoveSpacesUnspaced(s);
    KeepOnlyKept(s);
  }

  // ---------------------------------------------------------- noise words

  /** Number of digits `s` starts with. */
  function LeadingDigits(s: string): (n: nat)
    ensures n <= |s|
    ensures forall i :: 0 <= i < n ==> IsDigit(s[i])
    ensures n < |s| ==> !IsDigit(s[n])
    decreases |s|
  {
    if s == [] || !IsDigit(s[0]) then 0 else 1 + LeadingDigits(s[1..])
  }

  /** Number of digits `s` ends with. */
  function TrailingDigits(s: string): (n: nat)
    ensures n <= |s|
    ensures forall i :: |s| - n <= i < |s| ==> IsDigit(s[i])
    ensures n < |s| ==> !IsDigit(s[|s| - n - 1])
    decreases |s|
  {
    if s == [] || !IsDigit(s[|s| - 1]) then 0 else 1 + TrailingDigits(s[..|s| - 1])
  }

  predicate DigitsBetween(s: string, i: int, j: int)
    requires 0 <= i <= j <= |s|
  {
    forall k :: i <= k < j ==> IsDigit(s[k])
  }

  /** `s[..n]` is a match of `^第\d+号`. */
  predicate OrdinalPrefix(s: string, n: nat) {
    3 <= n <= |s| && s[0] == '第' && s[n - 1] == '号' && DigitsBetween(s, 1, n - 1)
  }

  /** `s[k..]` is a match of `\d+m\d*$`. */
  predicate DimensionSuffix(s: string, k: nat) {
    k <= |s|
    && exists j :: k < j < |s| && s[j] == 'm' && DigitsBetween(s, k, j) && DigitsBetween(s, j + 1, |s|)
  }

  /** `re.sub(r'^第\d+号', '', s)` */
  function DropOrdinal(s: string): (r: string)
    ensures |r| <= |s| && r == s[|s| - |r|..]
  {
    if s != [] && s[0] == '第' then
      var d := LeadingDigits(s[1..]);
      if d > 0 && d + 1 < |s| && s[d + 1] == '号' then s[d + 2..] else s
    else s
  }

  /** `DropOrdinal` removes exactly the match of `^第\d+号`, when there is one. */
  lemma {:induction false} DropOrdinalMatches(s: string)
    ensures (exists n: nat :: OrdinalPrefix(s, n)) ==> exists n: nat :: OrdinalPrefix(s, n) && DropOrdinal(s) == s[n..]
    ensures (forall n: nat :: !OrdinalPrefix(s, n)) ==> DropOrdinal(s) == s
  {
    if s != [] && s[0] == '第' {
      var d := LeadingDigits(s[1..]);
      if d > 0 && d + 1 < |s| && s[d + 1] == '号' {
        assert OrdinalPrefix(s, d + 2);
      } else {
        forall n: nat ensures !OrdinalPrefix(s, n) {
        }
      }
    }
  }

  /** `re.sub(suffix + '$', '', s)` */
  function DropSuffix(s: string, suffix: string): (r: string)
    ensures EndsWith(s, suffix) ==> r + suffix == s
    ensures !EndsWith(s, suffix) ==> r == s
  {
    if EndsWith(s, suffix) then s[..|s| - |suffix|] else s
  }

  /** A run of digits reaching the end of `s` lies within its trailing digits. */
  lemma {:induction false} TrailingDigitsMaximal(s: string, i: nat)
    requires i <= |s| && DigitsBetween(s, i, |s|)
    ensures |s| - TrailingDigits(s) <= i
  {
  }

  /** Where a match of `\d+m\d*$` can start: inside the digit run before the last `m` that only digits follow. */
  lemma {:induction false} DimensionSuffixShape(s: string, k: nat)
    requires DimensionSuffix(s, k)
    ensures var t := TrailingDigits(s);
            t < |s| && s[|s| - t - 1] == 'm'
            && |s| - t - 1 - TrailingDigits(s[..|s| - t - 1]) <= k < |s| - t - 1
  {
    var j :| k < j < |s| && s[j] == 'm' && DigitsBetween(s, k, j) && DigitsBetween(s, j + 1, |s|);
    assert !IsDigit(s[j]);
    TrailingDigitsMaximal(s, j + 1);
    var t := TrailingDigits(s);
    assert |s| - t - 1 == j;
    var p := s[..j];
    assert DigitsBetween(p, k, j) by {
      forall i | k <= i < j ensures IsDigit(p[i]) { assert p[i] == s[i]; }
    }
    TrailingDigitsMaximal(p, k);
    assert j - TrailingDigits(p) <= k;
  }

  /** `re.sub(r'\d+m\d*$', '', s)`: the leftmost match is cut off. */
  function DropDimension(s: string): (r: string)
    ensures |r| <= |s| && r == s[..|r|]
  {
    var t := TrailingDigits(s);
    if t < |s| && s[|s| - t - 1] == 'm' then
      var j := |s| - t - 1;
      var u := TrailingDigits(s[..j]);
      if u > 0 then s[..j - u] else s
    else s
  }

  /** Where `DropDimension` finds no digits before the `m` after the trailing digits, there is no match at all. */
  lemma {:induction false} NoDimensionSuffix(s: string)
    requires var t := TrailingDigits(s);
             !(t < |s| && s[|s| - t - 1] == 'm' && TrailingDigits(s[..|s| - t - 1]) > 0)
    ensures forall k: nat :: !DimensionSuffix(s, k)
  {
    forall k: nat ensures !DimensionSuffix(s, k) {
      if DimensionSuffix(s, k) { DimensionSuffixShape(s, k); }
    }
  }

  /** Where `DropDimension` cuts, it cuts at a match, and no match starts further left. */
  lemma {:induction false} DimensionCutLeftmost(s: string, j: nat, k: nat)
    requires j < |s| && TrailingDigits(s) == |s| - j - 1 && s[j] == 'm'
    requires k < j && TrailingDigits(s[..j]) == j - k
    ensures DimensionSuffix(s, k)
    ensures forall k': nat :: k' < k ==> !DimensionSuffix(s, k')
  {
    forall i | k <= i < j ensures IsDigit(s[i]) { assert s[..j][i] == s[i]; }
    assert DigitsBetween(s, j + 1, |s|);
    forall k': nat | k' < k ensures !DimensionSuffix(s, k') {
      if DimensionSuffix(s, k') { DimensionSuffixShape(s, k'); }
    }
  }

  /** `DropDimension` cuts the string at the leftmost match of `\d+m\d*$`, when there is one. */
  lemma {:induction false} DropDimensionMatches(s: string)
    ensures (exists k: nat :: DimensionSuffix(s, k)) ==>
              exists k: nat :: DimensionSuffix(s, k) && DropDimension(s) == s[..k]
                               && forall k': nat :: k' < k ==> !DimensionSuffix(s, k')
    ensures (forall k: nat :: !DimensionSuffix(s, k)) ==> DropDimension(s) == s
  {
    var t := TrailingDigits(s);
    if t < |s| && s[|s| - t - 1] == 'm' && TrailingDigits(s[..|s| - t - 1]) > 0 {
      var j := |s| - t - 1;
      var k := j - TrailingDigits(s[..j]);
      DimensionCutLeftmost(s, j, k);
      assert DropDimension(s) == s[..k];
    } else {
      NoDimensionSuffix(s);
      assert DropDimension(s) == s;
    }
  }

  // ------------------------------------------------------------ the key parts

  /** The four noise patterns of `_normalize_text`, each cut once, in order. */
  function Denoise(c: string): (r: string)
    ensures |r| <= |c|
  {
    DropDimension(DropSuffix(DropSuffix(DropOrdinal(c), "当り"), "当たり"))
  }

  /** `_normalize_text`: fold, clean, then cut each noise pattern once, in order, and strip. */
  function NormalizeText(text: string): (r: string)
    ensures text == [] ==> r == []
  {
    if text == [] then [] else Strip(Denoise(Clean(text)))
  }

  /**
   * What survives normalisation: no more characters than were given, only
   * kept characters, no upper-case ASCII letter, and so no `|` and no `:`.
   */
  lemma {:induction false} NormalizeTextChars(text: string)
    ensures var r := NormalizeText(text);
            |r| <= |text| && (forall i :: 0 <= i < |r| ==> Keep(r[i]) && !IsAsciiUpper(r[i]))
            && '|' !in r && ':' !in r
  {
    if text != [] {
      var c := Clean(text);
      CleanChars(text);
      var a := DropOrdinal(c);
      var b := DropSuffix(a, "当り");
      var d := DropSuffix(b, "当たり");
      var e := DropDimension(d);
      assert forall i :: 0 <= i < |e| ==> Keep(e[i]) && !IsAsciiUpper(e[i]) by {
        forall i | 0 <= i < |e| ensures Keep(e[i]) && !IsAsciiUpper(e[i]) {
          assert e[i] == d[i] && d[i] == b[i] && b[i] == a[i];
          assert a[i] == c[|c| - |a| + i];
        }
      }
      forall i | 0 <= i < |e| ensures !IsSpace(e[i]) { KeepIsNotSpace(e[i]); }
      StripUnspaced(e);
      assert NormalizeText(text) == e;
      assert '|' !in e && ':' !in e by {
        if '|' in e { var i :| 0 <= i < |e| && e[i] == '|'; KeepIsNotSpace(e[i]); }
        if ':' in e { var i :| 0 <= i < |e| && e[i] == ':'; KeepIsNotSpace(e[i]); }
      }
    }
  }

  /** Width and ASCII case do not change the normalised text. */
  lemma {:induction false} NormalizeTextIgnoresWidthAndCase(s: string)
    ensures NormalizeText(Widen(s)) == NormalizeText(s)
    ensures NormalizeText(Upper(s)) == NormalizeText(s)
  {
    FoldIgnoresWidthAndCase(s);
    assert Clean(Widen(s)) == Clean(s);
    assert Clean(Upper(s)) == Clean(s);
  }

  /** Plain text: lower-case ASCII letters, not ending in `m`. */
  predicate PlainWord(w: string) {
    w != [] && w[|w| - 1] != 'm' && forall i :: 0 <= i < |w| ==> IsAsciiLower(w[i])
  }

  /** A dimension of one digit and `m` after a non-digit is cut off. */
  lemma {:induction false} DropDimensionUnit(b: string, d: char)
    requires b != [] && !IsDigit(b[|b| - 1]) && IsDigit(d)
    ensures DropDimension(b + [d] + "m") == b
  {
    var a := b + [d] + "m";
    assert TrailingDigits(a) == 0 by { assert a[|a| - 1] == 'm'; }
    assert a[..|a| - 1] == b + [d];
    assert TrailingDigits(b + [d]) == 1 by {
      assert (b + [d])[..|b|] == b;
      assert TrailingDigits(b) == 0;
    }
  }

  /** A text ending in neither a digit nor `m` has no dimension to cut. */
  lemma {:induction false} DropDimensionNone(s: string)
    requires s == [] || (!IsDigit(s[|s| - 1]) && s[|s| - 1] != 'm')
    ensures DropDimension(s) == s
  {
    assert TrailingDigits(s) == 0;
  }

  /** The noise cuts on a word followed by 当り and a dimension: only the dimension goes. */
  lemma {:induction false} DenoiseDimension(w: string, d: char)
    requires PlainWord(w) && IsAsciiDigit(d)
    ensures Denoise(w + "当り" + [d] + "m") == w + "当り"
  {
    var b := w + "当り";
    var a := b + [d] + "m";
    assert a[|a| - 1] == 'm';
    assert DropOrdinal(a) == a by { assert a[0] == w[0]; }
    var a1 := DropSuffix(a, "当り");
    assert a1 == a by { NotEndsWithLast(a, "当り"); }
    var a2 := DropSuffix(a1, "当たり");
    assert a2 == a by { NotEndsWithLast(a, "当たり"); }
    assert b[|b| - 1] == 'り';
    DropDimensionUnit(b, d);
    assert Denoise(a) == DropDimension(a2);
  }

  /** The noise cuts on a word followed by 当り: the 当り goes. */
  lemma {:induction false} DenoiseSuffix(w: string)
    requires PlainWord(w)
    ensures Denoise(w + "当り") == w
  {
    var b := w + "当り";
    assert DropOrdinal(b) == b by { assert b[0] == w[0]; }
    assert DropSuffix(b, "当り") == w;
    assert DropSuffix(w, "当たり") == w by { NotEndsWithLast(w, "当たり"); }
    DropDimensionNone(w);
  }

  /** For a text of settled characters, normalising is denoising (when that leaves no space at the ends). */
  lemma {:induction false} NormalizeTextSettled(s: string, e: string)
    requires s != [] && forall i :: 0 <= i < |s| ==> Settled(s[i])
    requires Denoise(s) == e && (e == [] || (!IsSpace(e[0]) && !IsSpace(e[|e| - 1])))
    ensures NormalizeText(s) == e
  {
    StripUnspaced(e);
    CleanSettled(s);
  }

  /**
   * Each noise pattern is cut once, so normalising twice can cut more: a
   * word followed by 当り and a dimension such as "5m" loses the dimension,
   * and only a second pass removes the 当り ("x当り5m" to "x当り" to "x").
   */
  lemma {:induction false} NormalizeTextNotIdempotent(w: string, d: char)
    requires PlainWord(w) && IsAsciiDigit(d)
    ensures NormalizeText(w + "当り" + [d] + "m") == w + "当り"
    ensures NormalizeText(w + "当り") == w
    ensures NormalizeText(NormalizeText(w + "当り" + [d] + "m")) != NormalizeText(w + "当り" + [d] + "m")
  {
    var b := w + "当り";
    var a := b + [d] + "m";
    assert forall i :: 0 <= i < |b| ==> Settled(b[i]) by {
      forall i | 0 <= i < |b| ensures Settled(b[i]) {
        if i < |w| { assert b[i] == w[i]; }
      }
    }
    assert forall i :: 0 <= i < |a| ==> Settled(a[i]) by {
      forall i | 0 <= i < |a| ensures Settled(a[i]) {
        if i < |b| { assert a[i] == b[i]; }
      }
    }
    assert !IsSpace(b[0]) && !IsSpace(b[|b| - 1]) by { assert b[0] == w[0] && b[|b| - 1] == 'り'; }
    assert !IsSpace(w[0]) && !IsSpace(w[|w| - 1]) by { assert IsAsciiLower(w[0]) && IsAsciiLower(w[|w| - 1]); }
    DenoiseDimension(w, d);
    DenoiseSuffix(w);
    NormalizeTextSettled(a, b);
    NormalizeTextSettled(b, w);
    assert |w| < |b|;
  }

  /** `normalize_item`: a `|`-separated key is normalised piece by piece, empty pieces dropped. */
  function NormalizeItem(key: string): (r: string)
    ensures key == [] ==> r == []
    ensures '|' !in key ==> r == NormalizeText(key)
  {
    if key == [] then []
    else if '|' in key then Join(NonEmptyNormalized(SplitOn(key, '|'), NormalizeText), "|")
    else NormalizeText(key)
  }

  /** The non-empty results of `norm` on `parts`, in order. */
  function NonEmptyNormalized(parts: seq<string>, norm: string -> string): seq<string>
    decreases |parts|
  {
    if parts == [] then []
    else
      var n := norm(parts[0]);
      if n == [] then NonEmptyNormalized(parts[1..], norm) else [n] + NonEmptyNormalized(parts[1..], norm)
  }

  lemma {:induction false} NonEmptyNormalizedPieces(parts: seq<string>, norm: string -> string)
    requires forall x :: '|' !in norm(x)
    ensures forall x :: x in NonEmptyNormalized(parts, norm) ==> x != [] && '|' !in x
    decreases |parts|
  {
    if parts != [] {
      NonEmptyNormalizedPieces(parts[1..], norm);
    }
  }

  lemma {:induction false} NormalizeTextNoBar()
    ensures forall x :: '|' !in NormalizeText(x)
  {
    forall x { NormalizeTextChars(x); }
  }

  /**
   * A normalised item key splits on `|` back into its normalised pieces:
   * it is empty exactly when every piece normalises to nothing.
   */
  lemma {:induction false} NormalizeItemPieces(key: string)
    requires '|' in key
    ensures var pieces := NonEmptyNormalized(SplitOn(key, '|'), NormalizeText);
            (NormalizeItem(key) == [] <==> pieces == [])
            && (pieces != [] ==> SplitOn(NormalizeItem(key), '|') == pieces)
  {
    var pieces := NonEmptyNormalized(SplitOn(key, '|'), NormalizeText);
    assert NormalizeItem(key) == Join(pieces, "|");
    if pieces != [] {
      NormalizeTextNoBar();
      NonEmptyNormalizedPieces(SplitOn(key, '|'), NormalizeText);
      assert pieces[0] in pieces;
      SplitOnJoin(pieces, '|');
      JoinNonEmpty(pieces, "|");
    }
  }

  lemma {:induction false} JoinNonEmpty(parts: seq<string>, sep: string)
    requires parts != [] && parts[0] != []
    ensures Join(parts, sep) != []
  {
    if |parts| > 1 { assert Join(parts, sep) == parts[0] + sep + Join(parts[1..], sep); }
  }

  // -------------------------------------------------------------- field keys

  /** The `name:value` part a field contributes under the normalisation `norm`, if any (lines 26-38). */
  function Part(field: (string, string), norm: string -> string): seq<string> {
    if field.1 == [] then []
    else
      var v := norm(field.1);
      if v != [] then [Canonical(field.0) + ":" + v] else []
  }

  /** The parts of all fields, in dictionary order. */
  function Parts(fields: Fields, norm: string -> string): seq<string>
    decreases |fields|
  {
    if fields == [] then [] else Part(fields[0], norm) + Parts(fields[1..], norm)
  }

  /** `normalize_key`: the sorted parts joined by `|`. */
  function NormalizeKey(fields: Fields): string {
    Join(Sorting.Sort(Parts(fields, NormalizeText)), "|")
  }

  lemma {:induction false} PartsConcat(a: Fields, b: Fields, norm: string -> string)
    ensures Parts(a + b, norm) == Parts(a, norm) + Parts(b, norm)
    decreases |a|
  {
    if a == [] {
      assert a + b == b;
    } else {
      assert (a + b)[0] == a[0] && (a + b)[1..] == a[1..] + b;
      PartsConcat(a[1..], b, norm);
    }
  }

  lemma {:induction false} PartsSingle(x: (string, string), norm: string -> string)
    ensures Parts([x], norm) == Part(x, norm)
  {
    assert [x][1..] == [];
  }

  lemma {:induction false} MultisetRemoveAt<T>(s: seq<T>, j: int)
    requires 0 <= j < |s|
    ensures multiset(s[..j] + s[j + 1..]) == multiset(s) - multiset{s[j]}
  {
    assert s == s[..j] + [s[j]] + s[j + 1..];
    assert multiset(s) == multiset(s[..j]) + multiset{s[j]} + multiset(s[j + 1..]);
  }

  /** Taking one field out of the dictionary keeps the other parts. */
  lemma {:induction false} PartsMoveFront(b: Fields, j: int, norm: string -> string)
    requires 0 <= j < |b|
    ensures multiset(Parts(b, norm)) == multiset(Part(b[j], norm)) + multiset(Parts(b[..j] + b[j + 1..], norm))
  {
    var x := Parts(b[..j], norm);
    var y := Parts(b[j + 1..], norm);
    var p := Part(b[j], norm);
    var rest := [b[j]] + b[j + 1..];
    assert b == b[..j] + rest;
    PartsConcat(b[..j], rest, norm);
    PartsConcat([b[j]], b[j + 1..], norm);
    PartsSingle(b[j], norm);
    assert Parts(rest, norm) == p + y;
    PartsConcat(b[..j], b[j + 1..], norm);
    assert Parts(b, norm) == x + (p + y);
    assert multiset(x + (p + y)) == multiset(x) + multiset(p) + multiset(y);
  }

  /** A place where an element of a sequence's multiset occurs. */
  lemma {:induction false} IndexIn<T>(s: seq<T>, x: T) returns (j: nat)
    requires x in multiset(s)
    ensures j < |s| && s[j] == x
  {
    assert x in s;
    j :| j < |s| && s[j] == x;
  }

  /** Taking the same element out of two permutations of each other leaves permutations. */
  lemma {:induction false} RemoveSame<T>(a: seq<T>, b: seq<T>, j: nat)
    requires multiset(a) == multiset(b) && a != [] && j < |b| && b[j] == a[0]
    ensures multiset(a[1..]) == multiset(b[..j] + b[j + 1..])
  {
    MultisetRemoveAt(b, j);
    assert a == [a[0]] + a[1..];
    assert multiset(a) == multiset{a[0]} + multiset(a[1..]);
  }

  lemma {:induction false} PartsPermutation(a: Fields, b: Fields, norm: string -> string)
    requires multiset(a) == multiset(b)
    ensures multiset(Parts(a, norm)) == multiset(Parts(b, norm))
    decreases |a|
  {
    if a == [] {
      assert |b| == |multiset(b)| == 0;
    } else {
      var j := IndexIn(b, a[0]);
      RemoveSame(a, b, j);
      PartsPermutation(a[1..], b[..j] + b[j + 1..], norm);
      PartsSameFront(a, b, j, norm);
    }
  }

  /** Two dictionaries whose rests have the same parts, once the same field is taken out of each. */
  lemma {:induction false} PartsSameFront(a: Fields, b: Fields, j: int, norm: string -> string)
    requires a != [] && 0 <= j < |b| && b[j] == a[0]
    requires multiset(Parts(a[1..], norm)) == multiset(Parts(b[..j] + b[j + 1..], norm))
    ensures multiset(Parts(a, norm)) == multiset(Parts(b, norm))
  {
    PartsMoveFront(b, j, norm);
    PartsMoveFront(a, 0, norm);
    assert a[..0] + a[1..] == a[1..];
  }

  lemma {:induction false} PartsNonEmpty(fields: Fields, norm: string -> string)
    ensures forall x :: x in Parts(fields, norm) ==> x != []
    decreases |fields|
  {
    if fields != [] {
      PartsNonEmpty(fields[1..], norm);
    }
  }

  lemma {:induction false} PartsEmptyIff(fields: Fields, norm: string -> string)
    ensures Parts(fields, norm) == [] <==> forall i :: 0 <= i < |fields| ==> fields[i].1 == [] || norm(fields[i].1) == []
    decreases |fields|
  {
    if fields != [] {
      PartsEmptyIff(fields[1..], norm);
      assert forall i :: 1 <= i < |fields| ==> fields[1..][i - 1] == fields[i];
    }
  }

  /** A field dictionary gives the same key whatever order its entries come in. */
  lemma {:induction false} NormalizeKeyOrderIndependent(a: Fields, b: Fields)
    requires multiset(a) == multiset(b)
    ensures NormalizeKey(a) == NormalizeKey(b)
  {
    PartsPermutation(a, b, NormalizeText);
    Sorting.SortPermutation(Parts(a, NormalizeText), Parts(b, NormalizeText));
  }

  /** Fields with an empty value do not take part in the key. */
  lemma {:induction false} NormalizeKeySkipsEmpty(a: Fields, name: string, b: Fields)
    ensures NormalizeKey(a + [(name, "")] + b) == NormalizeKey(a + b)
  {
    var e := [(name, "")];
    assert Parts(a + e + b, NormalizeText) == Parts(a + b, NormalizeText) by {
      PartsConcat(a + e, b, NormalizeText);
      PartsConcat(a, e, NormalizeText);
      PartsConcat(a, b, NormalizeText);
      PartsSingle(e[0], NormalizeText);
    }
  }

  /** A field heading and its synonym give the same key. */
  lemma {:induction false} NormalizeKeySynonym(a: Fields, name1: string, name2: string, value: string, b: Fields)
    requires Canonical(name1) == Canonical(name2)
    ensures NormalizeKey(a + [(name1, value)] + b) == NormalizeKey(a + [(name2, value)] + b)
  {
    var e1 := [(name1, value)];
    var e2 := [(name2, value)];
    assert Parts(a + e1 + b, NormalizeText) == Parts(a + e2 + b, NormalizeText) by {
      PartsConcat(a + e1, b, NormalizeText);
      PartsConcat(a, e1, NormalizeText);
      PartsConcat(a + e2, b, NormalizeText);
      PartsConcat(a, e2, NormalizeText);
      PartsSingle(e1[0], NormalizeText);
      PartsSingle(e2[0], NormalizeText);
    }
  }

  /** The key is empty exactly when no field value survives normalisation. */
  lemma {:induction false} NormalizeKeyEmptyIff(fields: Fields)
    ensures NormalizeKey(fields) == [] <==> forall i :: 0 <= i < |fields| ==> NormalizeText(fields[i].1) == []
  {
    var p := Parts(fields, NormalizeText);
    var s := Sorting.Sort(p);
    assert NormalizeKey(fields) == Join(s, "|");
    assert p == [] <==> forall i :: 0 <= i < |fields| ==> NormalizeText(fields[i].1) == [] by {
      PartsEmptyIff(fields, NormalizeText);
      assert forall i :: 0 <= i < |fields| ==> (fields[i].1 == [] || NormalizeText(fields[i].1) == [] <==> NormalizeText(fields[i].1) == []);
    }
    assert s == [] <==> p == [] by {
      assert |s| == |multiset(s)| == |multiset(p)| == |p|;
    }
    if s != [] {
      assert s[0] != [] by {
        assert s[0] in multiset(s);
        assert s[0] in p;
        PartsNonEmpty(fields, NormalizeText);
      }
      JoinNonEmpty(s, "|");
    }
  }

  // ------------------------------------------------------------- similarity

  /** `sum(1 for c in a if c in b)` */
  function CommonCount(a: string, b: string): (n: nat)
    ensures n <= |a|
    ensures n == |a| <==> forall i :: 0 <= i < |a| ==> a[i] in b
    decreases |a|
  {
    if a == [] then 0
    else
      var rest := CommonCount(a[1..], b);
      assert forall i :: 1 <= i < |a| ==> a[1..][i - 1] == a[i];
      (if a[0] in b then 1 else 0) + rest
  }

  /** `calculate_similarity_score` */
  function Similarity(key1: string, key2: string): (r: real)
    ensures 0.0 <= r <= 1.0
  {
    if key1 == [] || key2 == [] then 0.0 else Score(NormalizeItem(key1), NormalizeItem(key2))
  }

  /** The score of two normalised keys: 1.0 when equal, else the share of `n1`'s characters found in `n2`. */
  function Score(n1: string, n2: string): (r: real)
    ensures 0.0 <= r <= 1.0
  {
    if n1 == n2 then 1.0
    else if n1 == [] || n2 == [] then 0.0
    else Ratio(CommonCount(n1, n2), if |n1| >= |n2| then |n1| else |n2|)
  }

  /** `count / m` for a count that does not exceed a positive `m`. */
  function Ratio(count: nat, m: nat): (r: real)
    requires 0 < m && count <= m
    ensures 0.0 <= r <= 1.0
    ensures r == 1.0 <==> count == m
  {
    count as real / m as real
  }

  /**
   * The score is 1.0 exactly when both keys are given and either they
   * normalise alike or every character of the first normalised key occurs in
   * the second and the first is at least as long.
   */
  lemma {:induction false} SimilarityFull(key1: string, key2: string)
    ensures var n1 := NormalizeItem(key1);
            var n2 := NormalizeItem(key2);
            Similarity(key1, key2) == 1.0 <==>
              key1 != [] && key2 != []
              && (n1 == n2 || (n1 != [] && n2 != [] && |n1| >= |n2| && forall i :: 0 <= i < |n1| ==> n1[i] in n2))
  {
  }

  /** A non-empty key scores 1.0 against itself; an empty key scores 0.0 against anything. */
  lemma {:induction false} SimilarityReflexive(key: string, other: string)
    ensures key != [] ==> Similarity(key, key) == 1.0
    ensures Similarity([], other) == 0.0 && Similarity(other, []) == 0.0
  {
  }

  /** Lower-case ASCII text holds none of the noise patterns. */
  lemma {:induction false} DenoisePlain(s: string)
    requires PlainWord(s)
    ensures Denoise(s) == s
  {
    assert DropOrdinal(s) == s by { assert IsAsciiLower(s[0]); }
    var s1 := DropSuffix(s, "当り");
    assert s1 == s by { NotEndsWithLast(s, "当り"); }
    var s2 := DropSuffix(s1, "当たり");
    assert s2 == s by { NotEndsWithLast(s, "当たり"); }
    assert DropDimension(s2) == s by { DropDimensionNone(s); }
    assert Denoise(s) == DropDimension(s2);
  }

  /** A lower-case ASCII letter is settled and is no space. */
  lemma {:induction false} LowerSettled(c: char)
    requires IsAsciiLower(c)
    ensures Settled(c) && !IsSpace(c)
  {
  }

  /** A plain word normalises to itself. */
  lemma {:induction false} NormalizeTextPlain(s: string)
    requires PlainWord(s)
    ensures NormalizeText(s) == s
  {
    forall i | 0 <= i < |s| ensures Settled(s[i]) {
      LowerSettled(s[i]);
    }
    CleanSettled(s);
    DenoisePlain(s);
    LowerSettled(s[0]);
    LowerSettled(s[|s| - 1]);
    StripUnspaced(s);
    assert NormalizeText(s) == Strip(Denoise(Clean(s)));
  }

  /** A plain word holds no `|`, so as an item key too it normalises to itself. */
  lemma {:induction false} NormalizeItemPlain(s: string)
    requires PlainWord(s)
    ensures NormalizeItem(s) == s
  {
    NormalizeTextPlain(s);
    assert '|' !in s by {
      forall i | 0 <= i < |s| ensures s[i] != '|' { assert IsAsciiLower(s[i]); }
    }
  }

  /** Two lower-case letters other than `m` normalise to themselves. */
  lemma {:induction false} NormalizeItemPair(x: char, y: char)
    requires PlainWord([x]) && PlainWord([y])
    ensures NormalizeItem([x, y]) == [x, y]
  {
    var xy := [x, y];
    assert PlainWord(xy) by { assert xy[0] == x && xy[1] == y; }
    NormalizeItemPlain(xy);
  }

  /**
   * The score is not symmetric: with `x` and `y` distinct letters, "xx" is
   * fully covered by "xy", but only half of "xy" is covered by "xx".
   */
  lemma {:induction false} SimilarityAsymmetric(x: char, y: char)
    requires PlainWord([x]) && PlainWord([y]) && x != y
    ensures Similarity([x, x], [x, y]) == 1.0
    ensures Similarity([x, y], [x, x]) == 0.5
  {
    NormalizeItemPair(x, x);
    NormalizeItemPair(x, y);
    ScoreAsymmetric(x, y);
  }

  lemma {:induction false} ScoreAsymmetric(x: char, y: char)
    requires x != y
    ensures Score([x, x], [x, y]) == 1.0
    ensures Score([x, y], [x, x]) == 0.5
  {
    assert CommonCount([x, x], [x, y]) == 2 by {
      assert [x, x][1..] == [x];
      assert CommonCount([x], [x, y]) == 1;
    }
    assert CommonCount([x, y], [x, x]) == 1 by {
      assert [x, y][1..] == [y];
      assert CommonCount([y], [x, x]) == 0;
    }
  }
}

/**
 * The `normalize_text` that `subtable_title_comparator.py` and
 * `excel_subtable_extractor.py` both define: strip, fold full-width digits,
 * Latin letters and the ideographic space to their half-width forms, then
 * delete every whitespace character. Unlike the item normaliser it neither
 * lower-cases nor folds any other full-width character.
 */
module TitleText {
  import opened Text

  /** A full-width digit, Latin letter or the ideographic space: the characters the translation table maps. */
  predicate IsWideAlnum(c: char) {
    ('\U{FF10}' <= c <= '\U{FF19}') || ('\U{FF21}' <= c <= '\U{FF3A}') || ('\U{FF41}' <= c <= '\U{FF5A}')
  }

  /** One character through the translation table. */
  function NarrowChar(c: char): (d: char)
    ensures IsSpace(d) <==> IsSpace(c)
    ensures !IsWideAlnum(d) && d != IdeographicSpace
  {
    if IsWideAlnum(c) then (c as int - 0xFEE0) as char
    else if c == IdeographicSpace then ' '
    else c
  }

  /** `text.translate(full_to_half)` */
  function Narrow(s: string): (r: string)
    ensures |r| == |s|
    ensures forall i :: 0 <= i < |s| ==> r[i] == NarrowChar(s[i])
    decreases |s|
  {
    if s == [] then [] else [NarrowChar(s[0])] + Narrow(s[1..])
  }

  /** `normalize_text(text)`: strip, translate, then `re.sub(r'\s+', '', text)`. */
  function NormalizeText(s: string): string {
    RemoveSpaces(Narrow(Strip(s)))
  }

  /** The inverse direction of the table: ASCII digits, letters and the space to their full-width forms. */
  function WidenChar(c: char): char {
    if IsAsciiDigit(c) || IsAsciiLetter(c) then (c as int + 0xFEE0) as char
    else if c == ' ' then IdeographicSpace
    else c
  }

  function Widen(s: string): (r: string)
    ensures |r| == |s|
    ensures forall i :: 0 <= i < |s| ==> r[i] == WidenChar(s[i])
    decreases |s|
  {
    if s == [] then [] else [WidenChar(s[0])] + Widen(s[1..])
  }

  lemma {:induction false} RemoveSpacesConcat(a: string, b: string)
    ensures RemoveSpaces(a + b) == RemoveSpaces(a) + RemoveSpaces(b)
    decreases |a|
  {
    if a == [] {
      assert a + b == b;
    } else {
      assert (a + b)[0] == a[0] && (a + b)[1..] == a[1..] + b;
      RemoveSpacesConcat(a[1..], b);
    }
  }

  lemma {:induction false} RemoveSpacesBlank(s: string)
    requires Blank(s)
    ensures RemoveSpaces(s) == []
    decreases |s|
  {
    if s != [] {
      RemoveSpacesBlank(s[1..]);
    }
  }

  /** `Strip(s)` cuts whitespace-only pieces from both ends of `s`. */
  lemma {:induction false} StripPieces(s: string) returns (a: nat, b: nat)
    ensures a <= b <= |s|
    ensures Strip(s) == s[a..b]
    ensures Blank(s[..a]) && Blank(s[b..])
  {
    var l := LStrip(s);
    var r := RStrip(l);
    a, b := |s| - |l|, |s| - |l| + |r|;
    assert Strip(s) == s[a..b] by {
      assert l == s[a..];
      assert r == l[..|r|];
    }
    assert Blank(s[..a]) by {
      LeadingBlank(s);
    }
    assert Blank(s[b..]) by {
      TrailingBlank(l);
      assert l == s[a..];
      assert s[b..] == l[|r|..];
    }
  }

  /** What `LStrip` cuts off is whitespace. */
  lemma {:induction false} LeadingBlank(s: string)
    ensures Blank(s[..|s| - |LStrip(s)|])
  {
    var a := |s| - |LStrip(s)|;
    LStripRemovesSpaces(s);
    forall i | 0 <= i < a ensures IsSpace(s[..a][i]) {
      assert s[..a][i] == s[i];
    }
  }

  /** What `RStrip` cuts off is whitespace. */
  lemma {:induction false} TrailingBlank(l: string)
    ensures Blank(l[|RStrip(l)|..])
  {
    var b := |RStrip(l)|;
    RStripRemovesSpaces(l);
    forall i | 0 <= i < |l| - b ensures IsSpace(l[b..][i]) {
      assert l[b..][i] == l[b + i];
    }
  }

  lemma {:induction false} NarrowConcat(x: string, y: string)
    ensures Narrow(x + y) == Narrow(x) + Narrow(y)
  {
  }

  lemma {:induction false} NarrowBlank(x: string)
    requires Blank(x)
    ensures Blank(Narrow(x))
  {
  }

  /** Whitespace-only pieces around `y` leave nothing once narrowed and spaces are deleted. */
  lemma {:induction false} RemoveAround(x: string, y: string, z: string)
    requires Blank(x) && Blank(z)
    ensures RemoveSpaces(Narrow(x + y + z)) == RemoveSpaces(Narrow(y))
  {
    NarrowConcat(x + y, z);
    NarrowConcat(x, y);
    NarrowBlank(x);
    NarrowBlank(z);
    RemoveSpacesConcat(Narrow(x) + Narrow(y), Narrow(z));
    RemoveSpacesConcat(Narrow(x), Narrow(y));
    RemoveSpacesBlank(Narrow(x));
    RemoveSpacesBlank(Narrow(z));
  }

  /** Whitespace runs at either end are deleted later anyway, so stripping first changes nothing. */
  lemma {:induction false} NormalizeTextPlain(s: string)
    ensures NormalizeText(s) == RemoveSpaces(Narrow(s))
  {
    var a, b := StripPieces(s);
    RemoveAroundAt(s, a, b);
  }

  /** Whitespace-only pieces before `a` and from `b` on leave nothing once narrowed and spaces are deleted. */
  lemma {:induction false} RemoveAroundAt(s: string, a: nat, b: nat)
    requires a <= b <= |s| && Blank(s[..a]) && Blank(s[b..])
    ensures RemoveSpaces(Narrow(s)) == RemoveSpaces(Narrow(s[a..b]))
  {
    assert s == s[..a] + s[a..b] + s[b..];
    RemoveAround(s[..a], s[a..b], s[b..]);
  }

  /** The result holds no whitespace, no full-width digit or letter and no ideographic space. */
  lemma {:induction false} NormalizeTextChars(s: string)
    ensures NoSpace(NormalizeText(s))
    ensures forall i :: 0 <= i < |NormalizeText(s)| ==> !IsWideAlnum(NormalizeText(s)[i])
  {
    var n := Narrow(Strip(s));
    RemoveSpacesChars(n);
    forall i | 0 <= i < |NormalizeText(s)| ensures !IsWideAlnum(NormalizeText(s)[i]) {
      assert NormalizeText(s)[i] in n;
    }
  }

  lemma {:induction false} RemoveSpacesUnspaced(s: string)
    requires NoSpace(s)
    ensures RemoveSpaces(s) == s
    decreases |s|
  {
    if s != [] {
      RemoveSpacesUnspaced(s[1..]);
      assert s == [s[0]] + s[1..];
    }
  }

  /** Normalising twice gives what normalising once gives. */
  lemma {:induction false} NormalizeTextIdempotent(s: string)
    ensures NormalizeText(NormalizeText(s)) == NormalizeText(s)
  {
    var t := NormalizeText(s);
    NormalizeTextChars(s);
    NormalizeTextPlain(t);
    assert Narrow(t) == t;
    RemoveSpacesUnspaced(t);
  }

  /** Writing digits, Latin letters or spaces in full width does not change the normalised text. */
  lemma {:induction false} NormalizeTextIgnoresWidth(s: string)
    ensures NormalizeText(Widen(s)) == NormalizeText(s)
  {
    NormalizeTextPlain(s);
    NormalizeTextPlain(Widen(s));
    NarrowWiden(s);
  }

  lemma {:induction false} NarrowWiden(s: string)
    ensures Narrow(Widen(s)) == Narrow(s)
  {
    var w := Widen(s);
    forall i | 0 <= i < |s| ensures Narrow(w)[i] == Narrow(s)[i] {
      NarrowWidenChar(s[i]);
    }
  }

  lemma {:induction false} NarrowWidenChar(c: char)
    ensures NarrowChar(WidenChar(c)) == NarrowChar(c)
  {
    if IsAsciiDigit(c) || IsAsciiLetter(c) {
      var w := (c as int + 0xFEE0) as char;
      assert IsWideAlnum(w);
      assert (w as int - 0xFEE0) as char == c;
    }
  }
}
